/** The Next.js wardrobe endpoint (my-ootd/src/app/api/wardrobe/route.ts):
    picks the category filter from the `type` parameter, queries the clothes
    with their styles, and projects each row to the JSON payload. The query
    itself is a parameter: the model fixes what is asked and what is done with
    the answer. */
module WardrobeRoute {
  import opened Common
  import Db = ClothDbService

  /** A row as the query returns it; `clothes_styles` may be null. */
  datatype Row = Row(id: int, name: string, kind: string, colour: string, category: string,
                     imageUrl: Option<string>, links: Option<seq<Db.StyleLink>>)

  /** One element of the JSON payload. */
  datatype PayloadItem = PayloadItem(id: int, name: string, kind: string, colour: string, category: string,
                                     styles: seq<string>, imageUrl: Option<string>)

  /** What `await query` gives back. */
  datatype Answer = Answer(data: Option<seq<Row>>, error: Option<string>)

  datatype Reply = ErrorReply(status: int, error: string) | Payload(items: seq<PayloadItem>)

  /** `searchParams.get("type") || "all"`. */
  function SelectedCategory(typeParam: Option<string>): (c: string)
    ensures c != ""
    ensures typeParam.Some? && typeParam.value != "" ==> c == typeParam.value
  {
    if typeParam.Some? && typeParam.value != "" then typeParam.value else "all"
  }

  /** The `.eq("category", …)` filter, if one is added. */
  function QueryFilter(typeParam: Option<string>): (f: Option<string>)
    ensures f.None? <==> ToLower(SelectedCategory(typeParam)) == "all"
    ensures f.Some? ==> f.value == ToLower(SelectedCategory(typeParam)) && f.value != ""
  {
    var lower := ToLower(SelectedCategory(typeParam));
    if lower != "all" then Some(lower) else None
  }

  /** `(links ?? []).map(cs => cs.styles?.name).filter(Boolean)`. */
  function PayloadStyles(links: Option<seq<Db.StyleLink>>): (r: seq<string>)
    ensures links.None? ==> r == []
    ensures forall s :: s in r ==> s != ""
    ensures links.Some? ==> forall s :: s in r ==> exists i :: 0 <= i < |links.value| && NameOf(links.value[i]) == Some(s)
    ensures links.Some? ==> forall i :: 0 <= i < |links.value| && NonEmpty(NameOf(links.value[i])) ==>
      NameOf(links.value[i]).value in r
  {
    if links.None? then [] else NonEmptyNames(links.value)
  }

  /** A truthy `cs.styles?.name`: present and not "". */
  predicate NonEmpty(n: Option<string>) {
    n.Some? && n.value != ""
  }

  /** The truthy names of the links, in link order. */
  function NonEmptyNames(links: seq<Db.StyleLink>): (r: seq<string>)
    ensures |r| <= |links|
    ensures forall s :: s in r ==> s != "" && exists i :: 0 <= i < |links| && NameOf(links[i]) == Some(s)
    ensures forall i :: 0 <= i < |links| && NonEmpty(NameOf(links[i])) ==> NameOf(links[i]).value in r
  {
    if |links| == 0 then []
    else
      var init := links[..|links| - 1];
      var n := NameOf(links[|links| - 1]);
      assert forall i :: 0 <= i < |init| ==> init[i] == links[i];
      NonEmptyNames(init) + (if n.Some? && n.value != "" then [n.value] else [])
  }

  /** `cs.styles?.name`. */
  function NameOf(link: Db.StyleLink): Option<string> {
    if link.styles.Some? then link.styles.value.name else None
  }

  function ToPayload(row: Row): (p: PayloadItem)
    ensures p.id == row.id && p.name == row.name && p.kind == row.kind && p.colour == row.colour
    ensures p.category == row.category && p.imageUrl == row.imageUrl && p.styles == PayloadStyles(row.links)
  {
    PayloadItem(row.id, row.name, row.kind, row.colour, row.category, PayloadStyles(row.links), row.imageUrl)
  }

  function ToPayloads(rows: seq<Row>): (r: seq<PayloadItem>)
    ensures |r| == |rows| && forall k :: 0 <= k < |rows| ==> r[k] == ToPayload(rows[k])
  {
    if |rows| == 0 then [] else [ToPayload(rows[0])] + ToPayloads(rows[1..])
  }

  /** `GET`: `query` answers the request built with the given filter. */
  function Get(typeParam: Option<string>, query: Option<string> -> Answer): (r: Reply)
    ensures query(QueryFilter(typeParam)).error.Some? ==>
              r == ErrorReply(500, query(QueryFilter(typeParam)).error.value)
    ensures query(QueryFilter(typeParam)).error.None? && query(QueryFilter(typeParam)).data.None? ==> r == Payload([])
    ensures query(QueryFilter(typeParam)).error.None? && query(QueryFilter(typeParam)).data.Some? ==>
              r == Payload(ToPayloads(query(QueryFilter(typeParam)).data.value))
  {
    var answer := query(QueryFilter(typeParam));
    if answer.error.Some? then ErrorReply(500, answer.error.value)
    else Payload(ToPayloads(if answer.data.Some? then answer.data.value else []))
  }

  /** Without a type, or with an empty one, the whole wardrobe is asked for. */
  lemma MissingTypeIsAll(typeParam: Option<string>)
    requires typeParam.None? || typeParam.value == ""
    ensures QueryFilter(typeParam).None?
  {
    assert ToLower("all") == "all";
  }

  /** The rows a database holding `table` returns for a filter. */
  function InCategory(table: seq<Row>, filter: Option<string>): (r: seq<Row>)
    ensures forall x :: x in r <==> x in table && (filter.Some? ==> x.category == filter.value)
  {
    if |table| == 0 then []
    else
      var init := table[..|table| - 1];
      var last := table[|table| - 1];
      assert table == init + [last];
      InCategory(init, filter) + (if filter.None? || last.category == filter.value then [last] else [])
  }

  /** Against such a database every returned item is in the lower-cased
      category asked for. */
  lemma FilteredPayload(typeParam: Option<string>, table: seq<Row>)
    requires QueryFilter(typeParam).Some?
    ensures var r := Get(typeParam, f => Answer(Some(InCategory(table, f)), None));
      r.Payload? && forall k :: 0 <= k < |r.items| ==> r.items[k].category == ToLower(SelectedCategory(typeParam))
  {
    var rows := InCategory(table, QueryFilter(typeParam));
    var r := Get(typeParam, f => Answer(Some(InCategory(table, f)), None));
    assert r == Payload(ToPayloads(rows));
    forall k | 0 <= k < |r.items| ensures r.items[k].category == ToLower(SelectedCategory(typeParam)) {
      assert rows[k] in rows;
    }
  }

  // The two projections of a row's styles -----------------------------------------

  /** Where every link has a non-empty style name, this payload and the Flask
      projection list the same names. */
  lemma {:induction false} ProjectionsAgree(links: seq<Db.StyleLink>)
    requires forall i :: 0 <= i < |links| ==> NameOf(links[i]).Some? && NameOf(links[i]).value != ""
    ensures |NonEmptyNames(links)| == |links| && |Db.StyleNames(links)| == |links|
    ensures forall k :: 0 <= k < |links| ==> Db.StyleNames(links)[k] == Some(NonEmptyNames(links)[k])
  {
    if |links| > 0 {
      var init := links[..|links| - 1];
      var last := links[|links| - 1];
      assert forall i :: 0 <= i < |init| ==> init[i] == links[i];
      ProjectionsAgree(init);
      var n := NameOf(last);
      assert Db.StyleNames(links) == Db.StyleNames(init) + [n];
      assert NonEmptyNames(links) == NonEmptyNames(init) + [n.value];
    }
  }

  /** The names of a concatenation are those of the first part, then those of
      the second: the link order is kept. */
  lemma {:induction false} NonEmptyNamesAppend(a: seq<Db.StyleLink>, b: seq<Db.StyleLink>)
    ensures NonEmptyNames(a + b) == NonEmptyNames(a) + NonEmptyNames(b)
  {
    if |b| == 0 {
      assert a + b == a;
    } else {
      var b' := b[..|b| - 1];
      assert (a + b)[..|a + b| - 1] == a + b';
      assert (a + b)[|a + b| - 1] == b[|b| - 1];
      NonEmptyNamesAppend(a, b');
    }
  }

  /** The truthy values of a list of optional names, in order. */
  function Truthy(ns: seq<Option<string>>): seq<string> {
    if |ns| == 0 then []
    else Truthy(ns[..|ns| - 1]) + (if NonEmpty(ns[|ns| - 1]) then [ns[|ns| - 1].value] else [])
  }

  /** The payload's names are the Flask projection's names with the empty
      ones dropped: a link whose style is missing is skipped by both, and one
      whose name is null or "" only by this one. */
  lemma {:induction false} ProjectionsRelate(links: seq<Db.StyleLink>)
    ensures NonEmptyNames(links) == Truthy(Db.StyleNames(links))
  {
    if |links| > 0 {
      var init := links[..|links| - 1];
      var last := links[|links| - 1];
      ProjectionsRelate(init);
      var ns := Db.StyleNames(init);
      if last.styles.Some? {
        var full := ns + [last.styles.value.name];
        assert Db.StyleNames(links) == full;
        assert full[..|full| - 1] == ns;
      } else {
        assert Db.StyleNames(links) == ns + [];
        assert ns + [] == ns;
      }
    }
  }

  /** A style whose name is empty is dropped here and kept by the Flask
      projection. */
  lemma EmptyNameDropped()
    ensures var links := [Db.StyleLink(Some(Db.StyleRef(1, Some(""))))];
      NonEmptyNames(links) == [] && Db.StyleNames(links) == [Some("")]
  {
    var links := [Db.StyleLink(Some(Db.StyleRef(1, Some(""))))];
    assert links[..0] == [];
  }
}
