/** The older client's clothes helpers (my-ootd/src/utils/api/clothes.ts): the
    listing path and the reshaping of the server's recommendation object.  The
    server object is modelled as its entries in key order; each value is an
    item object, some other non-object value, or null. */
module OotdClothesApi {
  import opened Common

  /** One element of an item's `styles` array: an object whose `styles` field
      may be missing, or null. */
  datatype StyleEntry = StyleObject(styles: Option<string>) | NullStyle

  /** An item object as the server sends it. */
  datatype RawItem = RawItem(id: Option<int>, name: string, kind: string, colour: string,
                             imageUrl: string, styles: Option<seq<StyleEntry>>)

  datatype Value = ItemValue(item: RawItem) | TextValue(text: string) | NullValue

  /** An item as the client keeps it: style objects replaced by their names. */
  datatype Item = Item(id: int, name: string, kind: string, colour: string,
                       imageUrl: string, styles: seq<Option<string>>)

  datatype Entry = Entry(category: string, item: Item)

  /** The call returns null, throws (a TypeError), or returns the set. */
  datatype Normalized =
    | NullSet
    | Threw
    | Set(stylePhrase: Option<Value>, items: seq<Entry>)

  const StylePhraseKey: string := "_style_phrase"

  /** `(item.styles || []).map(s => s.styles)`; a null element throws. */
  function StyleNames(styles: Option<seq<StyleEntry>>): (r: Option<seq<Option<string>>>)
    ensures r.None? <==> styles.Some? && NullStyle in styles.value
    ensures r.Some? && styles.None? ==> r.value == []
    ensures r.Some? && styles.Some? ==> (|r.value| == |styles.value|
      && forall k :: 0 <= k < |styles.value| ==> r.value[k] == styles.value[k].styles)
  {
    if styles.None? then Some([])
    else if NullStyle in styles.value then None
    else Some(seq(|styles.value|, k requires 0 <= k < |styles.value| => styles.value[k].styles))
  }

  /** Whether mapping this value throws: reading `styles` of null does. */
  predicate Throws(v: Value) {
    v.NullValue? || (v.ItemValue? && StyleNames(v.item.styles).None?)
  }

  /** The entry kept for one key, if any: only an item with a truthy id. */
  function Keep(category: string, v: Value): (r: Option<Entry>)
    requires !Throws(v)
    ensures r.Some? <==> v.ItemValue? && v.item.id.Some? && v.item.id.value != 0
    ensures r.Some? ==> r.value.category == category && r.value.item.id == v.item.id.value
    ensures r.Some? ==> && r.value.item.name == v.item.name && r.value.item.kind == v.item.kind
                        && r.value.item.colour == v.item.colour && r.value.item.imageUrl == v.item.imageUrl
                        && Some(r.value.item.styles) == StyleNames(v.item.styles)
  {
    match v
    case ItemValue(it) =>
      if it.id.Some? && it.id.value != 0 then
        Some(Entry(category, Item(it.id.value, it.name, it.kind, it.colour, it.imageUrl, StyleNames(it.styles).value)))
      else None
    case _ => None
  }

  /** The category entries, `_style_phrase` excluded. */
  function Categories(entries: seq<(string, Value)>): (r: seq<(string, Value)>)
    ensures forall e :: e in r <==> e in entries && e.0 != StylePhraseKey
  {
    if |entries| == 0 then []
    else if entries[0].0 == StylePhraseKey then Categories(entries[1..])
    else [entries[0]] + Categories(entries[1..])
  }

  /** `Object.entries(...).filter(...).map(...)` over the category entries:
      each kept entry is what `Keep` makes of one input entry. */
  function KeepAll(entries: seq<(string, Value)>): (r: seq<Entry>)
    requires forall e :: e in entries ==> !Throws(e.1)
    ensures |r| <= |entries|
    ensures forall x :: x in r ==> x.item.id != 0 && exists e :: e in entries && e.0 == x.category
    ensures forall x :: x in r ==> exists e :: e in entries && Keep(e.0, e.1) == Some(x)
  {
    if |entries| == 0 then []
    else
      var rest := KeepAll(entries[1..]);
      assert forall x :: x in rest ==> exists e :: e in entries && Keep(e.0, e.1) == Some(x) by {
        forall x | x in rest ensures exists e :: e in entries && Keep(e.0, e.1) == Some(x) {
          var e :| e in entries[1..] && Keep(e.0, e.1) == Some(x);
          assert e in entries;
        }
      }
      match Keep(entries[0].0, entries[0].1)
      case None => rest
      case Some(x) => [x] + rest
  }

  /** `normalizeRecommendations(recs)`; an absent object is `None`. */
  function Normalize(recs: Option<seq<(string, Value)>>): (r: Normalized)
    ensures recs.None? <==> r.NullSet?
    ensures r.Threw? <==> recs.Some? && exists e :: e in Categories(recs.value) && Throws(e.1)
  {
    if recs.None? then NullSet
    else
      var cats := Categories(recs.value);
      if exists e :: e in cats && Throws(e.1) then Threw
      else Set(Lookup(recs.value, StylePhraseKey), KeepAll(cats))
  }

  /** Every kept entry has a truthy id and a category that is a key of the
      input other than `_style_phrase`; the phrase is copied across. */
  lemma NormalizeEntries(recs: seq<(string, Value)>)
    requires Normalize(Some(recs)).Set?
    ensures var r := Normalize(Some(recs));
      && r.stylePhrase == Lookup(recs, StylePhraseKey)
      && forall x :: x in r.items ==> x.item.id != 0 && x.category != StylePhraseKey && x.category in Keys(recs)
  {
    var cats := Categories(recs);
    forall x | x in Normalize(Some(recs)).items
      ensures x.category != StylePhraseKey && x.category in Keys(recs)
    {
      var e :| e in cats && e.0 == x.category;
      assert e in recs;
      var k :| 0 <= k < |recs| && recs[k] == e;
      assert Keys(recs)[k] == x.category;
    }
  }

  /** An entry with an item that has a truthy id is kept, with its styles
      turned into names and the other fields as sent. */
  lemma {:induction false} KeepAllOrder(entries: seq<(string, Value)>, k: nat)
    requires forall e :: e in entries ==> !Throws(e.1)
    requires k < |entries| && Keep(entries[k].0, entries[k].1).Some?
    ensures Keep(entries[k].0, entries[k].1).value in KeepAll(entries)
  {
    if k > 0 {
      assert entries[1..][k - 1] == entries[k];
      KeepAllOrder(entries[1..], k - 1);
    }
  }

  /** The entries are kept in key order: the result for a concatenation is
      the result for the first part, then that for the second. */
  lemma {:induction false} KeepAllAppend(a: seq<(string, Value)>, b: seq<(string, Value)>)
    requires forall e :: e in a + b ==> !Throws(e.1)
    ensures KeepAll(a + b) == KeepAll(a) + KeepAll(b)
  {
    if |a| == 0 {
      assert a + b == b;
    } else {
      assert (a + b)[0] == a[0];
      assert (a + b)[1..] == a[1..] + b;
      KeepAllAppend(a[1..], b);
    }
  }

  /** One entry gives what `Keep` makes of it, or nothing. */
  lemma KeepAllSingle(e: (string, Value))
    requires !Throws(e.1)
    ensures KeepAll([e]) == match Keep(e.0, e.1) case None => [] case Some(x) => [x]
  {
    assert [e][1..] == [];
  }

  /** An empty object is truthy: it gives an empty set, not null. */
  lemma EmptyObjectIsNotNull()
    ensures Normalize(Some([])) == Set(None, [])
  {
  }

  /** `fetchRecommendations`: a non-ok response is null without normalising. */
  function FetchOutcome(ok: bool, body: Option<seq<(string, Value)>>): (r: Normalized)
    ensures !ok ==> r == NullSet
    ensures ok ==> r == Normalize(body)
  {
    if !ok then NullSet else Normalize(body)
  }

  /** The query string of `getPageClothesByType`; the category is not escaped. */
  function PageQuery(category: string, limit: nat, offset: nat): string
  {
    "type=" + category + "&limit=" + NatToString(limit) + "&offset=" + NatToString(offset)
  }

  function PagePath(category: string, limit: nat, offset: nat): (p: string)
    ensures p == "/clothes?" + PageQuery(category, limit, offset)
  {
    "/clothes?type=" + category + "&limit=" + NatToString(limit) + "&offset=" + NatToString(offset)
  }

  /** With no "&" in the category, the query has exactly the three parameters. */
  lemma PageQueryFields(category: string, limit: nat, offset: nat)
    requires '&' !in category
    ensures Split(PageQuery(category, limit, offset), '&') ==
      ["type=" + category, "limit=" + NatToString(limit), "offset=" + NatToString(offset)]
  {
    var a, b, c := "type=" + category, "limit=" + NatToString(limit), "offset=" + NatToString(offset);
    assert '&' !in a && '&' !in b && '&' !in c by {
      assert forall i :: 0 <= i < |NatToString(limit)| ==> NatToString(limit)[i] != '&';
      assert forall i :: 0 <= i < |NatToString(offset)| ==> NatToString(offset)[i] != '&';
    }
    assert PageQuery(category, limit, offset) == a + ['&'] + (b + ['&'] + c);
    SplitJoin3(a, b, c, '&');
  }

  lemma SplitJoin3(a: string, b: string, c: string, sep: char)
    requires sep !in a && sep !in b && sep !in c
    ensures Split(a + [sep] + (b + [sep] + c), sep) == [a, b, c]
  {
    SplitNoSeparator(c, sep);
    SplitAfterWord(b, sep, c);
    SplitAfterWord(a, sep, b + [sep] + c);
  }
}
