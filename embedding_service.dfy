/** The embedding prefilter of the recommender
    (backend-flask/app/recommendation/embedding_service.py): a per-user cache
    of the user's cloth embeddings with a one-hour lifetime, and the grouping
    of every other item by category with the best three per category kept.
    Vectors are kept as opaque sequences; cosine similarity is a parameter
    that yields an ordered score. */
module EmbeddingService {
  import opened Common
  import opened RecommendationTypes

  const CacheTtl: real := 3600.0
  const TopPerCategory: nat := 3

  // ---------------------------------------------------------------------------
  // Rows and cache entries
  // ---------------------------------------------------------------------------

  /** A row of the embeddings query; `embedding` is absent when the column is null. */
  datatype Row = Row(id: int, category: string, embedding: Option<seq<real>>)

  /** `if not emb: continue` skips a missing and an empty embedding. */
  predicate HasEmbedding(r: Row) {
    r.embedding.Some? && |r.embedding.value| > 0
  }

  /** The three parallel lists `get_all_embeddings` returns. */
  datatype Embeddings = Embeddings(ids: seq<int>, vectors: seq<seq<real>>, categories: seq<string>)

  predicate Aligned(e: Embeddings) {
    |e.ids| == |e.vectors| == |e.categories|
  }

  const NoEmbeddings := Embeddings([], [], [])

  datatype Entry = Entry(data: Embeddings, timestamp: real)

  /** The rows the loop keeps, in order. */
  function ValidRows(rows: seq<Row>): (r: seq<Row>)
    ensures |r| <= |rows|
    ensures forall x :: x in r <==> x in rows && HasEmbedding(x)
    ensures forall i :: 0 <= i < |r| ==> HasEmbedding(r[i])
  {
    if |rows| == 0 then []
    else
      var init := ValidRows(rows[..|rows| - 1]);
      assert rows == rows[..|rows| - 1] + [rows[|rows| - 1]];
      if HasEmbedding(rows[|rows| - 1]) then init + [rows[|rows| - 1]] else init
  }

  /** The vector of a row, or [] when it has none. */
  function VectorOf(r: Row): seq<real> {
    if r.embedding.Some? then r.embedding.value else []
  }

  /** The three lists built from `rows`, position by position. */
  function Columns(rows: seq<Row>): (e: Embeddings)
    ensures Aligned(e) && |e.ids| == |rows|
    ensures forall i :: 0 <= i < |rows| ==>
      e.ids[i] == rows[i].id && e.categories[i] == rows[i].category && e.vectors[i] == VectorOf(rows[i])
  {
    if |rows| == 0 then NoEmbeddings
    else
      var init := Columns(rows[..|rows| - 1]);
      var last := rows[|rows| - 1];
      Embeddings(init.ids + [last.id], init.vectors + [VectorOf(last)], init.categories + [last.category])
  }

  lemma ColumnsSnoc(rows: seq<Row>, row: Row)
    ensures Columns(rows + [row]) == var c := Columns(rows);
      Embeddings(c.ids + [row.id], c.vectors + [VectorOf(row)], c.categories + [row.category])
  {
    assert (rows + [row])[..|rows|] == rows;
  }

  lemma ValidRowsSnoc(rows: seq<Row>, row: Row)
    ensures ValidRows(rows + [row]) == if HasEmbedding(row) then ValidRows(rows) + [row] else ValidRows(rows)
  {
    assert (rows + [row])[..|rows|] == rows;
  }

  /** The row loop of `get_all_embeddings`: rows without an embedding are
      skipped, and the id, vector and category of each kept row are appended
      together. */
  method CollectValid(data: seq<Row>) returns (e: Embeddings)
    ensures e == Columns(ValidRows(data))
    ensures Aligned(e)
  {
    e := NoEmbeddings;
    var i := 0;
    while i < |data|
      invariant 0 <= i <= |data|
      invariant e == Columns(ValidRows(data[..i]))
    {
      var row := data[i];
      assert data[..i + 1] == data[..i] + [row];
      ValidRowsSnoc(data[..i], row);
      if row.embedding.Some? && |row.embedding.value| > 0 {
        ColumnsSnoc(ValidRows(data[..i]), row);
        e := Embeddings(e.ids + [row.id], e.vectors + [row.embedding.value], e.categories + [row.category]);
      }
      i := i + 1;
    }
    assert data[..|data|] == data;
  }

  /** Position `i` of the cached lists always describes one row of the query,
      and that row has an embedding. */
  lemma ColumnsDescribeRows(data: seq<Row>, i: nat)
    requires i < |Columns(ValidRows(data)).ids|
    ensures exists r :: r in data && HasEmbedding(r) && r.id == Columns(ValidRows(data)).ids[i]
              && r.category == Columns(ValidRows(data)).categories[i]
              && r.embedding == Some(Columns(ValidRows(data)).vectors[i])
  {
    var r := ValidRows(data)[i];
    assert r in ValidRows(data);
  }

  // ---------------------------------------------------------------------------
  // The cache
  // ---------------------------------------------------------------------------

  /** `EMBED_CACHE`, keyed by user id. */
  class EmbeddingCache {
    var entries: map<string, Entry>

    /** Every cached entry holds three lists of the same length. */
    predicate Valid()
      reads this
    {
      forall u :: u in entries ==> Aligned(entries[u].data)
    }

    constructor ()
      ensures entries == map[] && Valid()
    {
      entries := map[];
    }

    /** A cached entry is used iff it exists and is younger than an hour. */
    predicate Fresh(user: string, now: real)
      reads this
    {
      user in entries && now - entries[user].timestamp < CacheTtl
    }

    /** `clear_user_embeddings`: only that user's entry goes. */
    method Clear(user: string)
      requires Valid()
      modifies this
      ensures Valid()
      ensures entries == old(entries) - {user}
      ensures user !in old(entries) ==> entries == old(entries)
    {
      if user in entries {
        entries := entries - {user};
      }
    }

    /** `get_all_embeddings` at time `now`; `data` is what the embeddings
        query would return, and is read only on a miss.  A miss with rows that
        have embeddings stores exactly the returned lists, stamped `now`. */
    method GetAll(user: string, now: real, data: Option<seq<Row>>) returns (e: Embeddings, fetched: bool)
      requires Valid()
      modifies this
      ensures Valid() && Aligned(e)
      ensures old(Fresh(user, now)) ==>
                !fetched && e == old(entries)[user].data && entries == old(entries)
      ensures fetched <==> !old(Fresh(user, now))
      ensures fetched && (data.None? || ValidRows(data.value) == []) ==>
                e == NoEmbeddings && entries == old(entries)
      ensures fetched && data.Some? && ValidRows(data.value) != [] ==>
                e == Columns(ValidRows(data.value)) && entries == old(entries)[user := Entry(e, now)]
    {
      if user in entries && now - entries[user].timestamp < CacheTtl {
        return entries[user].data, false;
      }
      fetched := true;
      if data.None? || data.value == [] {
        return NoEmbeddings, true;
      }
      e := CollectValid(data.value);
      if e.ids == [] {
        e := NoEmbeddings;
        return;
      }
      entries := entries[user := Entry(e, now)];
    }
  }

  /** A second read within the hour is served from the cache and returns what
      the first read stored. */
  method ReadTwice(c: EmbeddingCache, user: string, now: real, later: real, data: seq<Row>, other: Option<seq<Row>>)
    returns (first: Embeddings, second: Embeddings, fetchedAgain: bool)
    requires c.Valid() && ValidRows(data) != [] && !c.Fresh(user, now)
    requires now <= later < now + CacheTtl
    modifies c
    ensures second == first && !fetchedAgain
  {
    var f;
    first, f := c.GetAll(user, now, Some(data));
    second, fetchedAgain := c.GetAll(user, later, other);
  }

  // ---------------------------------------------------------------------------
  // Scoring and grouping
  // ---------------------------------------------------------------------------

  datatype Scored = Scored(id: int, sim: int, category: string)

  /** `ids.index(selected_item_id)`. */
  function IndexOfId(ids: seq<int>, id: int): (r: Option<nat>)
    ensures r.None? <==> id !in ids
    ensures r.Some? ==> r.value < |ids| && ids[r.value] == id && id !in ids[..r.value]
  {
    if |ids| == 0 then None
    else if ids[0] == id then Some(0)
    else match IndexOfId(ids[1..], id)
      case None => None
      case Some(i) => assert ids[1..][..i] == ids[1..i + 1]; Some(i + 1)
  }

  /** The `scored` comprehension over the first `n` positions: every item but
      the selected one, with its score against the selected vector. */
  function ScoredUpTo(e: Embeddings, selectedId: int, selectedVec: seq<real>,
                      score: (seq<real>, seq<real>) -> int, n: nat): (r: seq<Scored>)
    requires Aligned(e) && n <= |e.ids|
    ensures forall x :: x in r ==> x.id != selectedId
    ensures forall x :: x in r ==> exists i :: 0 <= i < n && x.id == e.ids[i] && x.category == e.categories[i]
  {
    if n == 0 then []
    else
      var init := ScoredUpTo(e, selectedId, selectedVec, score, n - 1);
      if e.ids[n - 1] == selectedId then init
      else init + [Scored(e.ids[n - 1], score(e.vectors[n - 1], selectedVec), e.categories[n - 1])]
  }

  /** The items of `xs` in category `cat`, in order. */
  function InCategory(xs: seq<Scored>, cat: string): (r: seq<Scored>)
    ensures forall x :: x in r <==> x in xs && x.category == cat
  {
    if |xs| == 0 then []
    else
      var init := InCategory(xs[..|xs| - 1], cat);
      assert xs == xs[..|xs| - 1] + [xs[|xs| - 1]];
      if xs[|xs| - 1].category == cat then init + [xs[|xs| - 1]] else init
  }

  type Groups = seq<(string, seq<Scored>)>

  /** `grouped.setdefault(cat, []).append(item)`. */
  function AddToGroup(g: Groups, cat: string, x: Scored): Groups {
    var prev := Lookup(g, cat);
    Put(g, cat, (if prev.Some? then prev.value else []) + [x])
  }

  /** The grouping loop, as a function of the scored list. */
  function Grouped(xs: seq<Scored>, selectedCat: string): Groups {
    if |xs| == 0 then []
    else
      var g := Grouped(xs[..|xs| - 1], selectedCat);
      var x := xs[|xs| - 1];
      if x.category == selectedCat then g else AddToGroup(g, x.category, x)
  }

  /** The grouping loop itself. */
  method Group(scored: seq<Scored>, selectedCat: string) returns (g: Groups)
    ensures g == Grouped(scored, selectedCat)
  {
    g := [];
    var i := 0;
    while i < |scored|
      invariant 0 <= i <= |scored|
      invariant g == Grouped(scored[..i], selectedCat)
    {
      var item := scored[i];
      assert scored[..i + 1][..i] == scored[..i];
      if item.category != selectedCat {
        g := AddToGroup(g, item.category, item);
      }
      i := i + 1;
    }
    assert scored[..|scored|] == scored;
  }

  /** The group of a category is the scored items of that category in order;
      the selected category, and a category with no item, have no group. */
  lemma {:induction false} GroupedLookup(xs: seq<Scored>, selectedCat: string, cat: string)
    ensures Lookup(Grouped(xs, selectedCat), cat)
            == if cat == selectedCat || InCategory(xs, cat) == [] then None else Some(InCategory(xs, cat))
  {
    if |xs| > 0 {
      var init := xs[..|xs| - 1];
      var x := xs[|xs| - 1];
      GroupedLookup(init, selectedCat, cat);
      if x.category != selectedCat {
        var g := Grouped(init, selectedCat);
        var prev := Lookup(g, x.category);
        PutLookup(g, x.category, (if prev.Some? then prev.value else []) + [x], cat);
        GroupedLookup(init, selectedCat, x.category);
      }
    }
  }

  lemma {:induction false} GroupedUniqueKeys(xs: seq<Scored>, selectedCat: string)
    ensures UniqueKeys(Grouped(xs, selectedCat))
  {
    if |xs| > 0 {
      var init := xs[..|xs| - 1];
      GroupedUniqueKeys(init, selectedCat);
      var x := xs[|xs| - 1];
      if x.category != selectedCat {
        var g := Grouped(init, selectedCat);
        var prev := Lookup(g, x.category);
        PutKeepsUniqueKeys(g, x.category, (if prev.Some? then prev.value else []) + [x]);
      }
    }
  }

  /** No group is the selected category's, and every group holds exactly the
      scored items of its own category. */
  lemma GroupsAreCategories(xs: seq<Scored>, selectedCat: string, j: nat)
    requires j < |Grouped(xs, selectedCat)|
    ensures Grouped(xs, selectedCat)[j].0 != selectedCat
    ensures Grouped(xs, selectedCat)[j].1 == InCategory(xs, Grouped(xs, selectedCat)[j].0)
    ensures forall x :: x in Grouped(xs, selectedCat)[j].1 ==>
              x in xs && x.category == Grouped(xs, selectedCat)[j].0
  {
    var g := Grouped(xs, selectedCat);
    GroupedUniqueKeys(xs, selectedCat);
    LookupAt(g, j);
    GroupedLookup(xs, selectedCat, g[j].0);
  }

  // ---------------------------------------------------------------------------
  // Best three per category
  // ---------------------------------------------------------------------------

  predicate SortedDesc(s: seq<Scored>) {
    forall i, j :: 0 <= i < j < |s| ==> s[i].sim >= s[j].sim
  }

  /** Insertion after every element scoring at least as much, which keeps
      equal scores in their original order. */
  function InsertDesc(s: seq<Scored>, x: Scored): (r: seq<Scored>)
    ensures multiset(r) == multiset(s) + multiset{x}
    ensures forall y :: y in r ==> y in s || y == x
  {
    if |s| == 0 then [x]
    else if s[0].sim >= x.sim then
      assert s == [s[0]] + s[1..];
      [s[0]] + InsertDesc(s[1..], x)
    else [x] + s
  }

  lemma {:induction false} InsertDescSorted(s: seq<Scored>, x: Scored)
    requires SortedDesc(s)
    ensures SortedDesc(InsertDesc(s, x))
  {
    if |s| > 0 && s[0].sim >= x.sim {
      InsertDescSorted(s[1..], x);
      var t := InsertDesc(s[1..], x);
      assert forall y :: y in t ==> y.sim <= s[0].sim;
    }
  }

  /** `sorted(items, key=sim, reverse=True)`, which is stable. */
  function SortDesc(xs: seq<Scored>): (r: seq<Scored>)
    ensures SortedDesc(r) && multiset(r) == multiset(xs)
  {
    if |xs| == 0 then []
    else
      assert xs == xs[..|xs| - 1] + [xs[|xs| - 1]];
      InsertDescSorted(SortDesc(xs[..|xs| - 1]), xs[|xs| - 1]);
      InsertDesc(SortDesc(xs[..|xs| - 1]), xs[|xs| - 1])
  }

  function Min(a: nat, b: nat): nat {
    if a < b then a else b
  }

  /** `sorted(...)[:TOP_N_PER_CATEGORY]`: at most three items of the group. */
  function Top(xs: seq<Scored>): (r: seq<Scored>)
    ensures |r| == Min(|xs|, TopPerCategory)
    ensures forall x :: x in r ==> x in xs
  {
    var s := SortDesc(xs);
    var m := Min(|s|, TopPerCategory);
    assert forall x :: x in s[..m] ==> x in multiset(s);
    s[..m]
  }

  /** The chosen items come best first, and no item left out of the group's
      sorted order scores above a chosen one. */
  lemma TopIsBest(xs: seq<Scored>)
    ensures SortedDesc(Top(xs))
    ensures forall i, j :: 0 <= i < |Top(xs)| <= j < |SortDesc(xs)| ==> SortDesc(xs)[j].sim <= Top(xs)[i].sim
    ensures multiset(Top(xs)) <= multiset(xs)
  {
    var s := SortDesc(xs);
    var m := Min(|s|, TopPerCategory);
    SortedPrefix(s, m);
    assert Top(xs) == s[..m];
  }

  /** A prefix of a best-first list is best first, scores at least as much as
      everything after it, and takes nothing the list does not have. */
  lemma SortedPrefix(s: seq<Scored>, m: nat)
    requires SortedDesc(s) && m <= |s|
    ensures SortedDesc(s[..m])
    ensures forall i, j :: 0 <= i < m <= j < |s| ==> s[j].sim <= s[i].sim
    ensures multiset(s[..m]) <= multiset(s)
  {
    assert s == s[..m] + s[m..];
    assert multiset(s) == multiset(s[..m]) + multiset(s[m..]);
  }

  function ScoredIds(xs: seq<Scored>): (ids: seq<int>)
    ensures |ids| == |xs| && forall i :: 0 <= i < |xs| ==> ids[i] == xs[i].id
  {
    seq(|xs|, i requires 0 <= i < |xs| => xs[i].id)
  }

  /** `top_ids` after the loop over the groups, in group order. */
  function TopIdsOf(g: Groups): seq<int> {
    if |g| == 0 then [] else TopIdsOf(g[..|g| - 1]) + ScoredIds(Top(g[|g| - 1].1))
  }

  method TopIds(g: Groups) returns (ids: seq<int>)
    ensures ids == TopIdsOf(g)
  {
    ids := [];
    var i := 0;
    while i < |g|
      invariant 0 <= i <= |g|
      invariant ids == TopIdsOf(g[..i])
    {
      assert g[..i + 1][..i] == g[..i];
      ids := ids + ScoredIds(Top(g[i].1));
      i := i + 1;
    }
    assert g[..|g|] == g;
  }

  /** Every chosen id belongs to some group, and no group contributes more
      than three. */
  lemma {:induction false} TopIdsBounded(g: Groups)
    ensures |TopIdsOf(g)| <= TopPerCategory * |g|
    ensures forall id :: id in TopIdsOf(g) ==> exists j, x :: 0 <= j < |g| && x in g[j].1 && x.id == id
  {
    if |g| > 0 {
      var init := g[..|g| - 1];
      TopIdsBounded(init);
      var last := ScoredIds(Top(g[|g| - 1].1));
      forall id | id in TopIdsOf(g)
        ensures exists j, x :: 0 <= j < |g| && x in g[j].1 && x.id == id
      {
        if id in TopIdsOf(init) {
          var j, x :| 0 <= j < |init| && x in init[j].1 && x.id == id;
          assert g[j] == init[j];
        } else {
          assert id in last;
          var k :| 0 <= k < |last| && last[k] == id;
          assert Top(g[|g| - 1].1)[k] in g[|g| - 1].1;
        }
      }
    }
  }

  // ---------------------------------------------------------------------------
  // create_candidate_by_category
  // ---------------------------------------------------------------------------

  /** `[i for i in all_details if i["id"] in ids_list]`. */
  function DetailsWithIds(details: seq<DbItem>, ids: seq<int>): (r: seq<DbItem>)
    ensures forall d :: d in r <==> d in details && d.id in ids
  {
    if |details| == 0 then []
    else (if details[0].id in ids then [details[0]] else []) + DetailsWithIds(details[1..], ids)
  }

  /** `candidates_by_category`: one list per group, in group order. */
  function ByCategory(g: Groups, details: seq<DbItem>): (r: seq<(string, seq<DbItem>)>)
    ensures Keys(r) == Keys(g)
    ensures forall j :: 0 <= j < |g| ==> r[j].1 == DetailsWithIds(details, ScoredIds(g[j].1))
  {
    if |g| == 0 then [] else [(g[0].0, DetailsWithIds(details, ScoredIds(g[0].1)))] + ByCategory(g[1..], details)
  }

  /** `next((i for i in all_details if i["id"] == selected_item_id), None)`. */
  function FirstWithId(details: seq<DbItem>, id: int): (r: Option<DbItem>)
    ensures r.Some? ==> exists k :: 0 <= k < |details| && details[k] == r.value && r.value.id == id
                                    && forall j :: 0 <= j < k ==> details[j].id != id
    ensures r.None? ==> forall d :: d in details ==> d.id != id
  {
    if |details| == 0 then None
    else if details[0].id == id then Some(details[0])
    else FirstWithId(details[1..], id)
  }

  datatype Candidates =
    | SelectedNotFound   // `ids.index` raises ValueError
    | Candidates(fetchIds: seq<int>, selected: Option<DbItem>, byCategory: seq<(string, seq<DbItem>)>)

  /** What the function computes from the embeddings it was given; `detailsFor`
      is the details query for a list of ids. */
  function Prefiltered(e: Embeddings, selectedId: int, score: (seq<real>, seq<real>) -> int,
                       detailsFor: seq<int> -> seq<DbItem>): Candidates
    requires Aligned(e)
  {
    match IndexOfId(e.ids, selectedId)
    case None => SelectedNotFound
    case Some(k) =>
      var scored := ScoredUpTo(e, selectedId, e.vectors[k], score, |e.ids|);
      var g := Grouped(scored, e.categories[k]);
      var fetchIds := [selectedId] + TopIdsOf(g);
      var details := detailsFor(fetchIds);
      Candidates(fetchIds, FirstWithId(details, selectedId), ByCategory(g, details))
  }

  /** The steps after the cache read, with the two loops. */
  method Prefilter(e: Embeddings, selectedId: int, score: (seq<real>, seq<real>) -> int,
                   detailsFor: seq<int> -> seq<DbItem>) returns (r: Candidates)
    requires Aligned(e)
    ensures r == Prefiltered(e, selectedId, score, detailsFor)
  {
    var k := IndexOfId(e.ids, selectedId);
    if k.None? {
      return SelectedNotFound;
    }
    var scored := ScoredUpTo(e, selectedId, e.vectors[k.value], score, |e.ids|);
    var g := Group(scored, e.categories[k.value]);
    var top := TopIds(g);
    var fetchIds := [selectedId] + top;
    var details := detailsFor(fetchIds);
    r := Candidates(fetchIds, FirstWithId(details, selectedId), ByCategory(g, details));
  }

  /** The promises of the prefilter: a ValueError exactly when the selected id
      is not among the embeddings; otherwise the fetch list starts with the
      selected id, and every candidate list belongs to a category other than
      the selected item's and holds only details of items grouped under it,
      none of them the selected item. */
  lemma PrefilterPromises(e: Embeddings, selectedId: int, score: (seq<real>, seq<real>) -> int,
                          detailsFor: seq<int> -> seq<DbItem>, j: nat)
    requires Aligned(e)
    ensures Prefiltered(e, selectedId, score, detailsFor).SelectedNotFound? <==> selectedId !in e.ids
    ensures var r := Prefiltered(e, selectedId, score, detailsFor);
      r.Candidates? ==> && |r.fetchIds| > 0 && r.fetchIds[0] == selectedId
                        && (r.selected.Some? ==> r.selected.value.id == selectedId)
    ensures var r := Prefiltered(e, selectedId, score, detailsFor);
      r.Candidates? && j < |r.byCategory| ==>
        var k := IndexOfId(e.ids, selectedId).value;
        && r.byCategory[j].0 != e.categories[k]
        && (forall d :: d in r.byCategory[j].1 ==>
              (&& d.id != selectedId && d in detailsFor(r.fetchIds)
               && exists i :: 0 <= i < |e.ids| && e.ids[i] == d.id && e.categories[i] == r.byCategory[j].0))
  {
    var r := Prefiltered(e, selectedId, score, detailsFor);
    if r.Candidates? && j < |r.byCategory| {
      var k := IndexOfId(e.ids, selectedId).value;
      var scored := ScoredUpTo(e, selectedId, e.vectors[k], score, |e.ids|);
      var g := Grouped(scored, e.categories[k]);
      assert |r.byCategory| == |Keys(g)| == |g|;
      GroupsAreCategories(scored, e.categories[k], j);
      assert r.byCategory[j].0 == Keys(r.byCategory)[j] == Keys(g)[j] == g[j].0;
      forall d | d in r.byCategory[j].1
        ensures d.id != selectedId && d in detailsFor(r.fetchIds)
        ensures exists i :: 0 <= i < |e.ids| && e.ids[i] == d.id && e.categories[i] == r.byCategory[j].0
      {
        var ids := ScoredIds(g[j].1);
        assert d.id in ids;
        var m :| 0 <= m < |ids| && ids[m] == d.id;
        var x := g[j].1[m];
        assert x in scored && x.category == g[j].0;
      }
    }
  }

  /** At most three candidates per category reach the fetch list, each the id
      of a grouped item. */
  lemma FetchListBounded(e: Embeddings, selectedId: int, score: (seq<real>, seq<real>) -> int,
                         detailsFor: seq<int> -> seq<DbItem>)
    requires Aligned(e)
    ensures var r := Prefiltered(e, selectedId, score, detailsFor);
      r.Candidates? ==> |r.fetchIds| <= 1 + TopPerCategory * |r.byCategory|
  {
    var r := Prefiltered(e, selectedId, score, detailsFor);
    if r.Candidates? {
      var k := IndexOfId(e.ids, selectedId).value;
      var g := Grouped(ScoredUpTo(e, selectedId, e.vectors[k], score, |e.ids|), e.categories[k]);
      TopIdsBounded(g);
      assert |Keys(r.byCategory)| == |Keys(g)|;
    }
  }

  /** `create_candidate_by_category` for the current user at time `now`. */
  method CreateCandidateByCategory(cache: EmbeddingCache, user: string, now: real, data: Option<seq<Row>>,
                                   selectedId: int, score: (seq<real>, seq<real>) -> int,
                                   detailsFor: seq<int> -> seq<DbItem>)
    returns (r: Candidates, used: Embeddings)
    requires cache.Valid()
    modifies cache
    ensures cache.Valid()
    ensures Aligned(used) && r == Prefiltered(used, selectedId, score, detailsFor)
    ensures old(cache.Fresh(user, now)) ==> used == old(cache.entries)[user].data
  {
    var fetched;
    used, fetched := cache.GetAll(user, now, data);
    r := Prefilter(used, selectedId, score, detailsFor);
  }
}
