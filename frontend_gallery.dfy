/** The newer closet `Gallery` (frontend/src/app/closet/Gallery.tsx): the paged
    list of clothes for one category and the list updates applied after a
    save, a delete and an add.  The network is abstracted: each request the
    component issues is returned as a value, and each response arrives as a
    separate event.  A category change starts a new generation; an initial
    page that answers an older generation is the response whose effect was
    cancelled. */
module FrontendGallery {
  import opened Common
  import opened ClosetTypes

  const ItemLimit: nat := 3

  /** A call of `getPageClothesByType(category, limit, offset)`. */
  datatype PageRequest = PageRequest(category: string, limit: nat, offset: nat)

  // ---------------------------------------------------------------------------
  // List transforms
  // ---------------------------------------------------------------------------

  /** The merge of a further page: fetched items whose id the list already
      holds are dropped, the rest are appended in fetched order. */
  function MergeDedupe(prev: seq<ClothItem>, data: seq<ClothItem>): (r: seq<ClothItem>)
    ensures |prev| <= |r| <= |prev| + |data|
  {
    prev + WithoutIds(data, IdSet(prev))
  }

  lemma MergeKeepsPrefix(prev: seq<ClothItem>, data: seq<ClothItem>)
    ensures prev <= MergeDedupe(prev, data)
    ensures forall x :: x in MergeDedupe(prev, data)[|prev|..] <==> x in data && x.id !in IdSet(prev)
  {
    assert MergeDedupe(prev, data)[|prev|..] == WithoutIds(data, IdSet(prev));
  }

  /** Merging the same page twice adds nothing the second time. */
  lemma MergeIdempotent(prev: seq<ClothItem>, data: seq<ClothItem>)
    ensures MergeDedupe(MergeDedupe(prev, data), data) == MergeDedupe(prev, data)
  {
    var m := MergeDedupe(prev, data);
    assert forall x :: x in data ==> x.id in IdSet(m) by {
      forall x | x in data ensures x.id in IdSet(m) {
        if x.id !in IdSet(prev) {
          assert x in WithoutIds(data, IdSet(prev));
          assert x in m;
        } else {
          var y :| y in prev && y.id == x.id;
          assert y in m;
        }
      }
    }
    WithoutIdsAll(data, IdSet(m));
  }

  /** A list of distinct ids stays one when the fetched page has distinct ids. */
  lemma MergeKeepsIdsUnique(prev: seq<ClothItem>, data: seq<ClothItem>)
    requires UniqueIds(prev) && UniqueIds(data)
    ensures UniqueIds(MergeDedupe(prev, data))
  {
    var tail := WithoutIds(data, IdSet(prev));
    WithoutIdsUnique(data, IdSet(prev));
    var r := prev + tail;
    forall i, j | 0 <= i < j < |r| ensures r[i].id != r[j].id {
      if j >= |prev| {
        assert r[j] == tail[j - |prev|];
        assert tail[j - |prev|] in tail;
        if i < |prev| {
          assert r[i] in prev;
        } else {
          assert r[i] == tail[i - |prev|];
        }
      }
    }
  }

  /** Remove every item with the given id (the delete filter). */
  function RemoveById(xs: seq<ClothItem>, id: int): (r: seq<ClothItem>)
    ensures forall x :: x in r <==> x in xs && x.id != id
  {
    WithoutIds(xs, {id})
  }

  lemma RemoveByIdIdempotent(xs: seq<ClothItem>, id: int)
    ensures RemoveById(RemoveById(xs, id), id) == RemoveById(xs, id)
  {
    WithoutIdsNoop(RemoveById(xs, id), {id});
  }

  /** Removing an id that no item has leaves the list as it was. */
  lemma RemoveAbsentId(xs: seq<ClothItem>, id: int)
    requires forall x :: x in xs ==> x.id != id
    ensures RemoveById(xs, id) == xs
  {
    WithoutIdsNoop(xs, {id});
  }

  /** The list after a successful save of `saved` while `selectedCategory` is shown. */
  function UpdateOnSave(prev: seq<ClothItem>, saved: ClothItem, selectedCategory: string): (r: seq<ClothItem>)
    ensures FindIndex(prev, saved.id).None? ==> r == prev
    ensures FindIndex(prev, saved.id).Some? ==>
      var i := FindIndex(prev, saved.id).value;
      if prev[i].category != saved.category && selectedCategory != "all" then
        forall x :: x in r <==> x in prev && x.id != saved.id
      else
        |r| == |prev| && r[i] == saved && forall k :: 0 <= k < |prev| && k != i ==> r[k] == prev[k]
  {
    match FindIndex(prev, saved.id)
    case None => prev
    case Some(i) =>
      if prev[i].category != saved.category && selectedCategory != "all" then RemoveById(prev, saved.id)
      else prev[i := saved]
  }

  /** A save never introduces a new id: the ids afterwards are among those before. */
  lemma SaveIntroducesNoId(prev: seq<ClothItem>, saved: ClothItem, selectedCategory: string)
    ensures IdSet(UpdateOnSave(prev, saved, selectedCategory)) <= IdSet(prev)
  {
    var r := UpdateOnSave(prev, saved, selectedCategory);
    forall id | id in IdSet(r) ensures id in IdSet(prev) {
      var x :| x in r && x.id == id;
      match FindIndex(prev, saved.id)
      case None =>
      case Some(i) =>
        if !(prev[i].category != saved.category && selectedCategory != "all") {
          var k :| 0 <= k < |r| && r[k] == x;
          if k == i {
            assert prev[i] in prev;
          } else {
            assert prev[k] in prev;
          }
        }
    }
  }

  /** A list with distinct ids keeps them distinct after a save. */
  lemma SaveKeepsIdsUnique(prev: seq<ClothItem>, saved: ClothItem, selectedCategory: string)
    requires UniqueIds(prev)
    ensures UniqueIds(UpdateOnSave(prev, saved, selectedCategory))
  {
    match FindIndex(prev, saved.id)
    case None =>
    case Some(i) =>
      if prev[i].category != saved.category && selectedCategory != "all" {
        WithoutIdsUnique(prev, {saved.id});
      }
  }

  /** The `newCloth` effect: appended only when it belongs to the shown category. */
  function InsertNew(prev: seq<ClothItem>, c: ClothItem, selectedCategory: string): (r: seq<ClothItem>)
    ensures c.category == selectedCategory ==> r == prev + [c]
    ensures c.category != selectedCategory ==> r == prev
  {
    if c.category == selectedCategory then prev + [c] else prev
  }

  // ---------------------------------------------------------------------------
  // Component state
  // ---------------------------------------------------------------------------

  class Gallery {
    var selectedCategory: string
    var items: seq<ClothItem>
    var page: nat
    var isLoading: bool
    var hasMore: bool
    /** `selectedClothIndex`. */
    var selected: Option<nat>
    /** The generation of the live initial-fetch effect. */
    var generation: nat

    constructor ()
      ensures items == [] && page == 0 && !isLoading && hasMore && selected == None && generation == 0
    {
      selectedCategory := "";
      items, page, isLoading, hasMore, selected, generation := [], 0, false, true, None, 0;
    }

    /** A new `selectedCategory`: the initial-fetch effect resets the view and
        requests the first page, the previous one being cancelled.  The
        more-data effect also depends on the category and runs in the same
        commit, before the resets take effect: with the old page and `hasMore`
        it may send a `stray` request for the new category at the old page's
        offset, whose answer `MoreResponse` merges like any other. */
    method ChangeCategory(c: string) returns (req: PageRequest, gen: nat, stray: Option<PageRequest>)
      modifies this
      ensures selectedCategory == c && items == [] && page == 0 && hasMore && isLoading
      ensures gen == generation == old(generation) + 1
      ensures req == PageRequest(c, ItemLimit, 0)
      ensures stray.Some? <==> old(page) != 0 && old(hasMore)
      ensures stray.Some? ==> stray.value == PageRequest(c, ItemLimit, old(page) * ItemLimit)
      ensures selected == old(selected)
    {
      stray := if page != 0 && hasMore then Some(PageRequest(c, ItemLimit, page * ItemLimit)) else None;
      generation := generation + 1;
      gen := generation;
      selectedCategory := c;
      isLoading := true;
      items := [];
      page := 0;
      hasMore := true;
      req := PageRequest(c, ItemLimit, 0);
    }

    /** The first page arrives for generation `gen`. */
    method InitialResponse(gen: nat, data: seq<ClothItem>)
      modifies this
      ensures gen == old(generation) ==> items == data && hasMore == (|data| > 0) && !isLoading
      ensures gen != old(generation) ==> items == old(items) && hasMore == old(hasMore) && isLoading == old(isLoading)
      ensures page == old(page) && selectedCategory == old(selectedCategory)
      ensures generation == old(generation) && selected == old(selected)
    {
      if gen == generation {
        items := data;
        hasMore := |data| > 0;
        isLoading := false;
      }
    }

    /** The debounced intersection callback: advance the page by one, only when
        no fetch runs and more pages may exist. */
    method Trigger(intersecting: bool)
      modifies this
      ensures page == if intersecting && !old(isLoading) && old(hasMore) then old(page) + 1 else old(page)
      ensures items == old(items) && isLoading == old(isLoading) && hasMore == old(hasMore)
      ensures selectedCategory == old(selectedCategory) && generation == old(generation) && selected == old(selected)
    {
      if intersecting && !isLoading && hasMore {
        page := page + 1;
      }
    }

    /** The more-data effect, run when `page`, the category or `hasMore` change. */
    method MoreFetch() returns (req: Option<PageRequest>)
      modifies this
      ensures req.Some? <==> old(page) != 0 && old(hasMore)
      ensures req.Some? ==> req.value == PageRequest(selectedCategory, ItemLimit, page * ItemLimit) && isLoading
      ensures req.None? ==> isLoading == old(isLoading)
      ensures items == old(items) && page == old(page) && hasMore == old(hasMore)
      ensures selectedCategory == old(selectedCategory) && generation == old(generation) && selected == old(selected)
    {
      if page == 0 || !hasMore {
        return None;
      }
      isLoading := true;
      req := Some(PageRequest(selectedCategory, ItemLimit, page * ItemLimit));
    }

    /** A further page arrives (`None` is a null body).  This effect has no
        cancellation flag, so the response is merged whatever happened since. */
    method MoreResponse(data: Option<seq<ClothItem>>)
      modifies this
      ensures data.None? || data.value == [] ==> items == old(items) && !hasMore
      ensures data.Some? && data.value != [] ==> items == MergeDedupe(old(items), data.value) && hasMore == old(hasMore)
      ensures !isLoading && page == old(page)
      ensures selectedCategory == old(selectedCategory) && generation == old(generation) && selected == old(selected)
    {
      if data.None? || data.value == [] {
        hasMore := false;
      } else {
        items := MergeDedupe(items, data.value);
      }
      isLoading := false;
    }

    /** A page fetch rejected: the client rejects on every non-ok status (a
        401 after its handler has run), and neither fetch effect catches, so
        the rest of the effect, `setIsLoading(false)` included, never runs. */
    method FetchRejected()
      modifies this
      ensures items == old(items) && page == old(page) && isLoading == old(isLoading) && hasMore == old(hasMore)
      ensures selectedCategory == old(selectedCategory) && generation == old(generation) && selected == old(selected)
    {
    }

    method Select(i: Option<nat>)
      modifies this
      ensures selected == i
      ensures items == old(items) && page == old(page) && hasMore == old(hasMore) && isLoading == old(isLoading)
      ensures selectedCategory == old(selectedCategory) && generation == old(generation)
    {
      selected := i;
    }

    /** `handleSaveItemUpdate` once the server has answered: without `success`
        the handler throws before the list is touched. */
    method Save(success: bool, saved: ClothItem)
      modifies this
      ensures success ==> items == UpdateOnSave(old(items), saved, selectedCategory)
      ensures !success ==> items == old(items)
      ensures page == old(page) && hasMore == old(hasMore) && isLoading == old(isLoading)
      ensures selectedCategory == old(selectedCategory) && generation == old(generation) && selected == old(selected)
    {
      if success {
        items := UpdateOnSave(items, saved, selectedCategory);
      }
    }

    /** `handleDeleteItem` with the user's answer to the confirmation and the
        truthiness of the delete call's result (an exception is a falsy one). */
    method Delete(confirmed: bool, deleted: bool) returns (target: Option<int>)
      modifies this
      ensures target.Some? <==> old(selected).Some? && old(selected).value < |old(items)| && confirmed
      ensures target.Some? ==> target.value == old(items)[old(selected).value].id
      ensures target.Some? && deleted ==> items == RemoveById(old(items), target.value) && selected == None
      ensures target.None? || !deleted ==> items == old(items) && selected == old(selected)
      ensures page == old(page) && hasMore == old(hasMore) && isLoading == old(isLoading)
      ensures selectedCategory == old(selectedCategory) && generation == old(generation)
    {
      if selected.None? || selected.value >= |items| {
        return None;
      }
      var item := items[selected.value];
      if !confirmed {
        return None;
      }
      target := Some(item.id);
      if deleted {
        items := RemoveById(items, item.id);
        selected := None;
      }
    }

    /** The `newCloth` effect; the returned flag is the handled-callback call. */
    method NewCloth(c: Option<ClothItem>) returns (handled: bool)
      modifies this
      ensures handled <==> c.Some?
      ensures c.Some? ==> items == InsertNew(old(items), c.value, selectedCategory)
      ensures c.None? ==> items == old(items)
      ensures page == old(page) && hasMore == old(hasMore) && isLoading == old(isLoading)
      ensures selectedCategory == old(selectedCategory) && generation == old(generation) && selected == old(selected)
    {
      handled := false;
      if c.Some? {
        items := InsertNew(items, c.value, selectedCategory);
        handled := true;
      }
    }
  }

  /** A first page that answers a superseded category is ignored: after two
      quick category changes only the second one's page is shown. */
  method StaleInitialIgnored(g: Gallery, a: string, b: string, pageA: seq<ClothItem>, pageB: seq<ClothItem>)
    modifies g
    ensures g.selectedCategory == b && g.items == pageB && g.hasMore == (|pageB| > 0) && !g.isLoading
  {
    var reqA, genA, strayA := g.ChangeCategory(a);
    var reqB, genB, strayB := g.ChangeCategory(b);
    g.InitialResponse(genA, pageA);
    g.InitialResponse(genB, pageB);
  }

  /** Changing the category while a later page is shown also asks for the new
      category at the old page's offset.  Its answer lands after the first page:
      the items it brings are merged in, skipping the pages between, and an
      empty answer ends paging however full the first page was. */
  method StrayPageAfterCategoryChange(g: Gallery, b: string, first: seq<ClothItem>, later: seq<ClothItem>)
    returns (stray: Option<PageRequest>)
    requires g.page == 2 && g.hasMore
    modifies g
    ensures stray == Some(PageRequest(b, ItemLimit, 2 * ItemLimit))
    ensures g.selectedCategory == b && g.page == 0 && !g.isLoading
    ensures later == [] ==> g.items == first && !g.hasMore
    ensures later != [] ==> g.items == MergeDedupe(first, later) && g.hasMore == (|first| > 0)
  {
    var req, gen;
    req, gen, stray := g.ChangeCategory(b);
    g.InitialResponse(gen, first);
    g.MoreResponse(Some(later));
  }

  /** A rejected fetch stalls paging: the loader stays on, so the observer no
      longer advances the page; with the page unchanged the more-data effect
      does not run again either, until the category changes. */
  method RejectionStallsPaging(g: Gallery, intersecting: bool)
    requires g.isLoading
    modifies g
    ensures g.isLoading && g.page == old(g.page) && g.items == old(g.items) && g.hasMore == old(g.hasMore)
  {
    g.FetchRejected();
    g.Trigger(intersecting);
  }

  /** A category change whose first page is rejected leaves the empty list
      with the loader on, and the page at 0 whatever the observer reports. */
  method RejectedFirstPage(g: Gallery, c: string, intersecting: bool)
    modifies g
    ensures g.isLoading && g.page == 0 && g.items == [] && g.selectedCategory == c
  {
    var req, gen, stray := g.ChangeCategory(c);
    g.FetchRejected();
    g.Trigger(intersecting);
  }
}
