/** The older closet `Gallery` (my-ootd/src/app/closet/Gallery.tsx).  It pages
    like the newer one but appends further pages as they come, with no
    de-duplication, and has no save, delete or add handling.  Its further pages
    come from `fetchMoreData(category, page)`, whose definition is not part of
    this model, so a further request is recorded by category and page. */
module OotdGallery {
  import opened Common
  import opened ClosetTypes
  import FrontendGallery

  datatype Request =
    | FirstPage(category: string, limit: nat, offset: nat)
    | MorePage(category: string, page: nat)

  /** `[...prev, ...data]`. */
  function Append(prev: seq<ClothItem>, data: seq<ClothItem>): (r: seq<ClothItem>)
    ensures |r| == |prev| + |data| && prev <= r && r[|prev|..] == data
  {
    prev + data
  }

  /** The plain append keeps what the de-duplicating merge keeps and more: the
      two agree exactly when no fetched id is already listed. */
  lemma AppendVersusMerge(prev: seq<ClothItem>, data: seq<ClothItem>)
    ensures (forall x :: x in data ==> x.id !in IdSet(prev)) ==> Append(prev, data) == FrontendGallery.MergeDedupe(prev, data)
    ensures (exists x :: x in data && x.id in IdSet(prev)) ==> Append(prev, data) != FrontendGallery.MergeDedupe(prev, data)
  {
    if forall x :: x in data ==> x.id !in IdSet(prev) {
      WithoutIdsNoop(data, IdSet(prev));
    } else {
      assert |FrontendGallery.MergeDedupe(prev, data)| < |Append(prev, data)| by {
        var x :| x in data && x.id in IdSet(prev);
        assert x !in WithoutIds(data, IdSet(prev));
        if |WithoutIds(data, IdSet(prev))| == |data| {
          WithoutIdsSameLength(data, IdSet(prev));
        }
      }
    }
  }

  /** A filter that keeps as many items as it was given kept all of them. */
  lemma {:induction false} WithoutIdsSameLength(xs: seq<ClothItem>, ids: set<int>)
    requires |WithoutIds(xs, ids)| == |xs|
    ensures WithoutIds(xs, ids) == xs
  {
    if |xs| > 0 {
      if xs[0].id !in ids {
        WithoutIdsSameLength(xs[1..], ids);
      }
    }
  }

  class Gallery {
    var selectedCategory: string
    var items: seq<ClothItem>
    var page: nat
    var isLoading: bool
    var hasMore: bool
    var generation: nat

    constructor ()
      ensures items == [] && page == 0 && !isLoading && hasMore && generation == 0
    {
      selectedCategory := "";
      items, page, isLoading, hasMore, generation := [], 0, false, true, 0;
    }

    /** A new category: the initial-fetch effect resets and asks for 3 items at
        offset 0.  The more-data effect runs in the same commit with the old
        page and `hasMore`, so it may send a `stray` request for the new
        category and the old page, answered through `MoreResponse`. */
    method ChangeCategory(c: string) returns (req: Request, gen: nat, stray: Option<Request>)
      modifies this
      ensures selectedCategory == c && items == [] && page == 0 && hasMore && isLoading
      ensures gen == generation == old(generation) + 1
      ensures req == FirstPage(c, 3, 0)
      ensures stray.Some? <==> old(page) != 0 && old(hasMore)
      ensures stray.Some? ==> stray.value == MorePage(c, old(page))
    {
      stray := if page != 0 && hasMore then Some(MorePage(c, page)) else None;
      generation := generation + 1;
      gen := generation;
      selectedCategory := c;
      isLoading := true;
      items := [];
      page := 0;
      hasMore := true;
      req := FirstPage(c, 3, 0);
    }

    /** The first page arrives; a cancelled effect (an older generation) changes nothing. */
    method InitialResponse(gen: nat, data: seq<ClothItem>)
      modifies this
      ensures gen == old(generation) ==> items == data && hasMore == (|data| > 0) && !isLoading
      ensures gen != old(generation) ==> items == old(items) && hasMore == old(hasMore) && isLoading == old(isLoading)
      ensures page == old(page) && selectedCategory == old(selectedCategory) && generation == old(generation)
    {
      if gen == generation {
        items := data;
        hasMore := |data| > 0;
        isLoading := false;
      }
    }

    method Trigger(intersecting: bool)
      modifies this
      ensures page == if intersecting && !old(isLoading) && old(hasMore) then old(page) + 1 else old(page)
      ensures items == old(items) && isLoading == old(isLoading) && hasMore == old(hasMore)
      ensures selectedCategory == old(selectedCategory) && generation == old(generation)
    {
      if intersecting && !isLoading && hasMore {
        page := page + 1;
      }
    }

    /** The more-data effect: nothing happens on page 0 or once the end is reached. */
    method MoreFetch() returns (req: Option<Request>)
      modifies this
      ensures req.Some? <==> old(page) != 0 && old(hasMore)
      ensures req.Some? ==> req.value == MorePage(selectedCategory, page) && isLoading
      ensures req.None? ==> isLoading == old(isLoading)
      ensures items == old(items) && page == old(page) && hasMore == old(hasMore)
      ensures selectedCategory == old(selectedCategory) && generation == old(generation)
    {
      if page == 0 || !hasMore {
        return None;
      }
      isLoading := true;
      req := Some(MorePage(selectedCategory, page));
    }

    method MoreResponse(data: Option<seq<ClothItem>>)
      modifies this
      ensures data.None? || data.value == [] ==> items == old(items) && !hasMore
      ensures data.Some? && data.value != [] ==> items == Append(old(items), data.value) && hasMore == old(hasMore)
      ensures !isLoading && page == old(page)
      ensures selectedCategory == old(selectedCategory) && generation == old(generation)
    {
      if data.None? || data.value == [] {
        hasMore := false;
      } else {
        items := Append(items, data.value);
      }
      isLoading := false;
    }
  }

  /** Once the end of the data is reached no trigger advances the page and no
      further request is made. */
  method EndIsFinal(g: Gallery, intersecting: bool) returns (req: Option<Request>)
    requires !g.hasMore
    modifies g
    ensures req.None? && g.page == old(g.page) && g.items == old(g.items) && !g.hasMore
  {
    g.Trigger(intersecting);
    req := g.MoreFetch();
  }

  /** The stray request of a category change made on a later page: its items
      are appended after the first page, duplicates included, and an empty
      answer ends paging. */
  method StrayPageAfterCategoryChange(g: Gallery, b: string, first: seq<ClothItem>, later: seq<ClothItem>)
    returns (stray: Option<Request>)
    requires g.page == 2 && g.hasMore
    modifies g
    ensures stray == Some(MorePage(b, 2))
    ensures g.selectedCategory == b && g.page == 0 && !g.isLoading
    ensures later == [] ==> g.items == first && !g.hasMore
    ensures later != [] ==> g.items == first + later && g.hasMore == (|first| > 0)
  {
    var req, gen;
    req, gen, stray := g.ChangeCategory(b);
    g.InitialResponse(gen, first);
    g.MoreResponse(Some(later));
  }
}
