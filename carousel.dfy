/** The 3-D carousel index arithmetic shared by both `RandomCloset` components
    (frontend/src/app/closet/RandomCloset.tsx, my-ootd/src/app/closet/RandomCloset.tsx)
    and by the dashboard `Wardrobe`: wrap-around stepping, the circular signed
    distance of a card from the current one, and the transform values derived
    from it.  The `RandomCloset` state itself is the class at the end. */
module Carousel {
  import opened Common
  import opened ClosetTypes

  function Abs(x: int): (r: int)
    ensures r >= 0 && (r == x || r == -x)
  {
    if x < 0 then -x else x
  }

  /** `prev`: index 0 wraps to the last one.  On an empty list this yields -1. */
  function PrevIndex(i: int, n: int): (r: int)
    ensures 1 <= n && 0 <= i < n ==> 0 <= r < n
    ensures (r - (i - 1)) % (if n == 0 then 1 else n) == 0
  {
    if i == 0 then n - 1 else i - 1
  }

  /** `next`: the last index wraps to 0. */
  function NextIndex(i: int, n: int): (r: int)
    ensures 1 <= n && 0 <= i < n ==> 0 <= r < n
    ensures (r - (i + 1)) % (if n == 0 then 1 else n) == 0
  {
    if i == n - 1 then 0 else i + 1
  }

  /** Stepping forward then back, or back then forward, returns to the start. */
  lemma PrevNextInverse(i: int, n: int)
    requires 1 <= n && 0 <= i < n
    ensures PrevIndex(NextIndex(i, n), n) == i && NextIndex(PrevIndex(i, n), n) == i
  {
  }

  /** The signed distance from card `current` to card `i` around a ring of
      `n` cards: the raw difference, moved by one turn when it is beyond half
      the ring in either direction. */
  function Diff(i: int, current: int, n: int): (d: int)
  {
    var d0 := i - current;
    var d1 := if d0 < -(n / 2) then d0 + n else d0;
    if d1 > n / 2 then d1 - n else d1
  }

  /** The distance is congruent to i − current modulo n and at most half the ring. */
  lemma DiffBounds(i: int, current: int, n: int)
    requires 1 <= n && 0 <= i < n && 0 <= current < n
    ensures Abs(Diff(i, current, n)) <= n / 2
    ensures (Diff(i, current, n) - (i - current)) % n == 0
    ensures Diff(i, current, n) == 0 <==> i == current
  {
    var h := n / 2;
    HalfBounds(n);
    var d0 := i - current;
    var d := Diff(i, current, n);
    if d0 < -h {
      assert d == d0 + n;
      TurnMod(n, 1);
    } else if d0 > h {
      assert d == d0 - n;
      TurnMod(n, -1);
    } else {
      assert d == d0;
      TurnMod(n, 0);
    }
  }

  lemma HalfBounds(n: int)
    requires 1 <= n
    ensures 0 <= n / 2 && n - 1 <= 2 * (n / 2) <= n
  {
  }

  lemma TurnMod(n: int, k: int)
    requires 1 <= n && -1 <= k <= 1
    ensures (k * n) % n == 0
  {
    if k == 1 {
      assert k * n == n;
    } else if k == -1 {
      assert k * n == -n;
    } else {
      assert k * n == 0;
    }
  }

  /** The distance is determined by the ring position of `i`: the card
      before `i` is one step closer or wraps to the far side. */
  lemma DiffIsCircular(i: int, current: int, n: int)
    requires 1 <= n && 0 <= i < n && 0 <= current < n
    ensures Diff(current, current, n) == 0
    ensures n >= 3 ==> Diff(NextIndex(current, n), current, n) == 1 && Diff(PrevIndex(current, n), current, n) == -1
  {
  }

  /** The per-component transform constants: degrees per step, depth per
      step, and the scale of every card but the current one. */
  datatype Layout = Layout(anglePerStep: int, depthPerStep: int, sideScale: real)

  const RandomClosetLayout := Layout(25, 130, 0.5)
  const WardrobeLayout := Layout(30, 100, 0.8)

  /** The transform of the card at distance `d` in a ring of `n` cards. */
  datatype Transform = Transform(angle: int, zOffset: int, scale: real, zIndex: int)

  function Place(layout: Layout, d: int, n: int): (t: Transform)
    ensures t.angle == layout.anglePerStep * d
    ensures t.zOffset == -Abs(d) * layout.depthPerStep
    ensures t.scale == if d == 0 then 1.0 else layout.sideScale
    ensures t.zIndex == n - Abs(d)
  {
    Transform(d * layout.anglePerStep, -Abs(d) * layout.depthPerStep, if d == 0 then 1.0 else layout.sideScale, n - Abs(d))
  }

  /** The card at `i`, as the component renders it. */
  function CardAt(layout: Layout, i: int, current: int, n: int): Transform
  {
    Place(layout, Diff(i, current, n), n)
  }

  /** Only the current card is at full scale and on top (z-index n); every
      card has a positive z-index, and cards farther away sit lower. */
  lemma CardOrdering(layout: Layout, i: int, j: int, current: int, n: int)
    requires 1 <= n && 0 <= i < n && 0 <= j < n && 0 <= current < n
    requires layout.sideScale != 1.0
    ensures CardAt(layout, i, current, n).zIndex >= 1
    ensures CardAt(layout, i, current, n).scale == 1.0 <==> i == current
    ensures CardAt(layout, i, current, n).zIndex == n <==> i == current
    ensures Abs(Diff(i, current, n)) < Abs(Diff(j, current, n)) ==>
      CardAt(layout, i, current, n).zIndex > CardAt(layout, j, current, n).zIndex
  {
    DiffBounds(i, current, n);
  }

  /** In both `RandomCloset` components a card's angle is 25 degrees per step,
      its depth 130 per step and its scale 0.5 off centre; in `Wardrobe`
      30 degrees, 100 and 0.8. */
  lemma LayoutConstants(d: int, n: int)
    ensures Place(RandomClosetLayout, d, n) ==
      Transform(25 * d, -Abs(d) * 130, if d == 0 then 1.0 else 0.5, n - Abs(d))
    ensures Place(WardrobeLayout, d, n) ==
      Transform(30 * d, -Abs(d) * 100, if d == 0 then 1.0 else 0.8, n - Abs(d))
  {
  }

  /** What a recommendation fetch resolves to, in the shape `ClothRecommendationSet`. */
  datatype RecommendationSet = RecommendationSet(stylePhrase: Option<string>, items: seq<ClothItem>)

  /** The `RandomCloset` component.  While `recIsLoading` its container is
      `pointer-events-none`, so the browser drops arrow and card clicks during
      a fetch; `Prev`, `Next` and `Select` are the handlers and stand for only
      the clicks that reach them. */
  class RandomCloset {
    const items: seq<ClothItem>
    var currentIndex: int
    var selected: Option<nat>
    var recIsLoading: bool
    var recResponse: Option<RecommendationSet>

    constructor (items: seq<ClothItem>)
      ensures this.items == items && currentIndex == 0 && selected == None
      ensures !recIsLoading && recResponse == None
    {
      this.items := items;
      currentIndex, selected, recIsLoading, recResponse := 0, None, false, None;
    }

    predicate Valid()
      reads this
    {
      0 <= currentIndex < |items|
    }

    method Prev()
      modifies this
      ensures currentIndex == PrevIndex(old(currentIndex), |items|) && selected == None
      ensures recIsLoading == old(recIsLoading) && recResponse == old(recResponse)
      ensures old(Valid()) ==> Valid()
    {
      currentIndex := PrevIndex(currentIndex, |items|);
      selected := None;
    }

    method Next()
      modifies this
      ensures currentIndex == NextIndex(old(currentIndex), |items|) && selected == None
      ensures recIsLoading == old(recIsLoading) && recResponse == old(recResponse)
      ensures old(Valid()) ==> Valid()
    {
      currentIndex := NextIndex(currentIndex, |items|);
      selected := None;
    }

    /** A card was clicked.  The selection effect runs only when the selection
        changes, and starts a fetch for the clicked item when there is one. */
    method Select(i: nat) returns (fetchFor: Option<int>)
      modifies this
      ensures selected == Some(i) && currentIndex == old(currentIndex)
      ensures fetchFor.Some? <==> old(selected) != Some(i) && i < |items|
      ensures fetchFor.Some? ==> fetchFor.value == items[i].id && recIsLoading
      ensures fetchFor.None? ==> recIsLoading == old(recIsLoading)
      ensures recResponse == old(recResponse)
    {
      var changed := selected != Some(i);
      selected := Some(i);
      fetchFor := None;
      if changed && i < |items| {
        recIsLoading := true;
        fetchFor := Some(items[i].id);
      }
    }

    /** The fetch settled: its value on success, null on failure; loading ends. */
    method FetchSettled(ok: bool, value: Option<RecommendationSet>)
      modifies this
      ensures recResponse == if ok then value else None
      ensures !recIsLoading
      ensures currentIndex == old(currentIndex) && selected == old(selected)
    {
      recResponse := if ok then value else None;
      recIsLoading := false;
    }
  }
}
