/** The dashboard `Wardrobe` (my-ootd/src/app/dashboard/Wardrobe.tsx): the same
    carousel as `RandomCloset` and a local recommender.  The recommender
    filters out the selected item and everything of its type, sorts the copy
    with a comparator that returns -1 when its first argument has the selected
    colour and 0 otherwise, and keeps the first three.  That comparator is not
    consistent, so the engine's order is not fixed by the language; the model
    orders colour matches first and keeps the original order inside both
    groups, and the lemmas show the bounds hold for any reordering. */
module Wardrobe {
  import opened Common
  import opened ClosetTypes
  import opened Carousel

  const MaxRecommendations: nat := 3

  /** `fetchItems.filter(item => item.id !== sel.id && item.type !== sel.type)`. */
  function Candidates(items: seq<ClothItem>, sel: ClothItem): (r: seq<ClothItem>)
    ensures |r| <= |items|
    ensures forall x :: x in r <==> x in items && x.id != sel.id && x.kind != sel.kind
  {
    if |items| == 0 then []
    else if items[0].id != sel.id && items[0].kind != sel.kind then [items[0]] + Candidates(items[1..], sel)
    else Candidates(items[1..], sel)
  }

  function MatchingColour(xs: seq<ClothItem>, colour: string): (r: seq<ClothItem>)
    ensures forall x :: x in r <==> x in xs && x.colour == colour
  {
    if |xs| == 0 then []
    else if xs[0].colour == colour then [xs[0]] + MatchingColour(xs[1..], colour)
    else MatchingColour(xs[1..], colour)
  }

  function OtherColour(xs: seq<ClothItem>, colour: string): (r: seq<ClothItem>)
    ensures forall x :: x in r <==> x in xs && x.colour != colour
  {
    if |xs| == 0 then []
    else if xs[0].colour != colour then [xs[0]] + OtherColour(xs[1..], colour)
    else OtherColour(xs[1..], colour)
  }

  /** The sort step: items with the selected colour first. */
  function ColourFirst(xs: seq<ClothItem>, colour: string): (r: seq<ClothItem>)
    ensures forall x :: x in r <==> x in xs
  {
    MatchingColour(xs, colour) + OtherColour(xs, colour)
  }

  /** The colour-first order is a reordering of its input. */
  lemma {:induction false} ColourFirstPermutes(xs: seq<ClothItem>, colour: string)
    ensures multiset(ColourFirst(xs, colour)) == multiset(xs)
  {
    if |xs| > 0 {
      var x, rest := xs[0], xs[1..];
      ColourFirstPermutes(rest, colour);
      var m, o := MatchingColour(rest, colour), OtherColour(rest, colour);
      assert multiset(ColourFirst(xs, colour)) == multiset(MatchingColour(xs, colour)) + multiset(OtherColour(xs, colour));
      if x.colour == colour {
        assert MatchingColour(xs, colour) == [x] + m && OtherColour(xs, colour) == o;
      } else {
        assert MatchingColour(xs, colour) == m && OtherColour(xs, colour) == [x] + o;
      }
      assert xs == [x] + rest;
    }
  }

  /** No item of another colour comes before one of the selected colour. */
  lemma ColourFirstGroups(xs: seq<ClothItem>, colour: string)
    ensures var r := ColourFirst(xs, colour);
      forall a, b :: 0 <= a < b < |r| && r[a].colour != colour ==> r[b].colour != colour
  {
    var m := MatchingColour(xs, colour);
    var r := ColourFirst(xs, colour);
    assert forall k :: 0 <= k < |m| ==> r[k] in m;
    forall a, b | 0 <= a < b < |r| && r[a].colour != colour ensures r[b].colour != colour {
      assert r[b] == OtherColour(xs, colour)[b - |m|];
      assert r[b] in OtherColour(xs, colour);
    }
  }

  /** `recommendClothes(sel)`. */
  function Recommend(items: seq<ClothItem>, sel: ClothItem): (r: seq<ClothItem>)
    ensures |r| <= MaxRecommendations
  {
    var sorted := ColourFirst(Candidates(items, sel), sel.colour);
    if |sorted| <= MaxRecommendations then sorted else sorted[..MaxRecommendations]
  }

  /** The first three of any reordering of the candidates are items of the
      wardrobe that share neither the selected item's id nor its type. */
  lemma AnyOrderTakeSafe(items: seq<ClothItem>, sel: ClothItem, sorted: seq<ClothItem>)
    requires multiset(sorted) == multiset(Candidates(items, sel))
    ensures var r := if |sorted| <= MaxRecommendations then sorted else sorted[..MaxRecommendations];
      |r| <= MaxRecommendations && forall x :: x in r ==> x in items && x.id != sel.id && x.kind != sel.kind
  {
    var r := if |sorted| <= MaxRecommendations then sorted else sorted[..MaxRecommendations];
    forall x | x in r ensures x in items && x.id != sel.id && x.kind != sel.kind {
      assert x in sorted;
      assert x in multiset(sorted);
      assert x in Candidates(items, sel);
    }
  }

  /** The model's recommendations satisfy the same, and take colour matches first. */
  lemma RecommendSafe(items: seq<ClothItem>, sel: ClothItem)
    ensures forall x :: x in Recommend(items, sel) ==> x in items && x.id != sel.id && x.kind != sel.kind
    ensures |Recommend(items, sel)| == if |Candidates(items, sel)| < 3 then |Candidates(items, sel)| else 3
  {
    var c := Candidates(items, sel);
    ColourFirstPermutes(c, sel.colour);
    AnyOrderTakeSafe(items, sel, ColourFirst(c, sel.colour));
    assert |ColourFirst(c, sel.colour)| == |c| by {
      assert |multiset(ColourFirst(c, sel.colour))| == |multiset(c)|;
    }
  }

  /** The selected item is never among its own recommendations. */
  lemma SelectedNotRecommended(items: seq<ClothItem>, sel: ClothItem)
    ensures sel !in Recommend(items, sel)
  {
    RecommendSafe(items, sel);
  }

  /** `recommendations`: none while nothing (or an index past the end) is selected. */
  function Recommendations(items: seq<ClothItem>, selected: Option<nat>): (r: seq<ClothItem>)
    ensures selected.None? ==> r == []
    ensures selected.Some? && selected.value < |items| ==> r == Recommend(items, items[selected.value])
  {
    if selected.Some? && selected.value < |items| then Recommend(items, items[selected.value]) else []
  }

  class Wardrobe {
    var items: seq<ClothItem>
    var currentIndex: int
    var selected: Option<nat>

    constructor ()
      ensures items == [] && currentIndex == 0 && selected == None
    {
      items, currentIndex, selected := [], 0, None;
    }

    /** The mount effect stores what `/api/wardrobe?type=all` returned. */
    method Loaded(data: seq<ClothItem>)
      modifies this
      ensures items == data && currentIndex == old(currentIndex) && selected == old(selected)
    {
      items := data;
    }

    method Prev()
      modifies this
      ensures currentIndex == PrevIndex(old(currentIndex), |items|) && selected == None && items == old(items)
    {
      currentIndex := PrevIndex(currentIndex, |items|);
      selected := None;
    }

    method Next()
      modifies this
      ensures currentIndex == NextIndex(old(currentIndex), |items|) && selected == None && items == old(items)
    {
      currentIndex := NextIndex(currentIndex, |items|);
      selected := None;
    }

    method Select(i: nat)
      modifies this
      ensures selected == Some(i) && currentIndex == old(currentIndex) && items == old(items)
    {
      selected := Some(i);
    }

    /** Computing the recommendations leaves the wardrobe's own list in its order. */
    method CurrentRecommendations() returns (r: seq<ClothItem>)
      ensures r == Recommendations(items, selected)
      ensures |r| <= MaxRecommendations
      ensures forall x :: x in r ==> x in items
    {
      r := Recommendations(items, selected);
      if selected.Some? && selected.value < |items| {
        RecommendSafe(items, items[selected.value]);
      }
    }
  }
}
