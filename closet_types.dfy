/** The closet's value types (frontend/src/types.ts) and the id-keyed list
    operations that the gallery and the recommenders apply to them. */
module ClosetTypes {
  import opened Common

  /** A style attached to a stored cloth. */
  datatype ClothStyle = ClothStyle(id: int, name: string)

  /** A style tag as the forms hold it: saved tags carry their database id as
      text, tags typed in by the user carry the id "". */
  datatype StyleTag = StyleTag(id: string, name: string)

  datatype ClothItem = ClothItem(
    id: int, name: string, kind: string, colour: string,
    imageUrl: string, category: string, styles: seq<ClothStyle>)

  function Ids(xs: seq<ClothItem>): (ids: seq<int>)
    ensures |ids| == |xs|
    ensures forall i :: 0 <= i < |xs| ==> ids[i] == xs[i].id
  {
    if |xs| == 0 then [] else [xs[0].id] + Ids(xs[1..])
  }

  /** The set of ids built by `new Set(prev.map(item => item.id))`. */
  function IdSet(xs: seq<ClothItem>): (s: set<int>)
    ensures forall x :: x in xs ==> x.id in s
    ensures forall id :: id in s ==> exists x :: x in xs && x.id == id
  {
    set x | x in xs :: x.id
  }

  predicate UniqueIds(xs: seq<ClothItem>) {
    forall i, j :: 0 <= i < j < |xs| ==> xs[i].id != xs[j].id
  }

  /** `xs.filter(item => !ids.has(item.id))`. */
  function WithoutIds(xs: seq<ClothItem>, ids: set<int>): (r: seq<ClothItem>)
    ensures |r| <= |xs|
    ensures forall x :: x in r <==> x in xs && x.id !in ids
  {
    if |xs| == 0 then []
    else if xs[0].id in ids then WithoutIds(xs[1..], ids)
    else [xs[0]] + WithoutIds(xs[1..], ids)
  }

  /** Filtering works element by element, so it keeps the order of what it keeps. */
  lemma {:induction false} WithoutIdsAppend(a: seq<ClothItem>, b: seq<ClothItem>, ids: set<int>)
    ensures WithoutIds(a + b, ids) == WithoutIds(a, ids) + WithoutIds(b, ids)
  {
    if |a| > 0 {
      var ab := a + b;
      assert ab[0] == a[0] && ab[1..] == a[1..] + b;
      WithoutIdsAppend(a[1..], b, ids);
      if a[0].id !in ids {
        assert WithoutIds(ab, ids) == [a[0]] + WithoutIds(a[1..] + b, ids);
        assert [a[0]] + (WithoutIds(a[1..], ids) + WithoutIds(b, ids))
               == ([a[0]] + WithoutIds(a[1..], ids)) + WithoutIds(b, ids);
      } else {
        assert WithoutIds(ab, ids) == WithoutIds(a[1..] + b, ids);
      }
    } else {
      assert a + b == b;
    }
  }

  /** Everything is dropped when every id is excluded. */
  lemma {:induction false} WithoutIdsAll(xs: seq<ClothItem>, ids: set<int>)
    requires forall x :: x in xs ==> x.id in ids
    ensures WithoutIds(xs, ids) == []
  {
    if |xs| > 0 {
      assert xs[0] in xs;
      assert forall x :: x in xs[1..] ==> x in xs;
      WithoutIdsAll(xs[1..], ids);
    }
  }

  /** Nothing is dropped when no excluded id occurs. */
  lemma {:induction false} WithoutIdsNoop(xs: seq<ClothItem>, ids: set<int>)
    requires forall x :: x in xs ==> x.id !in ids
    ensures WithoutIds(xs, ids) == xs
  {
    if |xs| > 0 {
      assert xs[0] in xs && forall x :: x in xs[1..] ==> x in xs;
      WithoutIdsNoop(xs[1..], ids);
      assert WithoutIds(xs, ids) == [xs[0]] + WithoutIds(xs[1..], ids);
    }
  }

  lemma {:induction false} WithoutIdsUnique(xs: seq<ClothItem>, ids: set<int>)
    requires UniqueIds(xs)
    ensures UniqueIds(WithoutIds(xs, ids))
  {
    if |xs| > 0 {
      assert UniqueIds(xs[1..]) by {
        forall i, j | 0 <= i < j < |xs| - 1 ensures xs[1..][i].id != xs[1..][j].id {
          assert xs[1..][i] == xs[i + 1] && xs[1..][j] == xs[j + 1];
        }
      }
      WithoutIdsUnique(xs[1..], ids);
      var rest := WithoutIds(xs[1..], ids);
      if xs[0].id !in ids {
        forall k | 0 <= k < |rest| ensures rest[k].id != xs[0].id {
          assert rest[k] in xs[1..];
          var m :| 0 <= m < |xs[1..]| && xs[1..][m] == rest[k];
          assert xs[m + 1] == rest[k];
        }
      }
    }
  }

  /** `findIndex(item => item.id === id)`, with -1 rendered as None. */
  function FindIndex(xs: seq<ClothItem>, id: int): (r: Option<nat>)
    ensures r.None? <==> forall x :: x in xs ==> x.id != id
    ensures r.Some? ==> r.value < |xs| && xs[r.value].id == id
    ensures r.Some? ==> forall k :: 0 <= k < r.value ==> xs[k].id != id
  {
    if |xs| == 0 then None
    else if xs[0].id == id then Some(0)
    else match FindIndex(xs[1..], id)
      case None => None
      case Some(i) => Some(i + 1)
  }
}
