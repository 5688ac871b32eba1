/**
 * `find_nearest`: the element of a sorted array closest to a value, found from the
 * left insertion point that `np.searchsorted` returns.
 */
module NearestLookup {
  import opened Wrappers

  function Abs(x: real): (r: real)
    ensures r >= 0.0
  {
    if x < 0.0 then -x else x
  }

  /** Ascending order, duplicates allowed (what `np.searchsorted` asks of its array). */
  ghost predicate Sorted(a: seq<real>)
  {
    forall i, j :: 0 <= i <= j < |a| ==> a[i] <= a[j]
  }

  /**
   * The left insertion point of `v`: the length of the longest prefix of elements below `v`.
   * On a sorted array everything from there on is at least `v`.
   */
  function InsertionPoint(a: seq<real>, v: real): (idx: nat)
    ensures idx <= |a|
  {
    if a == [] || v <= a[0] then 0 else 1 + InsertionPoint(a[1..], v)
  }

  /** Everything before the insertion point is below `v`; on a sorted array nothing from it on is. */
  lemma {:induction false} InsertionPointSplits(a: seq<real>, v: real)
    ensures forall k :: 0 <= k < InsertionPoint(a, v) ==> a[k] < v
    ensures InsertionPoint(a, v) < |a| ==> v <= a[InsertionPoint(a, v)]
    ensures Sorted(a) ==> forall k :: InsertionPoint(a, v) <= k < |a| ==> v <= a[k]
  {
    if a != [] && a[0] < v {
      InsertionPointSplits(a[1..], v);
    }
  }

  /** Any index with only smaller elements before it and a non-smaller one at it is the insertion point. */
  lemma {:induction false} InsertionPointUnique(a: seq<real>, v: real, k: nat)
    requires k <= |a|
    requires forall j :: 0 <= j < k ==> a[j] < v
    requires k < |a| ==> v <= a[k]
    ensures k == InsertionPoint(a, v)
  {
    if k > 0 {
      assert a[0] < v;
      InsertionPointUnique(a[1..], v, k - 1);
    }
  }

  /** `np.searchsorted(a, v)` (side 'left') as a binary search. */
  method SearchSorted(a: seq<real>, v: real) returns (idx: nat)
    requires Sorted(a)
    ensures idx == InsertionPoint(a, v)
  {
    var lo, hi := 0, |a|;
    while lo < hi
      invariant 0 <= lo <= hi <= |a|
      invariant forall k :: 0 <= k < lo ==> a[k] < v
      invariant forall k :: hi <= k < |a| ==> v <= a[k]
    {
      var mid := (lo + hi) / 2;
      if a[mid] < v {
        lo := mid + 1;
      } else {
        hi := mid;
      }
    }
    idx := lo;
    InsertionPointUnique(a, v, idx);
  }

  /** The body of `find_nearest` on a non-empty array: clamp at both ends, else the closer neighbour, the upper one on a tie. */
  function Nearest(a: seq<real>, v: real): (r: real)
    requires a != []
    ensures r in a
  {
    var idx := InsertionPoint(a, v);
    if idx == 0 then a[0]
    else if idx == |a| then a[|a| - 1]
    else if v - a[idx - 1] < a[idx] - v then a[idx - 1]
    else a[idx]
  }

  /** `find_nearest(array, value)`: indexing an empty array raises `IndexError`. */
  function FindNearest(a: seq<real>, v: real): (r: Result<real>)
    ensures r.Raises? <==> a == []
    ensures r.Raises? ==> r.error == IndexError
    ensures r.Ok? ==> r.value in a
  {
    if a == [] then Raises(IndexError) else Ok(Nearest(a, v))
  }

  /** A value at or below the first element yields the first element. */
  lemma NearestClampsLow(a: seq<real>, v: real)
    requires a != [] && Sorted(a) && v <= a[0]
    ensures Nearest(a, v) == a[0]
  {
    InsertionPointSplits(a, v);
  }

  /** A value at or above the last element yields the last element. */
  lemma NearestClampsHigh(a: seq<real>, v: real)
    requires a != [] && Sorted(a) && a[|a| - 1] <= v
    ensures Nearest(a, v) == a[|a| - 1]
  {
    InsertionPointSplits(a, v);
    var idx := InsertionPoint(a, v);
    if 0 < idx < |a| {
      assert a[idx] == v by {
        assert a[idx] <= a[|a| - 1];
      }
    } else if idx == 0 {
      assert a[0] <= a[|a| - 1];
    }
  }

  /** No element of a sorted array is strictly closer to `v` than the result. */
  lemma NearestIsClosest(a: seq<real>, v: real, k: nat)
    requires a != [] && Sorted(a) && k < |a|
    ensures Abs(Nearest(a, v) - v) <= Abs(a[k] - v)
  {
    InsertionPointSplits(a, v);
    var idx := InsertionPoint(a, v);
    if 0 < idx < |a| {
      if k < idx {
        assert a[k] <= a[idx - 1];
      } else {
        assert a[idx] <= a[k];
      }
    } else if idx == |a| {
      assert a[k] <= a[|a| - 1];
    }
  }

  /** Among equally close elements the result is the largest one. */
  lemma NearestPrefersUpper(a: seq<real>, v: real, k: nat)
    requires a != [] && Sorted(a) && k < |a|
    requires Abs(a[k] - v) == Abs(Nearest(a, v) - v)
    ensures a[k] <= Nearest(a, v)
  {
    InsertionPointSplits(a, v);
    var idx := InsertionPoint(a, v);
    if 0 < idx < |a| {
      if k < idx {
        assert a[k] <= a[idx - 1] <= a[idx];
      } else {
        assert a[idx] <= a[k];
      }
    } else if idx == |a| {
      assert a[k] <= a[|a| - 1];
    } else {
      assert a[0] <= a[k];
    }
  }

  /** When the straddling neighbours are equally far from `v`, the upper one is returned. */
  lemma NearestTieTakesUpper(a: seq<real>, v: real, k: nat)
    requires Sorted(a) && 0 < k < |a|
    requires a[k - 1] < v <= a[k] && v - a[k - 1] == a[k] - v
    ensures Nearest(a, v) == a[k]
  {
    NearestIsClosest(a, v, k);
    NearestIsClosest(a, v, k - 1);
    NearestPrefersUpper(a, v, k);
    var r := Nearest(a, v);
    var j :| 0 <= j < |a| && a[j] == r;
    if j > k {
      assert a[k] <= a[j];
    }
  }

  /**
   * The three properties above determine the result: the element of the array closest to `v`,
   * the largest one if two are equally close.
   */
  lemma NearestIsUpperArgmin(a: seq<real>, v: real, x: real)
    requires a != [] && Sorted(a) && x in a
    requires forall k :: 0 <= k < |a| ==> Abs(x - v) <= Abs(a[k] - v)
    requires forall k :: 0 <= k < |a| && Abs(a[k] - v) == Abs(x - v) ==> a[k] <= x
    ensures Nearest(a, v) == x
  {
    var r := Nearest(a, v);
    var j :| 0 <= j < |a| && a[j] == r;
    var i :| 0 <= i < |a| && a[i] == x;
    NearestIsClosest(a, v, i);
    NearestPrefersUpper(a, v, i);
  }

  /** A value present in the array is its own nearest element. */
  lemma NearestOfMember(a: seq<real>, v: real)
    requires Sorted(a) && v in a
    ensures Nearest(a, v) == v
  {
    var i :| 0 <= i < |a| && a[i] == v;
    NearestIsClosest(a, v, i);
  }
}
