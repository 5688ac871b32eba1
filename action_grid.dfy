/**
 * `get_actions_importance_sigmoid`: the aggregated action values an importance-weighted
 * environment can reach, one choice per action dimension summed, without duplicates, ascending.
 * Arithmetic is exact, over `real`.
 */
module ActionGrid {
  import opened Wrappers

  /** `b ** i` for a natural exponent. */
  function Pow(b: real, i: nat): real
  {
    if i == 0 then 1.0 else b * Pow(b, i - 1)
  }

  ghost predicate StrictlyIncreasing(s: seq<real>)
  {
    forall i, j :: 0 <= i < j < |s| ==> s[i] < s[j]
  }

  /**
   * The values of action dimension `i` for `n` discrete actions: dimension 0 spreads `n`
   * values evenly over [0, 1]; dimension `i > 0` offers `base^i * (j / (n - 1) - 0.5)`.
   */
  function DimensionGrid(i: nat, base: real, n: int): (g: seq<real>)
    requires n != 1
    ensures |g| == Count(n)
  {
    if i == 0 then seq(Count(n), j => j as real / (n - 1) as real)
    else seq(Count(n), j => Pow(base, i) * (j as real / (n - 1) as real - 0.5))
  }

  /** Dimensions 0 .. max_dim - 1, and always at least dimension 0. */
  function NumDims(maxDim: int): nat
  {
    if maxDim > 1 then maxDim else 1
  }

  /** The per-dimension grids, in dimension order. */
  function Grids(maxDim: int, base: real, n: int): (grids: seq<seq<real>>)
    requires n != 1
    ensures |grids| == NumDims(maxDim)
  {
    seq(NumDims(maxDim), i requires 0 <= i => DimensionGrid(i, base, n))
  }

  /**
   * Builds the per-dimension grids one dimension after another; `n == 1` divides by zero
   * in the very first grid.
   */
  method BuildGrids(maxDim: int, base: real, n: int) returns (r: Result<seq<seq<real>>>)
    ensures n == 1 <==> r.Raises?
    ensures r.Raises? ==> r.error == ZeroDivisionError
    ensures r.Ok? ==> r.value == Grids(maxDim, base, n)
  {
    if n == 1 {
      return Raises(ZeroDivisionError);
    }
    var grids := [DimensionGrid(0, base, n)];
    var i := 1;
    while i < maxDim
      invariant 1 <= i <= NumDims(maxDim)
      invariant |grids| == i
      invariant forall k :: 0 <= k < i ==> grids[k] == DimensionGrid(k, base, n)
    {
      grids := grids + [DimensionGrid(i, base, n)];
      i := i + 1;
    }
    r := Ok(grids);
  }

  /** `x` added to every element of `ys`. */
  function Shift(x: real, ys: seq<real>): (r: seq<real>)
    ensures |r| == |ys|
    ensures forall k :: 0 <= k < |ys| ==> r[k] == x + ys[k]
  {
    seq(|ys|, k requires 0 <= k < |ys| => x + ys[k])
  }

  /** Every element of `g` added to every element of `tails`, the elements of `g` outermost. */
  function Combine(g: seq<real>, tails: seq<real>): seq<real>
  {
    if g == [] then [] else Shift(g[0], tails) + Combine(g[1..], tails)
  }

  /** The number of combinations of one value per grid. */
  function CombinationCount(grids: seq<seq<real>>): nat
  {
    if grids == [] then 1 else |grids[0]| * CombinationCount(grids[1..])
  }

  /**
   * The sums of the Cartesian product of the grids, in the order `itertools.product` lists
   * the combinations (the first dimension varies slowest).
   */
  function ProductSums(grids: seq<seq<real>>): seq<real>
  {
    if grids == [] then [0.0] else Combine(grids[0], ProductSums(grids[1..]))
  }

  /** `c` picks one index of every grid. */
  ghost predicate IsChoice(grids: seq<seq<real>>, c: seq<int>)
  {
    |c| == |grids| && forall i :: 0 <= i < |c| ==> 0 <= c[i] < |grids[i]|
  }

  /** The aggregated action of one choice per dimension. */
  function ChoiceSum(grids: seq<seq<real>>, c: seq<int>): real
    requires IsChoice(grids, c)
    decreases c
  {
    if c == [] then 0.0 else grids[0][c[0]] + ChoiceSum(grids[1..], c[1..])
  }

  /** `x` inserted into a strictly increasing sequence, unless it is already there. */
  function Insert(x: real, s: seq<real>): (r: seq<real>)
    requires StrictlyIncreasing(s)
    ensures StrictlyIncreasing(r)
    ensures forall y :: y in r <==> y == x || y in s
    ensures |r| <= |s| + 1
  {
    if s == [] then [x]
    else if x < s[0] then [x] + s
    else if x == s[0] then s
    else
      var rest := Insert(x, s[1..]);
      assert forall k :: 0 <= k < |rest| ==> s[0] < rest[k] by {
        forall k | 0 <= k < |rest| ensures s[0] < rest[k] {
          assert rest[k] in rest;
        }
      }
      [s[0]] + rest
  }

  /** `np.unique`: the distinct values, ascending (the `np.sort` after it has nothing left to do). */
  function UniqueSorted(xs: seq<real>): (r: seq<real>)
    ensures StrictlyIncreasing(r)
    ensures forall y :: y in r <==> y in xs
    ensures |r| <= |xs|
  {
    if xs == [] then [] else Insert(xs[0], UniqueSorted(xs[1..]))
  }

  /** What `get_actions_importance_sigmoid(max_dim, importance_base, n_acts)` returns or raises. */
  function ImportanceActions(maxDim: int, base: real, n: int): (r: Result<seq<real>>)
    ensures r.Raises? <==> n == 1
    ensures r.Raises? ==> r.error == ZeroDivisionError
  {
    if n == 1 then Raises(ZeroDivisionError)
    else Ok(UniqueSorted(ProductSums(Grids(maxDim, base, n))))
  }

  /** The helper itself: grids built in a loop, then product, sums, deduplication and sorting. */
  method GetActionsImportanceSigmoid(maxDim: int, base: real, n: int) returns (r: Result<seq<real>>)
    ensures r == ImportanceActions(maxDim, base, n)
  {
    var grids := BuildGrids(maxDim, base, n);
    match grids {
      case Raises(e) =>
        r := Raises(e);
      case Ok(g) =>
        r := Ok(UniqueSorted(ProductSums(g)));
    }
  }

  // ----- the product of the grids -----

  /** Every pair of an element of `g` and one of `tails` is summed in `Combine`. */
  lemma {:induction false} CombineHas(g: seq<real>, tails: seq<real>, j: nat, k: nat)
    requires j < |g| && k < |tails|
    ensures g[j] + tails[k] in Combine(g, tails)
  {
    if j == 0 {
      assert Shift(g[0], tails)[k] == g[0] + tails[k];
    } else {
      CombineHas(g[1..], tails, j - 1, k);
    }
  }

  /** Every element of `Combine` is such a sum. */
  lemma {:induction false} CombineSource(g: seq<real>, tails: seq<real>, x: real)
    requires x in Combine(g, tails)
    ensures exists j, k :: 0 <= j < |g| && 0 <= k < |tails| && x == g[j] + tails[k]
  {
    if x in Shift(g[0], tails) {
      var k :| 0 <= k < |tails| && Shift(g[0], tails)[k] == x;
      assert x == g[0] + tails[k];
    } else {
      CombineSource(g[1..], tails, x);
      var j, k :| 0 <= j < |g[1..]| && 0 <= k < |tails| && x == g[1..][j] + tails[k];
      assert x == g[j + 1] + tails[k];
    }
  }

  /** Every combination of one value per dimension has its sum among the product sums. */
  lemma {:induction false} ProductSumsComplete(grids: seq<seq<real>>, c: seq<int>)
    requires IsChoice(grids, c)
    ensures ChoiceSum(grids, c) in ProductSums(grids)
  {
    if grids != [] {
      assert IsChoice(grids[1..], c[1..]);
      ProductSumsComplete(grids[1..], c[1..]);
      var tails := ProductSums(grids[1..]);
      var k :| 0 <= k < |tails| && tails[k] == ChoiceSum(grids[1..], c[1..]);
      CombineHas(grids[0], tails, c[0], k);
    }
  }

  /** Every product sum is the sum of one value per dimension. */
  lemma {:induction false} ProductSumsSound(grids: seq<seq<real>>, x: real)
    requires x in ProductSums(grids)
    ensures exists c :: IsChoice(grids, c) && ChoiceSum(grids, c) == x
  {
    if grids == [] {
      assert IsChoice(grids, []) && ChoiceSum(grids, []) == x;
    } else {
      var tails := ProductSums(grids[1..]);
      CombineSource(grids[0], tails, x);
      var j, k :| 0 <= j < |grids[0]| && 0 <= k < |tails| && x == grids[0][j] + tails[k];
      ProductSumsSound(grids[1..], tails[k]);
      var c' :| IsChoice(grids[1..], c') && ChoiceSum(grids[1..], c') == tails[k];
      var c := [j] + c';
      assert c[1..] == c';
      assert IsChoice(grids, c);
    }
  }

  // ----- properties of the helper's result -----

  /**
   * The helper raises exactly for `n_acts == 1`; otherwise its result is strictly increasing
   * and holds exactly the sums of one choice per dimension.
   */
  lemma ImportanceActionsMeaning(maxDim: int, base: real, n: int, x: real)
    ensures ImportanceActions(maxDim, base, n).Raises? <==> n == 1
    ensures n != 1 ==>
      var r := ImportanceActions(maxDim, base, n).value;
      && StrictlyIncreasing(r)
      && (x in r <==> exists c :: IsChoice(Grids(maxDim, base, n), c) && ChoiceSum(Grids(maxDim, base, n), c) == x)
  {
    if n != 1 {
      var grids := Grids(maxDim, base, n);
      if x in ProductSums(grids) {
        ProductSumsSound(grids, x);
      }
      if exists c :: IsChoice(grids, c) && ChoiceSum(grids, c) == x {
        var c :| IsChoice(grids, c) && ChoiceSum(grids, c) == x;
        ProductSumsComplete(grids, c);
      }
    }
  }

  /** `Combine` lists one sum per pair. */
  lemma {:induction false} CombineLength(g: seq<real>, tails: seq<real>)
    ensures |Combine(g, tails)| == |g| * |tails|
  {
    if g != [] {
      CombineLength(g[1..], tails);
      assert |g| * |tails| == |tails| + (|g| - 1) * |tails|;
    }
  }

  /** The product lists one sum per combination, duplicates included, as `itertools.product` does. */
  lemma {:induction false} ProductSumsCount(grids: seq<seq<real>>)
    ensures |ProductSums(grids)| == CombinationCount(grids)
  {
    if grids != [] {
      ProductSumsCount(grids[1..]);
      CombineLength(grids[0], ProductSums(grids[1..]));
    }
  }

  /** The helper returns at most one action per combination, so with `n_acts` actions at most `n_acts ** max_dim`. */
  lemma ImportanceActionsCount(maxDim: int, base: real, n: int)
    requires n != 1
    ensures |ImportanceActions(maxDim, base, n).value| <= CombinationCount(Grids(maxDim, base, n))
  {
    ProductSumsCount(Grids(maxDim, base, n));
  }

  /** Adding the single value 0 to every element changes nothing. */
  lemma {:induction false} CombineWithZero(g: seq<real>)
    ensures Combine(g, [0.0]) == g
  {
    if g != [] {
      CombineWithZero(g[1..]);
      assert Shift(g[0], [0.0]) == [g[0]];
    }
  }

  /** Deduplicating an already strictly increasing sequence returns it unchanged. */
  lemma {:induction false} UniqueSortedOfIncreasing(xs: seq<real>)
    requires StrictlyIncreasing(xs)
    ensures UniqueSorted(xs) == xs
  {
    if xs != [] {
      UniqueSortedOfIncreasing(xs[1..]);
      assert xs[1..] == [] || xs[0] < xs[1..][0];
      assert [xs[0]] + xs[1..] == xs;
    }
  }

  /** Dimension 0 alone is increasing. */
  lemma EvenGridIncreasing(base: real, n: int)
    requires n != 1
    ensures StrictlyIncreasing(DimensionGrid(0, base, n))
  {
  }

  /** With `max_dim <= 1` the helper returns the evenly spaced grid over [0, 1]. */
  lemma SingleDimensionIsEvenGrid(maxDim: int, base: real, n: int)
    requires maxDim <= 1 && n != 1
    ensures ImportanceActions(maxDim, base, n) == Ok(seq(Count(n), j => j as real / (n - 1) as real))
  {
    var grids := Grids(maxDim, base, n);
    assert grids[1..] == [];
    assert ProductSums(grids[1..]) == [0.0];
    CombineWithZero(grids[0]);
    EvenGridIncreasing(base, n);
    UniqueSortedOfIncreasing(grids[0]);
  }

  /** Two strictly increasing sequences with the same elements are equal. */
  lemma {:induction false} IncreasingDeterminedByElements(a: seq<real>, b: seq<real>)
    requires StrictlyIncreasing(a) && StrictlyIncreasing(b)
    requires forall y :: y in a <==> y in b
    ensures a == b
  {
    if a != [] {
      assert a[0] in a;
    }
    if b != [] {
      assert b[0] in b;
    }
    if a != [] && b != [] {
      // both heads are the least element of the common set
      var i :| 0 <= i < |a| && a[i] == b[0];
      var j :| 0 <= j < |b| && b[j] == a[0];
      assert a[0] <= a[i] && b[0] <= b[j];
      assert a[0] == b[0];
      forall y ensures y in a[1..] <==> y in b[1..] {
        if y in a[1..] {
          var k :| 0 <= k < |a[1..]| && a[1..][k] == y;
          assert a[0] < a[k + 1];
          assert y in b;
        }
        if y in b[1..] {
          var k :| 0 <= k < |b[1..]| && b[1..][k] == y;
          assert b[0] < b[k + 1];
          assert y in a;
        }
      }
      IncreasingDeterminedByElements(a[1..], b[1..]);
      assert a == [a[0]] + a[1..] && b == [b[0]] + b[1..];
    }
  }

  /** Worked example: two dimensions, importance base 0.5, three actions per dimension. */
  lemma TwoDimensionExample()
    ensures Grids(2, 0.5, 3) == [[0.0, 0.5, 1.0], [-0.25, 0.0, 0.25]]
    ensures ImportanceActions(2, 0.5, 3) == Ok([-0.25, 0.0, 0.25, 0.5, 0.75, 1.0, 1.25])
  {
    var grids := Grids(2, 0.5, 3);
    assert grids[0] == [0.0, 0.5, 1.0];
    assert Pow(0.5, 1) == 0.5;
    assert grids[1] == [-0.25, 0.0, 0.25];
    assert grids == [[0.0, 0.5, 1.0], [-0.25, 0.0, 0.25]];
    var tails := [-0.25, 0.0, 0.25];
    assert grids[1..][1..] == [];
    assert ProductSums(grids[1..]) == Combine(tails, [0.0]);
    CombineWithZero(tails);
    var g0 := [0.0, 0.5, 1.0];
    assert Combine(g0[2..][1..], tails) == [];
    assert Combine(g0[2..], tails) == [0.75, 1.0, 1.25];
    assert Combine(g0[1..], tails) == [0.25, 0.5, 0.75] + [0.75, 1.0, 1.25];
    assert Combine(g0, tails) == [-0.25, 0.0, 0.25] + [0.25, 0.5, 0.75] + [0.75, 1.0, 1.25];
    var sums := ProductSums(grids);
    var expected := [-0.25, 0.0, 0.25, 0.5, 0.75, 1.0, 1.25];
    assert forall y :: y in sums <==> y in expected;
    IncreasingDeterminedByElements(UniqueSorted(sums), expected);
  }
}
