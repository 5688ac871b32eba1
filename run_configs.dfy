/**
 * `get_run_configs`: select the experiment runs of one setup from the run-configuration table.
 * The table is a sequence of rows; each filter step keeps the matching rows in table order.
 */
module RunConfigs {
  import opened Strings

  /** The columns of a run-configuration row that the filter reads. */
  datatype ConfigRow = ConfigRow(
    configId: string,
    dim: int,
    benchmark: string,
    reverseAgents: bool,
    nAct: int,
    importanceBase: real,
    rewardShape: string,
    expReward: real)

  /** The selector arguments of the filter; the action count is always given. */
  datatype Selector = Selector(
    dim: int,
    benchmark: string,
    configId: string,
    reverseAgents: bool,
    importanceBase: real,
    rewardShape: string,
    expReward: real,
    nAct: int)

  /** `a` is `b` with some elements left out, the rest in their order. */
  ghost predicate IsSubsequence<T>(a: seq<T>, b: seq<T>)
    decreases |b|
  {
    a == [] || (b != [] && ((a[0] == b[0] && IsSubsequence(a[1..], b[1..])) || IsSubsequence(a, b[1..])))
  }

  /** Boolean-mask indexing of a table: the rows that satisfy `keep`, in table order. */
  function Filter(rows: seq<ConfigRow>, keep: ConfigRow -> bool): (kept: seq<ConfigRow>)
    ensures |kept| <= |rows|
    ensures IsSubsequence(kept, rows)
    ensures forall x :: x in kept <==> x in rows && keep(x)
  {
    if rows == [] then []
    else if keep(rows[0]) then [rows[0]] + Filter(rows[1..], keep)
    else Filter(rows[1..], keep)
  }

  /** A mask keeps every copy of a matching row and no copy of any other row. */
  lemma {:induction false} FilterCounts(rows: seq<ConfigRow>, keep: ConfigRow -> bool, x: ConfigRow)
    ensures multiset(Filter(rows, keep))[x] == if keep(x) then multiset(rows)[x] else 0
  {
    if rows != [] {
      FilterCounts(rows[1..], keep, x);
      assert rows == [rows[0]] + rows[1..];
    }
  }

  /** The importance-weighted benchmarks, the only ones with importance and reward-shape columns that matter. */
  predicate IsImportanceBenchmark(benchmark: string)
  {
    benchmark == "candid_sigmoid" || benchmark == "piecewise_linear"
  }

  /** `best` selects every run whose id mentions it; any other id must match exactly. */
  predicate IdMatches(row: ConfigRow, configId: string)
  {
    if configId == "best" then Contains(row.configId, "best") else row.configId == configId
  }

  predicate SetupMatches(row: ConfigRow, sel: Selector)
  {
    row.dim == sel.dim && row.benchmark == sel.benchmark
    && row.reverseAgents == sel.reverseAgents && row.nAct == sel.nAct
  }

  predicate ShapeMatches(row: ConfigRow, sel: Selector)
  {
    row.importanceBase == sel.importanceBase && row.rewardShape == sel.rewardShape
  }

  predicate ExpRewardMatches(row: ConfigRow, sel: Selector)
  {
    row.expReward == sel.expReward
  }

  /** The helper: the successive filters, each applied to what the previous one kept. */
  function GetRunConfigs(rows: seq<ConfigRow>, sel: Selector): (selected: seq<ConfigRow>)
    ensures |selected| <= |rows|
    ensures forall row :: row in selected ==>
      row in rows && IdMatches(row, sel.configId) && SetupMatches(row, sel)
  {
    var byId := Filter(rows, row => IdMatches(row, sel.configId));
    var bySetup := Filter(byId, row => SetupMatches(row, sel));
    if IsImportanceBenchmark(sel.benchmark) then
      var byShape := Filter(bySetup, row => ShapeMatches(row, sel));
      if sel.rewardShape == "exp" then Filter(byShape, row => ExpRewardMatches(row, sel)) else byShape
    else bySetup
  }

  /**
   * All selectors a kept row must satisfy at once: the importance and reward-shape selectors
   * only on the importance-weighted benchmarks, the exponential constant only for shape `exp`.
   */
  predicate Matches(row: ConfigRow, sel: Selector)
  {
    && IdMatches(row, sel.configId)
    && SetupMatches(row, sel)
    && (IsImportanceBenchmark(sel.benchmark) ==> ShapeMatches(row, sel))
    && (IsImportanceBenchmark(sel.benchmark) && sel.rewardShape == "exp" ==> ExpRewardMatches(row, sel))
  }

  /** Filtering twice is filtering once by both conditions. */
  lemma {:induction false} FilterTwice(rows: seq<ConfigRow>, p: ConfigRow -> bool, q: ConfigRow -> bool, pq: ConfigRow -> bool)
    requires forall x :: pq(x) == (p(x) && q(x))
    ensures Filter(Filter(rows, p), q) == Filter(rows, pq)
  {
    if rows != [] {
      FilterTwice(rows[1..], p, q, pq);
    }
  }

  /** Filters whose conditions agree on every row keep the same rows. */
  lemma {:induction false} FilterSameCondition(rows: seq<ConfigRow>, p: ConfigRow -> bool, q: ConfigRow -> bool)
    requires forall x :: p(x) == q(x)
    ensures Filter(rows, p) == Filter(rows, q)
  {
    if rows != [] {
      FilterSameCondition(rows[1..], p, q);
    }
  }

  /** The successive filters keep exactly the rows that match every applicable selector, in table order. */
  lemma GetRunConfigsIsOneFilter(rows: seq<ConfigRow>, sel: Selector)
    ensures GetRunConfigs(rows, sel) == Filter(rows, row => Matches(row, sel))
  {
    var id := row => IdMatches(row, sel.configId);
    var setup := row => SetupMatches(row, sel);
    var shape := row => ShapeMatches(row, sel);
    var exp := row => ExpRewardMatches(row, sel);
    var idSetup := row => IdMatches(row, sel.configId) && SetupMatches(row, sel);
    var idSetupShape := row => idSetup(row) && ShapeMatches(row, sel);
    var all := row => idSetupShape(row) && ExpRewardMatches(row, sel);
    FilterTwice(rows, id, setup, idSetup);
    if IsImportanceBenchmark(sel.benchmark) {
      FilterTwice(rows, idSetup, shape, idSetupShape);
      if sel.rewardShape == "exp" {
        FilterTwice(rows, idSetupShape, exp, all);
        FilterSameCondition(rows, all, row => Matches(row, sel));
      } else {
        FilterSameCondition(rows, idSetupShape, row => Matches(row, sel));
      }
    } else {
      FilterSameCondition(rows, idSetup, row => Matches(row, sel));
    }
  }

  /**
   * The result is an order-preserving selection of the table's rows, and a row is kept exactly
   * when it is in the table and matches every applicable selector, with every copy it has there.
   */
  lemma GetRunConfigsMeaning(rows: seq<ConfigRow>, sel: Selector, row: ConfigRow)
    ensures IsSubsequence(GetRunConfigs(rows, sel), rows)
    ensures row in GetRunConfigs(rows, sel) <==> row in rows && Matches(row, sel)
    ensures multiset(GetRunConfigs(rows, sel))[row] == if Matches(row, sel) then multiset(rows)[row] else 0
  {
    GetRunConfigsIsOneFilter(rows, sel);
    FilterCounts(rows, row => Matches(row, sel), row);
  }

  /** With `config_id == 'best'` every kept row's id mentions `best`, whatever the other selectors. */
  lemma BestKeepsOnlyBestIds(rows: seq<ConfigRow>, sel: Selector, row: ConfigRow)
    requires sel.configId == "best" && row in GetRunConfigs(rows, sel)
    ensures Contains(row.configId, "best")
  {
    GetRunConfigsMeaning(rows, sel, row);
  }

  /** Outside the importance-weighted benchmarks the importance, shape and exponential selectors are ignored. */
  lemma OtherBenchmarksIgnoreShape(rows: seq<ConfigRow>, sel: Selector, sel': Selector)
    requires !IsImportanceBenchmark(sel.benchmark)
    requires sel' == sel.(importanceBase := sel'.importanceBase, rewardShape := sel'.rewardShape,
                          expReward := sel'.expReward)
    ensures GetRunConfigs(rows, sel) == GetRunConfigs(rows, sel')
  {
    GetRunConfigsIsOneFilter(rows, sel);
    GetRunConfigsIsOneFilter(rows, sel');
    FilterSameCondition(rows, row => Matches(row, sel), row => Matches(row, sel'));
  }
}
