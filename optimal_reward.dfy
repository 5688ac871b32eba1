/**
 * `compute_optimal_episode_reward`: the best episode reward reachable when every step picks the
 * grid action nearest to the environment's target. The environment is reduced to the target
 * values of its current instance; the exponential reward `exp(-c * d)` is the parameter `expLaw`.
 */
module OptimalReward {
  import opened Wrappers
  import opened NearestLookup

  /** The three environment kinds the helper tells apart, with the targets of the current instance. */
  datatype EnvInstance =
      /** Importance-weighted sigmoid: the target of action 0 at each step. */
    | ImportanceSigmoidEnv(truths: seq<real>)
      /** Piecewise-linear benchmark: the piecewise target at each step. */
    | PiecewiseLinearEnv(truths: seq<real>)
      /** Any other sigmoid environment: per step, the target of every action dimension. */
    | SigmoidEnv(truthRows: seq<seq<real>>)

  /**
   * Whether the exponential law applies. The importance-weighted environment only recognises
   * "exponential", the piecewise one also "exp"; the multi-action law is always linear.
   */
  predicate UsesExponential(env: EnvInstance, rewardShape: Option<string>)
  {
    match env
    case ImportanceSigmoidEnv(_) => rewardShape == Some("exponential")
    case PiecewiseLinearEnv(_) => rewardShape == Some("exponential") || rewardShape == Some("exp")
    case SigmoidEnv(_) => false
  }

  /** The distance between a target and the best reachable prediction. */
  function Gap(grid: seq<real>, truth: real): real
    requires grid != []
  {
    Abs(truth - Nearest(grid, truth))
  }

  /** The linear reward of predicting `action` for `truth`: `1 - |truth - action|`. */
  function LinearLaw(truth: real, action: real): real
  {
    1.0 - Abs(truth - action)
  }

  /** The reward of predicting `action` for `truth` under the linear or the exponential law. */
  function ActionReward(exponential: bool, expLaw: real -> real, truth: real, action: real): real
  {
    if exponential then expLaw(Abs(truth - action)) else LinearLaw(truth, action)
  }

  /** The reward of one step of a single-target environment: the law applied to the nearest action. */
  function StepReward(exponential: bool, expLaw: real -> real, grid: seq<real>, truth: real): real
    requires grid != []
  {
    ActionReward(exponential, expLaw, truth, Nearest(grid, truth))
  }

  /** The episode reward of a single-target environment: the step rewards summed in step order. */
  function SingleTargetTotal(exponential: bool, expLaw: real -> real, grid: seq<real>, truths: seq<real>): real
    requires grid != [] || truths == []
  {
    if truths == [] then 0.0
    else SingleTargetTotal(exponential, expLaw, grid, truths[..|truths| - 1])
         + StepReward(exponential, expLaw, grid, truths[|truths| - 1])
  }

  /** The linear reward of reaching `truth` as closely as the grid allows. */
  function LinearReward(grid: seq<real>, truth: real): real
    requires grid != []
  {
    LinearLaw(truth, Nearest(grid, truth))
  }

  /** The product of a sequence of factors, multiplied in order. */
  function Product(fs: seq<real>): real
  {
    if fs == [] then 1.0 else Product(fs[..|fs| - 1]) * fs[|fs| - 1]
  }

  /** Extending a prefix by one factor multiplies its product by that factor. */
  lemma ProductExtend(fs: seq<real>, i: nat, p: real, f: real)
    requires i < |fs| && p == Product(fs[..i]) && f == fs[i]
    ensures Product(fs[..i + 1]) == p * f
  {
    assert fs[..i + 1][..i] == fs[..i];
  }

  /** The factors of one multi-action step, one per action dimension. */
  function StepFactors(grid: seq<real>, row: seq<real>): (fs: seq<real>)
    requires grid != [] || row == []
    ensures |fs| == |row|
  {
    seq(|row|, i requires 0 <= i < |row| => LinearReward(grid, row[i]))
  }

  /** The reward of one multi-action step: the product over dimensions of `1 - gap`. */
  function StepProduct(grid: seq<real>, row: seq<real>): real
    requires grid != [] || row == []
  {
    Product(StepFactors(grid, row))
  }

  predicate AllEmpty(rows: seq<seq<real>>)
  {
    forall t :: 0 <= t < |rows| ==> rows[t] == []
  }

  /** The episode reward of a multi-action environment: the step products summed in step order. */
  function MultiActionTotal(grid: seq<real>, rows: seq<seq<real>>): real
    requires grid != [] || AllEmpty(rows)
  {
    if rows == [] then 0.0
    else MultiActionTotal(grid, rows[..|rows| - 1]) + StepProduct(grid, rows[|rows| - 1])
  }

  /** What the helper returns, or the `IndexError` the nearest-value lookup raises on an empty grid. */
  function OptimalEpisodeReward(env: EnvInstance, grid: seq<real>, rewardShape: Option<string>,
                                expLaw: real -> real): (r: Result<real>)
    ensures r.Raises? ==> r.error == IndexError && grid == []
    ensures grid != [] ==> r.Ok?
  {
    match env
    case SigmoidEnv(rows) =>
      if grid == [] && !AllEmpty(rows) then Raises(IndexError) else Ok(MultiActionTotal(grid, rows))
    case _ =>
      if grid == [] && env.truths != [] then Raises(IndexError)
      else Ok(SingleTargetTotal(UsesExponential(env, rewardShape), expLaw, grid, env.truths))
  }

  /** The helper: accumulate the episode reward step by step. */
  method ComputeOptimalEpisodeReward(env: EnvInstance, possibleActions: seq<real>,
                                     rewardShape: Option<string>, expLaw: real -> real)
    returns (r: Result<real>)
    ensures r == OptimalEpisodeReward(env, possibleActions, rewardShape, expLaw)
  {
    match env {
      case SigmoidEnv(rows) =>
        r := MultiActionReward(rows, possibleActions);
      case _ =>
        var exponential := UsesExponential(env, rewardShape);
        r := SingleTargetReward(env.truths, possibleActions, exponential, expLaw);
    }
  }

  /** The single-target loop: one nearest-value lookup and one reward per step. */
  method SingleTargetReward(truths: seq<real>, possibleActions: seq<real>, exponential: bool,
                            expLaw: real -> real) returns (r: Result<real>)
    ensures possibleActions == [] && truths != [] ==> r == Raises(IndexError)
    ensures possibleActions != [] || truths == [] ==>
      r == Ok(SingleTargetTotal(exponential, expLaw, possibleActions, truths))
  {
    var total := 0.0;
    var t := 0;
    while t < |truths|
      invariant 0 <= t <= |truths|
      invariant t > 0 ==> possibleActions != []
      invariant total == SingleTargetTotal(exponential, expLaw, possibleActions, truths[..t])
    {
      var truth := truths[t];
      var best := FindNearest(possibleActions, truth);
      if best.Raises? {
        return Raises(best.error);
      }
      var bestPred := best.value;
      if exponential {
        total := total + expLaw(Abs(truth - bestPred));
      } else {
        total := total + (1.0 - Abs(truth - bestPred));
      }
      assert truths[..t + 1][..t] == truths[..t];
      t := t + 1;
    }
    assert truths[..t] == truths;
    r := Ok(total);
  }

  /** The product over the action dimensions of one step. */
  method StepProductLoop(row: seq<real>, possibleActions: seq<real>) returns (r: Result<real>)
    ensures possibleActions == [] && row != [] ==> r == Raises(IndexError)
    ensures possibleActions != [] || row == [] ==> r == Ok(StepProduct(possibleActions, row))
  {
    var stepReward := 1.0;
    var i := 0;
    while i < |row|
      invariant 0 <= i <= |row|
      invariant i > 0 ==> possibleActions != []
      invariant i == 0 ==> stepReward == 1.0
      invariant possibleActions != [] ==> stepReward == Product(StepFactors(possibleActions, row)[..i])
    {
      var best := FindNearest(possibleActions, row[i]);
      if best.Raises? {
        return Raises(best.error);
      }
      ghost var fs := StepFactors(possibleActions, row);
      var factor := 1.0 - Abs(row[i] - best.value);
      assert factor == fs[i];
      ProductExtend(fs, i, stepReward, factor);
      stepReward := stepReward * factor;
      i := i + 1;
    }
    if possibleActions != [] {
      assert i == |row|;
      assert StepFactors(possibleActions, row)[..i] == StepFactors(possibleActions, row);
      assert stepReward == StepProduct(possibleActions, row);
    } else if row == [] {
      assert StepFactors(possibleActions, row) == [];
    }
    r := Ok(stepReward);
  }

  /** The multi-action loop: the step products summed over the episode. */
  method MultiActionReward(rows: seq<seq<real>>, possibleActions: seq<real>) returns (r: Result<real>)
    ensures possibleActions == [] && !AllEmpty(rows) ==> r == Raises(IndexError)
    ensures possibleActions != [] || AllEmpty(rows) ==> r == Ok(MultiActionTotal(possibleActions, rows))
  {
    var total := 0.0;
    var t := 0;
    while t < |rows|
      invariant 0 <= t <= |rows|
      invariant possibleActions == [] ==> AllEmpty(rows[..t])
      invariant total == MultiActionTotal(possibleActions, rows[..t])
    {
      var step := StepProductLoop(rows[t], possibleActions);
      if step.Raises? {
        assert rows[t] != [];
        return Raises(step.error);
      }
      total := total + step.value;
      assert rows[..t + 1][..t] == rows[..t];
      t := t + 1;
    }
    assert rows[..t] == rows;
    r := Ok(total);
  }

  // ----- properties of the reward laws -----

  /** Under the linear law every step earns at most 1, so an episode earns at most its length. */
  lemma {:induction false} LinearTotalAtMostSteps(expLaw: real -> real, grid: seq<real>, truths: seq<real>)
    requires grid != [] || truths == []
    ensures SingleTargetTotal(false, expLaw, grid, truths) <= |truths| as real
  {
    if truths != [] {
      LinearTotalAtMostSteps(expLaw, grid, truths[..|truths| - 1]);
    }
  }

  /** When every target is itself an action, every step earns exactly 1. */
  lemma {:induction false} SingleTargetPerfect(expLaw: real -> real, grid: seq<real>, truths: seq<real>)
    requires Sorted(grid)
    requires forall t :: 0 <= t < |truths| ==> truths[t] in grid
    ensures grid != [] || truths == []
    ensures SingleTargetTotal(false, expLaw, grid, truths) == |truths| as real
  {
    if truths != [] {
      var last := truths[|truths| - 1];
      assert last in grid;
      SingleTargetPerfect(expLaw, grid, truths[..|truths| - 1]);
      NearestOfMember(grid, last);
    }
  }

  /** A product of ones is one. */
  lemma {:induction false} ProductOfOnes(fs: seq<real>)
    requires forall i :: 0 <= i < |fs| ==> fs[i] == 1.0
    ensures Product(fs) == 1.0
  {
    if fs != [] {
      ProductOfOnes(fs[..|fs| - 1]);
    }
  }

  /** A multi-action step whose targets are all actions earns exactly 1. */
  lemma StepProductPerfect(grid: seq<real>, row: seq<real>)
    requires Sorted(grid) && grid != []
    requires forall i :: 0 <= i < |row| ==> row[i] in grid
    ensures StepProduct(grid, row) == 1.0
  {
    var fs := StepFactors(grid, row);
    forall i | 0 <= i < |fs| ensures fs[i] == 1.0 {
      NearestOfMember(grid, row[i]);
    }
    ProductOfOnes(fs);
  }

  /** A multi-action episode whose targets are all actions earns exactly its length. */
  lemma {:induction false} MultiActionPerfect(grid: seq<real>, rows: seq<seq<real>>)
    requires Sorted(grid) && grid != []
    requires forall t, i :: 0 <= t < |rows| && 0 <= i < |rows[t]| ==> rows[t][i] in grid
    ensures MultiActionTotal(grid, rows) == |rows| as real
  {
    if rows != [] {
      MultiActionPerfect(grid, rows[..|rows| - 1]);
      StepProductPerfect(grid, rows[|rows| - 1]);
    }
  }

  /** A target in [0, 1] is at most 1 away from its nearest action when some action lies in [0, 1]. */
  lemma GapAtMostOne(grid: seq<real>, truth: real, k: nat)
    requires Sorted(grid) && k < |grid| && 0.0 <= grid[k] <= 1.0
    requires 0.0 <= truth <= 1.0
    ensures 0.0 <= Gap(grid, truth) <= 1.0
  {
    NearestIsClosest(grid, truth, k);
  }

  /** A product of factors in [0, 1] lies in [0, 1]. */
  lemma {:induction false} ProductInUnit(fs: seq<real>)
    requires forall i :: 0 <= i < |fs| ==> 0.0 <= fs[i] <= 1.0
    ensures 0.0 <= Product(fs) <= 1.0
  {
    if fs != [] {
      var init := fs[..|fs| - 1];
      assert forall i :: 0 <= i < |init| ==> init[i] == fs[i];
      ProductInUnit(init);
      var p, f := Product(init), fs[|fs| - 1];
      assert 0.0 <= p <= 1.0 && 0.0 <= f <= 1.0;
      assert 0.0 <= p * f;
      assert p * f <= p * 1.0;
    }
  }

  /** With targets in [0, 1] and an action in [0, 1], each factor and so each step product lies in [0, 1]. */
  lemma StepProductInUnit(grid: seq<real>, row: seq<real>, k: nat)
    requires Sorted(grid) && k < |grid| && 0.0 <= grid[k] <= 1.0
    requires forall i :: 0 <= i < |row| ==> 0.0 <= row[i] <= 1.0
    ensures 0.0 <= StepProduct(grid, row) <= 1.0
  {
    var fs := StepFactors(grid, row);
    forall i | 0 <= i < |fs| ensures 0.0 <= fs[i] <= 1.0 {
      GapAtMostOne(grid, row[i], k);
    }
    ProductInUnit(fs);
  }

  /** Under those conditions a multi-action episode earns between 0 and its length. */
  lemma {:induction false} MultiActionBounded(grid: seq<real>, rows: seq<seq<real>>, k: nat)
    requires Sorted(grid) && k < |grid| && 0.0 <= grid[k] <= 1.0
    requires forall t, i :: 0 <= t < |rows| && 0 <= i < |rows[t]| ==> 0.0 <= rows[t][i] <= 1.0
    ensures 0.0 <= MultiActionTotal(grid, rows) <= |rows| as real
  {
    if rows != [] {
      MultiActionBounded(grid, rows[..|rows| - 1], k);
      StepProductInUnit(grid, rows[|rows| - 1], k);
    }
  }

  /** Outside [0, 1] the product law can exceed 1 per step: two targets 3 above the only action. */
  lemma StepProductCanExceedOne()
    ensures StepProduct([0.0], [3.0, 3.0]) == 4.0
  {
    NearestOfMember([0.0], 0.0);
    assert Nearest([0.0], 3.0) == 0.0;
    var fs := StepFactors([0.0], [3.0, 3.0]);
    assert fs == [-2.0, -2.0];
    assert fs[..1] == [-2.0] && fs[..1][..0] == [];
    assert Product(fs[..1]) == -2.0;
  }

  /** For the single-target environments under the linear law, the helper returns at most the episode length. */
  lemma OptimalRewardAtMostSteps(env: EnvInstance, grid: seq<real>, rewardShape: Option<string>,
                                 expLaw: real -> real)
    requires !env.SigmoidEnv? && !UsesExponential(env, rewardShape)
    ensures OptimalEpisodeReward(env, grid, rewardShape, expLaw).Ok? ==>
      OptimalEpisodeReward(env, grid, rewardShape, expLaw).value <= |env.truths| as real
  {
    if grid != [] || env.truths == [] {
      LinearTotalAtMostSteps(expLaw, grid, env.truths);
    }
  }

  /** For the single-target environments under the linear law, targets that are all actions give a perfect score. */
  lemma OptimalRewardPerfect(env: EnvInstance, grid: seq<real>, rewardShape: Option<string>,
                             expLaw: real -> real)
    requires !env.SigmoidEnv? && !UsesExponential(env, rewardShape)
    requires Sorted(grid) && forall t :: 0 <= t < |env.truths| ==> env.truths[t] in grid
    ensures OptimalEpisodeReward(env, grid, rewardShape, expLaw) == Ok(|env.truths| as real)
  {
    SingleTargetPerfect(expLaw, grid, env.truths);
  }

  /** "exp" selects the exponential law for the piecewise environment but not for the importance-weighted one. */
  lemma ShortExpNameSelectsLaw(truths: seq<real>, grid: seq<real>, expLaw: real -> real)
    requires grid != []
    ensures OptimalEpisodeReward(ImportanceSigmoidEnv(truths), grid, Some("exp"), expLaw)
         == Ok(SingleTargetTotal(false, expLaw, grid, truths))
    ensures OptimalEpisodeReward(PiecewiseLinearEnv(truths), grid, Some("exp"), expLaw)
         == Ok(SingleTargetTotal(true, expLaw, grid, truths))
  {
  }

  // ----- optimality: no other choice of grid actions earns more -----

  /** The episode reward of predicting `choice[t]` at step `t` of a single-target environment. */
  function ChoiceTotal(exponential: bool, expLaw: real -> real, truths: seq<real>, choice: seq<real>): real
    requires |choice| == |truths|
  {
    if truths == [] then 0.0
    else ChoiceTotal(exponential, expLaw, truths[..|truths| - 1], choice[..|choice| - 1])
         + ActionReward(exponential, expLaw, truths[|truths| - 1], choice[|choice| - 1])
  }

  /** A reward law that never grows with the distance, as `exp(-c * d)` for `c >= 0`. */
  ghost predicate NonIncreasing(expLaw: real -> real)
  {
    forall d1, d2 :: 0.0 <= d1 <= d2 ==> expLaw(d2) <= expLaw(d1)
  }

  /** At one step the nearest action earns at least as much as any other action of the grid. */
  lemma NearestStepIsBest(exponential: bool, expLaw: real -> real, grid: seq<real>, truth: real, k: nat)
    requires Sorted(grid) && k < |grid|
    requires exponential ==> NonIncreasing(expLaw)
    ensures ActionReward(exponential, expLaw, truth, grid[k]) <= StepReward(exponential, expLaw, grid, truth)
  {
    NearestIsClosest(grid, truth, k);
    assert Abs(truth - grid[k]) == Abs(grid[k] - truth);
    assert Gap(grid, truth) == Abs(Nearest(grid, truth) - truth);
  }

  /**
   * In a single-target environment the nearest action at every step is optimal: no sequence of
   * grid actions earns more, under the linear law or any non-increasing exponential law.
   */
  lemma {:induction false} SingleTargetOptimal(exponential: bool, expLaw: real -> real, grid: seq<real>,
                                               truths: seq<real>, choice: seq<real>)
    requires Sorted(grid)
    requires |choice| == |truths| && forall t :: 0 <= t < |choice| ==> choice[t] in grid
    requires exponential ==> NonIncreasing(expLaw)
    ensures grid != [] || truths == []
    ensures ChoiceTotal(exponential, expLaw, truths, choice) <= SingleTargetTotal(exponential, expLaw, grid, truths)
  {
    if truths != [] {
      var n := |truths|;
      var prefix := choice[..n - 1];
      assert forall t :: 0 <= t < |prefix| ==> prefix[t] in grid by {
        forall t | 0 <= t < |prefix| ensures prefix[t] in grid {
          assert prefix[t] == choice[t];
        }
      }
      SingleTargetOptimal(exponential, expLaw, grid, truths[..n - 1], prefix);
      var truth, action := truths[n - 1], choice[n - 1];
      assert action in grid;
      var k :| 0 <= k < |grid| && grid[k] == action;
      NearestStepIsBest(exponential, expLaw, grid, truth, k);
      assert ChoiceTotal(exponential, expLaw, truths, choice)
          == ChoiceTotal(exponential, expLaw, truths[..n - 1], prefix) + ActionReward(exponential, expLaw, truth, action);
      assert SingleTargetTotal(exponential, expLaw, grid, truths)
          == SingleTargetTotal(exponential, expLaw, grid, truths[..n - 1]) + StepReward(exponential, expLaw, grid, truth);
    }
  }

  /** For both single-target environments the helper's result is at least any choice of grid actions earns. */
  lemma OptimalRewardIsOptimal(env: EnvInstance, grid: seq<real>, rewardShape: Option<string>,
                               expLaw: real -> real, choice: seq<real>)
    requires !env.SigmoidEnv? && Sorted(grid)
    requires |choice| == |env.truths| && forall t :: 0 <= t < |choice| ==> choice[t] in grid
    requires UsesExponential(env, rewardShape) ==> NonIncreasing(expLaw)
    ensures OptimalEpisodeReward(env, grid, rewardShape, expLaw).Ok?
    ensures ChoiceTotal(UsesExponential(env, rewardShape), expLaw, env.truths, choice)
         <= OptimalEpisodeReward(env, grid, rewardShape, expLaw).value
  {
    SingleTargetOptimal(UsesExponential(env, rewardShape), expLaw, grid, env.truths, choice);
  }

  /** The factors of one multi-action step when dimension `i` predicts `choice[i]`. */
  function ChoiceFactors(row: seq<real>, choice: seq<real>): (fs: seq<real>)
    requires |choice| == |row|
    ensures |fs| == |row|
  {
    seq(|row|, i requires 0 <= i < |row| => LinearLaw(row[i], choice[i]))
  }

  /** Factors that are pointwise smaller and non-negative have a smaller, non-negative product. */
  lemma {:induction false} ProductMonotone(gs: seq<real>, fs: seq<real>)
    requires |gs| == |fs| && forall i :: 0 <= i < |gs| ==> 0.0 <= gs[i] <= fs[i]
    ensures 0.0 <= Product(gs) <= Product(fs)
  {
    if gs != [] {
      var n := |gs|;
      var gInit, fInit := gs[..n - 1], fs[..n - 1];
      assert forall i :: 0 <= i < |gInit| ==> gInit[i] == gs[i] && fInit[i] == fs[i];
      ProductMonotone(gInit, fInit);
      var p, q, g, f := Product(gInit), Product(fInit), gs[n - 1], fs[n - 1];
      assert 0.0 <= p <= q && 0.0 <= g <= f;
      assert 0.0 <= p * g;
      assert p * g <= q * g;
      assert q * g <= q * f;
    }
  }

  /** All grid actions and all targets lie in [0, 1], as in the sigmoid benchmark. */
  ghost predicate InUnit(xs: seq<real>)
  {
    forall i :: 0 <= i < |xs| ==> 0.0 <= xs[i] <= 1.0
  }

  /**
   * With the grid and the targets in [0, 1], the nearest action per dimension gives the largest
   * step product any choice of grid actions reaches.
   */
  lemma StepProductOptimal(grid: seq<real>, row: seq<real>, choice: seq<real>)
    requires Sorted(grid) && InUnit(grid) && InUnit(row) && grid != []
    requires |choice| == |row| && forall i :: 0 <= i < |choice| ==> choice[i] in grid
    ensures Product(ChoiceFactors(row, choice)) <= StepProduct(grid, row)
  {
    var gs, fs := ChoiceFactors(row, choice), StepFactors(grid, row);
    forall i | 0 <= i < |gs| ensures 0.0 <= gs[i] <= fs[i] {
      var k :| 0 <= k < |grid| && grid[k] == choice[i];
      NearestIsClosest(grid, row[i], k);
      assert Abs(row[i] - Nearest(grid, row[i])) == Abs(Nearest(grid, row[i]) - row[i]);
      assert Abs(row[i] - grid[k]) == Abs(grid[k] - row[i]);
    }
    ProductMonotone(gs, fs);
  }

  /** The episode reward of a multi-action environment when step `t` predicts `choices[t]`. */
  function ChoiceMultiTotal(rows: seq<seq<real>>, choices: seq<seq<real>>): real
    requires |choices| == |rows| && forall t :: 0 <= t < |rows| ==> |choices[t]| == |rows[t]|
  {
    if rows == [] then 0.0
    else ChoiceMultiTotal(rows[..|rows| - 1], choices[..|choices| - 1])
         + Product(ChoiceFactors(rows[|rows| - 1], choices[|choices| - 1]))
  }

  /** Under the same conditions the helper's multi-action total is optimal over whole episodes. */
  lemma {:induction false} MultiActionOptimal(grid: seq<real>, rows: seq<seq<real>>, choices: seq<seq<real>>)
    requires Sorted(grid) && InUnit(grid) && grid != []
    requires forall t :: 0 <= t < |rows| ==> InUnit(rows[t])
    requires |choices| == |rows| && forall t :: 0 <= t < |rows| ==> |choices[t]| == |rows[t]|
    requires forall t, i :: 0 <= t < |choices| && 0 <= i < |choices[t]| ==> choices[t][i] in grid
    ensures ChoiceMultiTotal(rows, choices) <= MultiActionTotal(grid, rows)
  {
    if rows != [] {
      var n := |rows|;
      MultiActionOptimal(grid, rows[..n - 1], choices[..n - 1]);
      StepProductOptimal(grid, rows[n - 1], choices[n - 1]);
    }
  }

  /**
   * Outside [0, 1] the nearest action is not optimal for the product law: with actions 0 and 10
   * and two targets at 3, the nearest action earns 4 while predicting 10 twice earns 36.
   */
  lemma NearestNotOptimalOutsideUnit()
    ensures StepProduct([0.0, 10.0], [3.0, 3.0]) == 4.0
    ensures Product(ChoiceFactors([3.0, 3.0], [10.0, 10.0])) == 36.0
  {
    assert InsertionPoint([0.0, 10.0], 3.0) == 1;
    assert Nearest([0.0, 10.0], 3.0) == 0.0;
    var fs := StepFactors([0.0, 10.0], [3.0, 3.0]);
    assert fs == [-2.0, -2.0];
    assert fs[..1] == [-2.0] && fs[..1][..0] == [];
    assert Product(fs[..1]) == -2.0;
    var gs := ChoiceFactors([3.0, 3.0], [10.0, 10.0]);
    assert gs == [-6.0, -6.0];
    assert gs[..1] == [-6.0] && gs[..1][..0] == [];
    assert Product(gs[..1]) == -6.0;
  }
}
