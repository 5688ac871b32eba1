# Plotting helpers of the candidDAC analysis, in Dafny

This project models the pure helpers in `analysis/plotting_nb/plotting_helpers.py`. The repository's
plotting notebooks use them to turn experiment logs into figures. The helpers are:

- `find_nearest`: the action of a sorted grid that is closest to a target value.
- `translate_run_name`: maps a run name to the algorithm label shown in plots (DDQN, SAQL, IQL, simSDQN).
- `load_policy_from_checkpoint`: the choice of checkpoint files and of the autorecursive flag.
- `get_actions_importance_sigmoid`: the accumulated action values of the importance-weighted sigmoid benchmark.
- `compute_optimal_episode_reward`: the best episode reward reachable on the current environment instance.
- `get_run_configs`: selects the runs of one experimental setup from the run-configuration table.

The modules follow the helpers:

- `NearestLookup`: `np.searchsorted` as a binary search, proved against a recursive insertion point, and `find_nearest`.
- `RunNames`: `translate_run_name`.
- `Checkpoints`: the path and flag logic of `load_policy_from_checkpoint`.
- `ActionGrid`: `get_actions_importance_sigmoid`. It covers the per-dimension grids, the Cartesian product in
  `itertools.product` order, and deduplication plus sorting.
- `OptimalReward`: `compute_optimal_episode_reward`, with its three environment branches.
- `RunConfigs`: `get_run_configs`, with a table as a sequence of rows and a boolean mask as `Filter`.
- `Strings`: Python's substring test `in` and decimal rendering of integers.
- `Wrappers`: `Option`, and `Result` for the Python exceptions the helpers raise on their own inputs.

Python exceptions are values of `Result`:

- `find_nearest` on an empty array raises `IndexError`.
- `get_actions_importance_sigmoid` with `n_acts == 1` raises `ZeroDivisionError`.

Numbers are exact `real`s.

Tie-breaking in `find_nearest` follows the code. When the target is exactly midway between two neighbours,
`dist_low < dist_high` is false, so the upper neighbour is returned, not the lower one.
`NearestLookup.NearestTieTakesUpper` proves this.

## Model

| member | source | states |
|---|---|---|
| NearestLookup.InsertionPoint | analysis/plotting_nb/plotting_helpers.py:32 | the left insertion point of `np.searchsorted` lies in 0..len(array); `InsertionPointSplits` and `InsertionPointUnique` characterise it |
| NearestLookup.InsertionPointSplits | analysis/plotting_nb/plotting_helpers.py:32 | the insertion point (numpy's left side) has every earlier element below the value; on a sorted array every later element is at least the value |
| NearestLookup.InsertionPointUnique | analysis/plotting_nb/plotting_helpers.py:32 | any index that splits the array that way is the insertion point |
| NearestLookup.SearchSorted | analysis/plotting_nb/plotting_helpers.py:32 | the binary search over a sorted array returns the left insertion point |
| NearestLookup.Nearest | analysis/plotting_nb/plotting_helpers.py:28-40 | the returned value is an element of the array |
| NearestLookup.FindNearest | analysis/plotting_nb/plotting_helpers.py:28-40 | raises IndexError exactly on an empty array; otherwise returns an element of it |
| NearestLookup.NearestClampsLow | analysis/plotting_nb/plotting_helpers.py:33-34 | a value at or below the first element maps to the first element |
| NearestLookup.NearestClampsHigh | analysis/plotting_nb/plotting_helpers.py:35-36 | a value at or above the last element maps to the last element |
| NearestLookup.NearestIsClosest | analysis/plotting_nb/plotting_helpers.py:28-40 | no element of the sorted array is strictly closer to the value than the result |
| NearestLookup.NearestPrefersUpper | analysis/plotting_nb/plotting_helpers.py:38-40 | every element exactly as close as the result is at most the result |
| NearestLookup.NearestTieTakesUpper | analysis/plotting_nb/plotting_helpers.py:38-40 | when the value is midway between two neighbours, the upper neighbour is returned |
| NearestLookup.NearestIsUpperArgmin | analysis/plotting_nb/plotting_helpers.py:28-40 | the result is the only element that is closest and the largest of the closest ones |
| NearestLookup.NearestOfMember | analysis/plotting_nb/plotting_helpers.py:28-40 | a value that is in the array maps to itself |
| Strings.Contains | analysis/plotting_nb/plotting_helpers.py:47-53 | Python's `marker in s`; `ContainsIff` states its meaning |
| Strings.ContainsIff | analysis/plotting_nb/plotting_helpers.py:47-53 | the substring test holds exactly when the marker occurs at some position |
| Strings.DecimalRoundTrip | analysis/plotting_nb/plotting_helpers.py:147 | the decimal rendering of a dimension index reads back as that index |
| Strings.NatToDecimal | analysis/plotting_nb/plotting_helpers.py:147 | the text of a dimension index is non-empty and all decimal digits |
| Strings.IntToDecimal | analysis/plotting_nb/plotting_helpers.py:147 | the text of an episode number is non-empty, starts with `-` exactly for a negative number, and has only digits after its first character |
| RunNames.TranslateRunName | analysis/plotting_nb/plotting_helpers.py:43-56 | the label under each marker in priority order: adqn/ddqn, then fdqn_a/saql, then fdqn/iql, then sdqn; any other name is returned unchanged |
| RunNames.TranslateRange | analysis/plotting_nb/plotting_helpers.py:43-56 | the result is one of the four labels or the name itself |
| RunNames.LabelIsFixedPoint | analysis/plotting_nb/plotting_helpers.py:47-56 | each of the four labels translates to itself |
| RunNames.TranslateIdempotent | analysis/plotting_nb/plotting_helpers.py:43-56 | translating twice gives the same as translating once |
| RunNames.TranslateExampleDDQN | analysis/plotting_nb/plotting_helpers.py:47-48 | `exp_ddqn_seed0` becomes DDQN |
| RunNames.TranslateExampleSAQL | analysis/plotting_nb/plotting_helpers.py:49-50 | `exp_fdqn_a_seed3` becomes SAQL, although it also contains `fdqn` |
| RunNames.TranslateExampleIQL | analysis/plotting_nb/plotting_helpers.py:51-52 | `exp_fdqn_seed1` becomes IQL |
| RunNames.TranslateExampleSimSDQN | analysis/plotting_nb/plotting_helpers.py:53-54 | `exp_sdqn_seed2` becomes simSDQN |
| RunNames.TranslateExampleUnchanged | analysis/plotting_nb/plotting_helpers.py:55-56 | `unrecognized_tag`, which holds no marker, is returned unchanged |
| Checkpoints.CheckpointFile | analysis/plotting_nb/plotting_helpers.py:157-158 | the file name (also built at line 147) `{dir}/{episode}_{network}_{i}.pth`; `CheckpointFilesDistinct` states that it tells dimensions apart |
| Checkpoints.QNetworkPaths | analysis/plotting_nb/plotting_helpers.py:145-147 | one path per dimension (none for a non-positive dim), path i being `{dir}/{episode}_q_network_{i}.pth` |
| Checkpoints.LoadPolicyPlan | analysis/plotting_nb/plotting_helpers.py:140-158 | factorized exactly when `fdqn`; autorecursive exactly when the flag is set or the run name contains `sdqn`; paths absent exactly without a directory; the atomic policy gets the `q_network_0` and `target_network_0` files; `final` replaces the episode number |
| Checkpoints.CheckpointFilesDistinct | analysis/plotting_nb/plotting_helpers.py:147 | different dimensions get different file names |
| Checkpoints.EpisodeTag | analysis/plotting_nb/plotting_helpers.py:140 | the episode part of a name is `final` exactly when `final` is set, so a numbered checkpoint name never reads as the final one |
| ActionGrid.DimensionGrid | analysis/plotting_nb/plotting_helpers.py:223-225 | every dimension's grid has `n_acts` values (none when `n_acts <= 0`) |
| ActionGrid.Grids | analysis/plotting_nb/plotting_helpers.py:223-225 | there are max_dim grids, or one when max_dim is at most 1 (`range(1, max_dim)` adds max_dim - 1 grids to the first) |
| ActionGrid.BuildGrids | analysis/plotting_nb/plotting_helpers.py:223-225 | raises ZeroDivisionError exactly when `n_acts == 1`; otherwise the grid of dimension 0 and of dimensions 1 to max_dim - 1 |
| ActionGrid.Insert | analysis/plotting_nb/plotting_helpers.py:233-234 | inserting into a strictly increasing sequence keeps it strictly increasing and adds exactly the new value |
| ActionGrid.UniqueSorted | analysis/plotting_nb/plotting_helpers.py:233-234 | the result is strictly increasing and has exactly the elements of the input |
| ActionGrid.CombineHas | analysis/plotting_nb/plotting_helpers.py:229-230 | every first-dimension value plus every tail sum is among the combined sums |
| ActionGrid.CombineSource | analysis/plotting_nb/plotting_helpers.py:229-230 | every combined sum is some first-dimension value plus some tail sum |
| ActionGrid.ProductSumsComplete | analysis/plotting_nb/plotting_helpers.py:229-230 | the sum of every choice of one index per dimension is produced |
| ActionGrid.ProductSumsSound | analysis/plotting_nb/plotting_helpers.py:229-230 | every produced sum is the sum of some choice of one index per dimension |
| ActionGrid.ProductSums | analysis/plotting_nb/plotting_helpers.py:229-230 | the sums of the Cartesian product in `itertools.product` order; `ProductSumsComplete`, `ProductSumsSound` and `ProductSumsCount` state its content and length |
| ActionGrid.CombineLength | analysis/plotting_nb/plotting_helpers.py:229-230 | combining lists one sum per pair of a grid value and a tail sum |
| ActionGrid.ProductSumsCount | analysis/plotting_nb/plotting_helpers.py:229-230 | the product lists one sum per combination, duplicates included: the product of the grid sizes |
| ActionGrid.GetActionsImportanceSigmoid | analysis/plotting_nb/plotting_helpers.py:219-236 | the helper's result equals the specification `ImportanceActions` |
| ActionGrid.ImportanceActions | analysis/plotting_nb/plotting_helpers.py:219-236 | raises ZeroDivisionError exactly when `n_acts == 1` |
| ActionGrid.ImportanceActionsMeaning | analysis/plotting_nb/plotting_helpers.py:219-236 | raises exactly when `n_acts == 1`; otherwise the result is strictly increasing and holds exactly the sums of one value per dimension |
| ActionGrid.ImportanceActionsCount | analysis/plotting_nb/plotting_helpers.py:229-234 | the result has at most one value per combination of the grids |
| ActionGrid.CombineWithZero | analysis/plotting_nb/plotting_helpers.py:229-230 | combining with the single sum 0 leaves a grid unchanged |
| ActionGrid.UniqueSortedOfIncreasing | analysis/plotting_nb/plotting_helpers.py:233-234 | deduplicating and sorting an already strictly increasing sequence changes nothing |
| ActionGrid.EvenGridIncreasing | analysis/plotting_nb/plotting_helpers.py:223 | the grid of dimension 0 is strictly increasing |
| ActionGrid.SingleDimensionIsEvenGrid | analysis/plotting_nb/plotting_helpers.py:223-236 | with max_dim at most 1 the helper returns `i / (n_acts - 1)` for i in range(n_acts) |
| ActionGrid.IncreasingDeterminedByElements | analysis/plotting_nb/plotting_helpers.py:233-234 | two strictly increasing sequences with the same elements are equal, so the deduplicated result is unique |
| ActionGrid.TwoDimensionExample | analysis/plotting_nb/plotting_helpers.py:219-236 | max_dim 2, base 0.5 and 3 actions give -0.25, 0, 0.25, 0.5, 0.75, 1, 1.25 |
| OptimalReward.UsesExponential | analysis/plotting_nb/plotting_helpers.py:75-88 | the exponential law applies for `exponential` on the importance-weighted environment, for `exponential` or `exp` on the piecewise-linear one, and never on the others; `ShortExpNameSelectsLaw` states the difference |
| OptimalReward.SingleTargetTotal | analysis/plotting_nb/plotting_helpers.py:68-90 | the single-target episode reward: per-step rewards at the nearest action, summed in step order |
| OptimalReward.StepProduct | analysis/plotting_nb/plotting_helpers.py:95-100 | one multi-action step: the product over dimensions of one minus the gap to the nearest action |
| OptimalReward.MultiActionTotal | analysis/plotting_nb/plotting_helpers.py:93-102 | the multi-action episode reward: step products summed in step order |
| OptimalReward.OptimalEpisodeReward | analysis/plotting_nb/plotting_helpers.py:59-104 | the only error is IndexError, raised only on an empty grid, and a non-empty grid always gives a result |
| OptimalReward.ComputeOptimalEpisodeReward | analysis/plotting_nb/plotting_helpers.py:59-104 | the accumulated reward equals `OptimalEpisodeReward`: per-step sums for the single-target environments, per-step products over dimensions for the others, and IndexError when an empty grid is searched |
| OptimalReward.SingleTargetReward | analysis/plotting_nb/plotting_helpers.py:64-90 | the loop's total is the sum over steps of the step reward at the nearest action |
| OptimalReward.StepProductLoop | analysis/plotting_nb/plotting_helpers.py:95-100 | the inner loop's step reward is the product over dimensions of one minus the gap |
| OptimalReward.MultiActionReward | analysis/plotting_nb/plotting_helpers.py:92-102 | the outer loop's total is the sum of the step products |
| OptimalReward.ProductExtend | analysis/plotting_nb/plotting_helpers.py:100 | multiplying the running product by the next factor gives the product of the longer prefix |
| OptimalReward.LinearTotalAtMostSteps | analysis/plotting_nb/plotting_helpers.py:78 | under the linear law an episode earns at most its number of steps |
| OptimalReward.SingleTargetPerfect | analysis/plotting_nb/plotting_helpers.py:71-78 | when every target is an action, the linear law earns exactly one per step |
| OptimalReward.ProductOfOnes | analysis/plotting_nb/plotting_helpers.py:95-100 | a step whose factors are all one earns one |
| OptimalReward.StepProductPerfect | analysis/plotting_nb/plotting_helpers.py:95-100 | a multi-action step whose targets are all actions earns exactly one |
| OptimalReward.MultiActionPerfect | analysis/plotting_nb/plotting_helpers.py:92-102 | a multi-action episode whose targets are all actions earns exactly its number of steps |
| OptimalReward.GapAtMostOne | analysis/plotting_nb/plotting_helpers.py:98-100 | a target in [0, 1] is within 1 of its nearest action when some action lies in [0, 1] |
| OptimalReward.ProductInUnit | analysis/plotting_nb/plotting_helpers.py:100 | a product of factors in [0, 1] lies in [0, 1] |
| OptimalReward.StepProductInUnit | analysis/plotting_nb/plotting_helpers.py:95-100 | with targets and an action in [0, 1], a step's product lies in [0, 1] |
| OptimalReward.MultiActionBounded | analysis/plotting_nb/plotting_helpers.py:92-102 | under those conditions an episode earns between 0 and its number of steps |
| OptimalReward.StepProductCanExceedOne | analysis/plotting_nb/plotting_helpers.py:100 | without them a step can earn more than 1: two targets 3 away from the only action give (-2) * (-2) = 4 |
| OptimalReward.OptimalRewardAtMostSteps | analysis/plotting_nb/plotting_helpers.py:64-90 | for both single-target environments under the linear law, a returned reward is at most the episode length |
| OptimalReward.OptimalRewardPerfect | analysis/plotting_nb/plotting_helpers.py:64-90 | for both single-target environments under the linear law, targets that are actions give exactly the episode length |
| OptimalReward.ShortExpNameSelectsLaw | analysis/plotting_nb/plotting_helpers.py:75-88 | the shape name `exp` selects the exponential law for the piecewise-linear environment but not for the importance-weighted one |
| OptimalReward.NearestStepIsBest | analysis/plotting_nb/plotting_helpers.py:71-90 | at one step the nearest action earns at least as much as any other grid action, under the linear law or a non-increasing exponential law |
| OptimalReward.SingleTargetOptimal | analysis/plotting_nb/plotting_helpers.py:59-90 | the single-target total is the largest any choice of one grid action per step earns, under the linear law or a non-increasing exponential law |
| OptimalReward.OptimalRewardIsOptimal | analysis/plotting_nb/plotting_helpers.py:59-90 | for both single-target environments the helper returns a value no choice of grid actions exceeds, as its name promises |
| OptimalReward.ProductMonotone | analysis/plotting_nb/plotting_helpers.py:100 | non-negative factors that are pointwise smaller have a smaller product |
| OptimalReward.StepProductOptimal | analysis/plotting_nb/plotting_helpers.py:95-100 | with the grid and the targets in [0, 1], no choice of grid actions gives a larger step product than the nearest ones |
| OptimalReward.MultiActionOptimal | analysis/plotting_nb/plotting_helpers.py:92-102 | under those conditions the multi-action total is the largest any choice of grid actions earns |
| OptimalReward.NearestNotOptimalOutsideUnit | analysis/plotting_nb/plotting_helpers.py:95-100 | outside [0, 1] the nearest action is not optimal: with actions 0 and 10 and two targets at 3 it earns 4 while predicting 10 twice earns 36 |
| RunConfigs.Filter | analysis/plotting_nb/plotting_helpers.py:247-266 | a mask keeps exactly the rows that satisfy it, in table order, and no more rows than it was given; `FilterCounts` states that every copy is kept |
| RunConfigs.FilterCounts | analysis/plotting_nb/plotting_helpers.py:247-266 | a mask keeps every copy of a matching row and no copy of any other row |
| RunConfigs.FilterTwice | analysis/plotting_nb/plotting_helpers.py:246-266 | two masks in a row select the same as one mask on their conjunction |
| RunConfigs.FilterSameCondition | analysis/plotting_nb/plotting_helpers.py:246-266 | masks that agree on every row select the same rows |
| RunConfigs.GetRunConfigs | analysis/plotting_nb/plotting_helpers.py:246-268 | every kept row is a table row with the requested id and setup, and no more rows are kept than the table has |
| RunConfigs.GetRunConfigsIsOneFilter | analysis/plotting_nb/plotting_helpers.py:239-268 | the successive filters equal one filter by the combined selection condition |
| RunConfigs.GetRunConfigsMeaning | analysis/plotting_nb/plotting_helpers.py:239-268 | the result keeps table order and every copy of a matching row; a row matches when its id (or `best` in it), dim, benchmark, reverse flag and action count agree, plus importance base and shape on the importance benchmarks, plus the exponential constant for shape `exp` |
| RunConfigs.BestKeepsOnlyBestIds | analysis/plotting_nb/plotting_helpers.py:246-247 | selecting `best` keeps only ids that contain `best` |
| RunConfigs.OtherBenchmarksIgnoreShape | analysis/plotting_nb/plotting_helpers.py:258-266 | on other benchmarks, the importance base, reward shape and exponential constant do not affect the result |

## Left out

- `analysis/download_final_ckpt.py` is left out: it reads `benchmark` and `dim` from a run's configuration on the experiment tracker, creates and enters a local directory and downloads the final Q-network checkpoints. All of it is I/O.
- `eval_policy_on_sigmoid` is left out: it runs a neural policy in the environment.
- `get_best_possible_avg_reward` is left out: it builds benchmark environments and averages over their instances.
  Its parts that are modelled here are the grid (`ActionGrid`) and the per-instance reward (`OptimalReward`).
- `load_policy_from_checkpoint`: the construction of `FactorizedPolicy` and `AtomicPolicy` (torch networks) is left out.
  The model stops at the arguments they receive (`Checkpoints.PolicyPlan`).
  The observation and action sizes read from the environment are not modelled.
- `OptimalReward.OptimalEpisodeReward` takes the targets of the current instance as inputs.
  The environment's `_sig` and `_get_target` formulas belong to the benchmark library.
- `OptimalReward.OptimalEpisodeReward` takes `np.exp(-c * d)` as the parameter `expLaw`, a function of the distance.
  It says nothing about the exponential itself. The optimality lemmas assume only that this law does not grow with the distance, as `exp(-c * d)` does for `c >= 0`.
  The `TypeError` raised by `-c` when `c` is `None` on the exponential branch is not modelled: `expLaw` is total.
- `OptimalReward.OptimalRewardAtMostSteps`, `OptimalReward.MultiActionBounded`: bounds are stated only for the linear law.
  The multi-action bound also needs targets in [0, 1] and an action in [0, 1], because otherwise the factors can be negative (`StepProductCanExceedOne`).
- Floating point: all values are exact reals, so these effects are not modelled:
  - the rounding of `1 / (n_acts - 1) * i` and of the sums;
  - `np.unique` merging exactly equal floats, which rounding can make differ from the exact sums.
  This is why `TwoDimensionExample` gives exact values.
- `ActionGrid.BuildGrids`: `n_acts <= 0` gives empty grids, following Python's `range`. The conversion to a numpy array is not modelled; every grid has the same length, so it changes no value.
- `RunConfigs.GetRunConfigs`:
  - `config_id` is a string column in the model. With `config_id='best'`, a cell that is not a string makes `str.contains('best')` raise. An integer column raises AttributeError. A column that mixes strings and integers gives NaN for the integers, and the mask then raises ValueError. The model's string column excludes both, so it never raises there. For any other `config_id` the comparison is equality in both.
  - `str.contains('best')` is a regular-expression search. `best` has no special characters, so it is a plain substring test here.
  - Missing (NaN) cells are not modelled.
  - The `n_act` default of `float` (the type object) is never equal to a table cell, so the model always takes an explicit action count.
- The module constants (colours and CSV paths) are left out: nothing in the helpers reads them.
- `NearestLookup.Nearest`, `NearestLookup.FindNearest`, `OptimalReward.ComputeOptimalEpisodeReward`: on an unsorted grid the model's insertion point (the longest prefix below the value) need not be the index numpy's binary search returns. `find_nearest` documents sorted input only, every caller passes a sorted grid, and every property above assumes a sorted grid.
- Default arguments are not modelled as defaults; each is an explicit parameter: `ckpt_directory=None`, `episode=1000` and `final=False` of `load_policy_from_checkpoint`; `reward_shape=None` and `c=None` of `compute_optimal_episode_reward`; `importance_base=0.5` and `n_acts=3` of `get_actions_importance_sigmoid`; `reverse_agents=False`, `importance_base=0.5`, `reward_shape="exp"` and `exp_reward=4.6` of `get_run_configs`.
