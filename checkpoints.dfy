/**
 * The checkpoint-path part of `load_policy_from_checkpoint`: which weight files a restored
 * policy is built from, and whether a factorized policy runs autorecursively.
 */
module Checkpoints {
  import opened Wrappers
  import opened Strings

  /** The fields of a run configuration that the loader reads. */
  datatype RunConfig = RunConfig(fdqn: bool, dim: int, autorecursive: bool, runName: string)

  /**
   * What the policy constructor receives: the checkpoint paths (`None` for freshly initialised
   * weights) and, for a factorized policy, the autorecursive flag.
   */
  datatype PolicyPlan =
    | FactorizedPlan(qNetworkPaths: Option<seq<string>>, autorecursive: bool)
    | AtomicPlan(qNetworkPath: Option<string>, targetNetworkPath: Option<string>)

  /** The episode part of a checkpoint name: `final` replaces the episode number. */
  function EpisodeTag(episode: int, final: bool): (tag: string)
    ensures tag == "final" <==> final
  {
    if final then "final" else IntToDecimal(episode)
  }

  /** `{directory}/{tag}_{network}_{i}.pth`. */
  function CheckpointFile(directory: string, tag: string, network: string, i: nat): string
  {
    directory + "/" + tag + "_" + network + "_" + NatToDecimal(i) + ".pth"
  }

  /** The Q-network files of a factorized policy, one per action dimension, in dimension order. */
  method QNetworkPaths(directory: string, tag: string, dim: int) returns (paths: seq<string>)
    ensures |paths| == Count(dim)
    ensures forall i :: 0 <= i < |paths| ==> paths[i] == CheckpointFile(directory, tag, "q_network", i)
  {
    paths := [];
    var i := 0;
    while i < dim
      invariant 0 <= i <= Count(dim)
      invariant |paths| == i
      invariant forall k :: 0 <= k < i ==> paths[k] == CheckpointFile(directory, tag, "q_network", k)
    {
      paths := paths + [CheckpointFile(directory, tag, "q_network", i)];
      i := i + 1;
    }
  }

  /** The checkpoint and flag choices of `load_policy_from_checkpoint`. */
  method LoadPolicyPlan(config: RunConfig, ckptDirectory: Option<string>, episode: int, final: bool)
    returns (plan: PolicyPlan)
    ensures plan.FactorizedPlan? <==> config.fdqn
    ensures plan.FactorizedPlan? ==>
      (plan.autorecursive <==> config.autorecursive || Contains(config.runName, "sdqn"))
    ensures plan.FactorizedPlan? ==> (plan.qNetworkPaths.None? <==> ckptDirectory.None?)
    ensures plan.FactorizedPlan? && ckptDirectory.Some? ==>
      var paths := plan.qNetworkPaths.value;
      && |paths| == Count(config.dim)
      && forall i :: 0 <= i < |paths| ==>
           paths[i] == CheckpointFile(ckptDirectory.value, EpisodeTag(episode, final), "q_network", i)
    ensures plan.AtomicPlan? ==>
      && (plan.qNetworkPath.None? <==> ckptDirectory.None?)
      && (plan.targetNetworkPath.None? <==> ckptDirectory.None?)
    ensures plan.AtomicPlan? && ckptDirectory.Some? ==>
      && plan.qNetworkPath.value == CheckpointFile(ckptDirectory.value, EpisodeTag(episode, final), "q_network", 0)
      && plan.targetNetworkPath.value == CheckpointFile(ckptDirectory.value, EpisodeTag(episode, final), "target_network", 0)
  {
    var tag := EpisodeTag(episode, final);
    if config.fdqn {
      var qNetworkPaths: Option<seq<string>>;
      match ckptDirectory {
        case None =>
          qNetworkPaths := None;
        case Some(directory) =>
          var paths := QNetworkPaths(directory, tag, config.dim);
          qNetworkPaths := Some(paths);
      }
      var autorecursive := config.autorecursive || Contains(config.runName, "sdqn");
      plan := FactorizedPlan(qNetworkPaths, autorecursive);
    } else {
      match ckptDirectory {
        case None =>
          plan := AtomicPlan(None, None);
        case Some(directory) =>
          plan := AtomicPlan(Some(CheckpointFile(directory, tag, "q_network", 0)),
                             Some(CheckpointFile(directory, tag, "target_network", 0)));
      }
    }
  }

  /** Files for different dimensions have different names, so each sub-network gets its own checkpoint. */
  lemma CheckpointFilesDistinct(directory: string, tag: string, network: string, i: nat, j: nat)
    requires CheckpointFile(directory, tag, network, i) == CheckpointFile(directory, tag, network, j)
    ensures i == j
  {
    var prefix := directory + "/" + tag + "_" + network + "_";
    var di, dj := NatToDecimal(i), NatToDecimal(j);
    assert CheckpointFile(directory, tag, network, i) == prefix + di + ".pth";
    assert CheckpointFile(directory, tag, network, j) == prefix + dj + ".pth";
    assert |di| == |dj|;
    assert di == (prefix + di + ".pth")[|prefix|..|prefix| + |di|];
    assert dj == (prefix + dj + ".pth")[|prefix|..|prefix| + |dj|];
    DecimalInjective(i, j);
  }
}
