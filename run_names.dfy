/** `translate_run_name`: map a run identifier to the method label used in the plots. */
module RunNames {
  import opened Strings

  /** Markers of each method, in the order they are checked. */
  predicate MarksDDQN(s: string) { Contains(s, "adqn") || Contains(s, "ddqn") }
  predicate MarksSAQL(s: string) { Contains(s, "fdqn_a") || Contains(s, "saql") }
  predicate MarksIQL(s: string) { Contains(s, "fdqn") || Contains(s, "iql") }
  predicate MarksSimSDQN(s: string) { Contains(s, "sdqn") }

  /**
   * Markers are checked in a fixed order so that the more specific `fdqn_a` is seen
   * before the plain `fdqn`; a name with no marker is returned unchanged.
   */
  function TranslateRunName(runName: string): (translated: string)
    ensures MarksDDQN(runName) ==> translated == "DDQN"
    ensures !MarksDDQN(runName) && MarksSAQL(runName) ==> translated == "SAQL"
    ensures !MarksDDQN(runName) && !MarksSAQL(runName) && MarksIQL(runName) ==> translated == "IQL"
    ensures !MarksDDQN(runName) && !MarksSAQL(runName) && !MarksIQL(runName) && MarksSimSDQN(runName) ==>
      translated == "simSDQN"
    ensures !MarksDDQN(runName) && !MarksSAQL(runName) && !MarksIQL(runName) && !MarksSimSDQN(runName) ==>
      translated == runName
  {
    if MarksDDQN(runName) then "DDQN"
    else if MarksSAQL(runName) then "SAQL"
    else if MarksIQL(runName) then "IQL"
    else if MarksSimSDQN(runName) then "simSDQN"
    else runName
  }

  /** The labels the translation produces. */
  predicate IsLabel(s: string)
  {
    s == "DDQN" || s == "SAQL" || s == "IQL" || s == "simSDQN"
  }

  /** The result is one of the four labels, or the input itself when it names no method. */
  lemma TranslateRange(runName: string)
    ensures IsLabel(TranslateRunName(runName)) || TranslateRunName(runName) == runName
  {
  }

  /** No label contains a lower-case marker, so each label translates to itself. */
  lemma {:induction false} LabelIsFixedPoint(lbl: string)
    requires IsLabel(lbl)
    ensures TranslateRunName(lbl) == lbl
  {
    // every marker's second character is one no label holds
    MissingCharNotContained(lbl, "adqn", 1);
    MissingCharNotContained(lbl, "ddqn", 1);
    MissingCharNotContained(lbl, "fdqn_a", 1);
    MissingCharNotContained(lbl, "saql", 1);
    MissingCharNotContained(lbl, "fdqn", 1);
    MissingCharNotContained(lbl, "iql", 1);
    MissingCharNotContained(lbl, "sdqn", 1);
  }

  /** Translating an already translated name changes nothing. */
  lemma TranslateIdempotent(runName: string)
    ensures TranslateRunName(TranslateRunName(runName)) == TranslateRunName(runName)
  {
    var lbl := TranslateRunName(runName);
    if IsLabel(lbl) {
      LabelIsFixedPoint(lbl);
    }
  }

  /** Worked example: a double-DQN run. */
  lemma TranslateExampleDDQN(s: string)
    requires s == "exp_ddqn_seed0"
    ensures TranslateRunName(s) == "DDQN"
  {
    assert Contains(s, "ddqn") by { ContainsWitness(s, "ddqn", 4); }
  }

  /** Worked example: the autoregressive factorized marker wins over the plain one. */
  lemma TranslateExampleSAQL(s: string)
    requires s == "exp_fdqn_a_seed3"
    ensures TranslateRunName(s) == "SAQL"
  {
    assert !Contains(s, "adqn") by { NoAdjacentPairNotContained(s, "adqn"); }
    assert !Contains(s, "ddqn") by { NoAdjacentPairNotContained(s, "ddqn"); }
    assert Contains(s, "fdqn_a") by { ContainsWitness(s, "fdqn_a", 4); }
  }

  /** Worked example: the plain factorized marker. */
  lemma TranslateExampleIQL(s: string)
    requires s == "exp_fdqn_seed1"
    ensures TranslateRunName(s) == "IQL"
  {
    assert !Contains(s, "adqn") by { MissingCharNotContained(s, "adqn", 0); }
    assert !Contains(s, "ddqn") by { NoAdjacentPairNotContained(s, "ddqn"); }
    assert !Contains(s, "fdqn_a") by { MissingCharNotContained(s, "fdqn_a", 5); }
    assert !Contains(s, "saql") by { MissingCharNotContained(s, "saql", 1); }
    assert Contains(s, "fdqn") by { ContainsWitness(s, "fdqn", 4); }
  }

  /** Worked example: the simultaneous marker. */
  lemma TranslateExampleSimSDQN(s: string)
    requires s == "exp_sdqn_seed2"
    ensures TranslateRunName(s) == "simSDQN"
  {
    SimSDQNExampleIsNotDDQN(s);
    SimSDQNExampleIsNotSAQL(s);
    SimSDQNExampleIsNotIQL(s);
    assert MarksSimSDQN(s) by { ContainsWitness(s, "sdqn", 4); }
  }

  /** The simultaneous example holds neither double-DQN marker. */
  lemma SimSDQNExampleIsNotDDQN(s: string)
    requires s == "exp_sdqn_seed2"
    ensures !MarksDDQN(s)
  {
    MissingCharNotContained(s, "adqn", 0);
    NoAdjacentPairNotContained(s, "ddqn");
  }

  /** The simultaneous example holds neither autoregressive marker. */
  lemma SimSDQNExampleIsNotSAQL(s: string)
    requires s == "exp_sdqn_seed2"
    ensures !MarksSAQL(s)
  {
    MissingCharNotContained(s, "fdqn_a", 0);
    MissingCharNotContained(s, "saql", 1);
  }

  /** The simultaneous example holds neither independent-learner marker. */
  lemma SimSDQNExampleIsNotIQL(s: string)
    requires s == "exp_sdqn_seed2"
    ensures !MarksIQL(s)
  {
    MissingCharNotContained(s, "fdqn", 0);
    MissingCharNotContained(s, "iql", 0);
  }

  /** Worked example: a name without any marker is kept. */
  lemma TranslateExampleUnchanged(s: string)
    requires s == "unrecognized_tag"
    ensures TranslateRunName(s) == "unrecognized_tag"
  {
    assert !Contains(s, "adqn") by { MissingCharNotContained(s, "adqn", 2); }
    assert !Contains(s, "ddqn") by { MissingCharNotContained(s, "ddqn", 2); }
    assert !Contains(s, "fdqn_a") by { MissingCharNotContained(s, "fdqn_a", 0); }
    assert !Contains(s, "saql") by { MissingCharNotContained(s, "saql", 2); }
    assert !Contains(s, "fdqn") by { MissingCharNotContained(s, "fdqn", 0); }
    assert !Contains(s, "iql") by { MissingCharNotContained(s, "iql", 1); }
    assert !Contains(s, "sdqn") by { MissingCharNotContained(s, "sdqn", 2); }
  }
}
