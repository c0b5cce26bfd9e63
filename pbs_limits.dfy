/**
  The threshold tables of the host classifier (src/pbs/model/pbs.cc:201-255)
  and the rule that bins a raw score into one of the eight levels
  (src/pbs/model/pbs.cc:320-330).
*/
module PbsLimits {
  import opened Wrappers
  import opened Histograms

  // Workloads W1..W5 (tuned for alpha = 10), non-blind and blind.
  const W1_NON_BLIND: seq<real> := [1.64e-08, 3.15e-19, 6.08e-30, 1.17e-40, 2.26e-51, 4.37e-62, 8.42e-72, 1.62e-83]
  const W1_BLIND: seq<real> := [2.5e-19, 1e-21, 4.4e-24, 1.9e-26, 7.8e-29, 3.3e-31, 1.4e-33, 5.8e-36]
  const W2_NON_BLIND: seq<real> := [3.7e-07, 4.8e-18, 6.3e-29, 8.24e-40, 1.07e-50, 1.41e-61, 1.84e-72, 3.13e-94]
  const W2_BLIND: seq<real> := [6.1e-20, 1.5e-23, 3.6e-27, 8.7e-31, 2.1e-34, 5.1e-38, 1.2e-41, 2.9e-45]
  const W3_NON_BLIND: seq<real> := [4.08e-06, 3.95e-17, 3.82e-28, 3.69e-39, 3.58e-50, 3.45e-61, 3.34e-72, 3.24e-82]
  const W3_BLIND: seq<real> := [5.8e-21, 7.3e-26, 9e-31, 1.1e-35, 1.3e-40, 1.6e-45, 2e-50, 2.5e-55]
  const W4_NON_BLIND: seq<real> := [1.62e-05, 1.32e-16, 1.07e-27, 8.76e-39, 7.13e-50, 5.8e-61, 4.72e-72, 3.84e-83]
  const W4_BLIND: seq<real> := [2.6e-21, 1.2e-26, 5.3e-32, 2.4e-37, 1.1e-42, 4.9e-48, 2.2e-53, 1e-58]
  const W5_NON_BLIND: seq<real> := [4.71e-05, 3.94e-16, 3.3e-27, 2.76e-38, 2.31e-49, 1.94e-60, 1.62e-71, 1.36e-82]
  const W5_BLIND: seq<real> := [1.2e-21, 2.7e-27, 6e-33, 1.3e-38, 3e-44, 6.5e-50, 1.4e-55, 3.2e-61]
  // Profile 6 (incast) and profile 7 (background flows), whatever the mode.
  const INCAST: seq<real> := [2.6e-21, 1.2e-26, 5.3e-32, 2.4e-37, 1.1e-42, 4.9e-48, 2.2e-53, 1e-58]
  const BACKGROUND: seq<real> := [1.2e-21, 2.7e-27, 6e-33, 1.3e-38, 3e-44, 6.5e-50, 1.4e-55, 3.2e-61]

  ghost predicate StrictlyDecreasing(t: seq<real>) {
    forall i, j :: 0 <= i < j < |t| ==> t[i] > t[j]
  }

  predicate AdjacentDecreasing(t: seq<real>) {
    forall i :: 0 <= i < |t| - 1 ==> t[i] > t[i + 1]
  }

  lemma {:induction false} AdjacentToStrict(t: seq<real>)
    requires AdjacentDecreasing(t)
    ensures StrictlyDecreasing(t)
    decreases |t|
  {
    if |t| > 1 {
      AdjacentToStrict(t[1..]);
      assert forall j :: 1 <= j < |t| ==> t[j] == t[1..][j - 1];
      assert forall j :: 1 < j < |t| ==> t[1] > t[j];
    }
  }

  /** A table as the classifier needs it: eight strictly decreasing limits. */
  ghost predicate IsTable(t: seq<real>) {
    |t| == NUM_LEVELS && StrictlyDecreasing(t)
  }

  /**
    The table MakePrioLimits selects: None for a profile outside 1..7, the
    fatal "invalid profile specified" (the Profile attribute defaults to 0).
  */
  function LimitsFor(profile: nat, nonBlind: bool): (r: Option<seq<real>>)
    ensures r.Some? <==> 1 <= profile <= 7
    ensures r.Some? ==> IsTable(r.value)
    ensures profile == 6 ==> r == Some(W4_BLIND)
    ensures profile == 7 ==> r == Some(W5_BLIND)
  {
    var t :=
      match profile
      case 1 => Some(if nonBlind then W1_NON_BLIND else W1_BLIND)
      case 2 => Some(if nonBlind then W2_NON_BLIND else W2_BLIND)
      case 3 => Some(if nonBlind then W3_NON_BLIND else W3_BLIND)
      case 4 => Some(if nonBlind then W4_NON_BLIND else W4_BLIND)
      case 5 => Some(if nonBlind then W5_NON_BLIND else W5_BLIND)
      case 6 => Some(INCAST)
      case 7 => Some(BACKGROUND)
      case _ => None;
    if t.Some? then AdjacentToStrict(t.value); t else t
  }

  /** Profiles 1..5 have a distinct table per mode; profiles 6 and 7 ignore the mode. */
  lemma ModeSelectsTable(profile: nat)
    requires 1 <= profile <= 7
    ensures profile <= 5 <==> LimitsFor(profile, true) != LimitsFor(profile, false)
  {
    match profile
    case 1 => assert W1_NON_BLIND[0] != W1_BLIND[0];
    case 2 => assert W2_NON_BLIND[0] != W2_BLIND[0];
    case 3 => assert W3_NON_BLIND[0] != W3_BLIND[0];
    case 4 => assert W4_NON_BLIND[0] != W4_BLIND[0];
    case 5 => assert W5_NON_BLIND[0] != W5_BLIND[0];
    case 6 =>
    case 7 =>
  }

  /** The highest level at most `i` whose limit the score does not exceed, or 0. */
  function LevelFrom(limits: seq<real>, score: real, i: nat): (l: nat)
    requires i < |limits|
    ensures l <= i
    ensures l > 0 ==> score <= limits[l]
    ensures forall j :: l < j <= i ==> score > limits[j]
    ensures score <= limits[0] ==> score <= limits[l]
    decreases i
  {
    if score <= limits[i] then i else if i == 0 then 0 else LevelFrom(limits, score, i - 1)
  }

  /**
    The level of a score: the highest L in 7..0 with score <= limits[L];
    level 0 is also the floor when the score exceeds every limit.
  */
  function Level(limits: seq<real>, score: real): (l: nat)
    requires |limits| == NUM_LEVELS
    ensures l < NUM_LEVELS
    ensures l > 0 ==> score <= limits[l]
    ensures forall j :: l < j < NUM_LEVELS ==> score > limits[j]
    ensures score <= limits[0] ==> score <= limits[l]
  {
    LevelFrom(limits, score, NUM_LEVELS - 1)
  }

  /** On a decreasing table, level k >= 1 is reached exactly when the score is within limit k. */
  lemma LevelIff(limits: seq<real>, score: real, k: nat)
    requires IsTable(limits)
    requires 1 <= k < NUM_LEVELS
    ensures score <= limits[k] <==> k <= Level(limits, score)
  {
    var l := Level(limits, score);
    if k <= l && l > 0 {
      assert limits[k] >= limits[l];
    }
  }

  /** A larger score never gets a higher level. */
  lemma LevelMonotone(limits: seq<real>, s1: real, s2: real)
    requires IsTable(limits)
    requires s1 <= s2
    ensures Level(limits, s2) <= Level(limits, s1)
  {
    var l2 := Level(limits, s2);
    if l2 > 0 {
      LevelIff(limits, s1, l2);
    }
  }

  /**
    The scan of pbs.cc:321-325 with level 0 as the floor: from level 7 down,
    stop at the first level whose limit the score does not exceed.
  */
  method ScanLevel(limits: array<real>, score: real) returns (level: nat)
    requires limits.Length == NUM_LEVELS
    ensures level == Level(limits[..], score)
  {
    level := NUM_LEVELS - 1;
    while level > 0 && score > limits[level]
      invariant level < NUM_LEVELS
      invariant forall j :: level < j < NUM_LEVELS ==> score > limits[j]
    {
      level := level - 1;
    }
  }

  datatype ScanOutcome =
    | InTable(level: nat)     // the loop stopped at this level
    | PastTable(index: nat)   // the loop went on to read m_prioLimits[index], outside the array

  /**
    The scan as written: `bin_prio` is a uint8_t, so `bin_prio >= 0` always
    holds and decrementing 0 wraps to 255. A score above every limit makes
    the loop read m_prioLimits[255].
  */
  method ScanAsWritten(limits: array<real>, score: real) returns (outcome: ScanOutcome)
    requires limits.Length == NUM_LEVELS
    ensures outcome.PastTable? <==> forall j :: 0 <= j < NUM_LEVELS ==> score > limits[j]
    ensures outcome.PastTable? ==> outcome.index == 255
    ensures outcome.InTable? ==> outcome.level == Level(limits[..], score)
  {
    var binPrio: bv8 := 7;
    while true  // the source's guard, bin_prio >= 0, holds for every uint8_t
      invariant binPrio < 8 || binPrio == 255
      invariant binPrio < 8 ==> forall j :: binPrio as int < j < NUM_LEVELS ==> score > limits[j]
      invariant binPrio == 255 ==> forall j :: 0 <= j < NUM_LEVELS ==> score > limits[j]
      decreases if binPrio < 8 then binPrio as int + 1 else 0
    {
      if binPrio as int >= limits.Length {
        return PastTable(binPrio as nat);
      }
      if score <= limits[binPrio] {
        return InTable(binPrio as nat);
      }
      binPrio := binPrio - 1;
    }
  }

  /** On a decreasing table the scan runs past it exactly when the score exceeds limit 0. */
  lemma ExceedsAll(limits: seq<real>, score: real)
    requires IsTable(limits)
    ensures (forall j :: 0 <= j < NUM_LEVELS ==> score > limits[j]) <==> score > limits[0]
  {
  }

  /** A score of 1 under profile 1's blind table (every limit is below 1e-18) drives the scan past the table. */
  method ScanOverflowWitness() returns (outcome: ScanOutcome)
    ensures outcome == PastTable(255)
  {
    var table := LimitsFor(1, false).value;
    var limits := new real[NUM_LEVELS](i requires 0 <= i < NUM_LEVELS => table[i]);
    assert table == W1_BLIND;
    assert limits[0] == 2.5e-19;
    outcome := ScanAsWritten(limits, 1.0);
  }

  /** The scenario of profile 1, blind mode: a second packet after 2920 bytes and 20000 ns scores 20000 / 2920^10, level 4. */
  lemma W1BlindScenario()
    ensures Level(LimitsFor(1, false).value, 20000.0 / 45063873020072376653578240000000000.0) == 4
  {
    assert LimitsFor(1, false).value == W1_BLIND;
    var score := 20000.0 / 45063873020072376653578240000000000.0;
    assert score <= W1_BLIND[4];
    assert score > W1_BLIND[5] && score > W1_BLIND[6] && score > W1_BLIND[7];
  }
}
