/**
  Per-level histograms: `std::map<uint16_t, ...>` keyed by priority level,
  initialised with the eight levels at 0 and updated with `h[level] += x`.
*/
module Histograms {
  import opened Sums
  import opened Ordered

  const NUM_LEVELS: nat := 8

  /** The levels 0..7. */
  const LEVELS: set<nat> := set l: nat | l < NUM_LEVELS

  const EMPTY_HISTOGRAM: map<nat, nat> := map l: nat | l < NUM_LEVELS :: 0

  lemma LevelsRange()
    ensures LEVELS == Range(0, NUM_LEVELS)
  {
  }

  /** `h[k]` on a std::map of counters: an absent key reads as 0. */
  function Get(h: map<nat, nat>, k: nat): nat {
    if k in h then h[k] else 0
  }

  /** `h[k] += x`: inserts `k` at 0 when absent, then adds `x`. */
  function Add(h: map<nat, nat>, k: nat, x: nat): (h': map<nat, nat>)
    ensures h'.Keys == h.Keys + {k}
    ensures h'[k] == Get(h, k) + x
    ensures forall j :: j in h && j != k ==> h'[j] == h[j]
  {
    h[k := Get(h, k) + x]
  }

  /** `h[k] += x` adds `x` to the sum of the histogram. */
  lemma AddSum(h: map<nat, nat>, k: nat, x: nat)
    ensures MapSum(Add(h, k, x)) == MapSum(h) + x
  {
    MapSumUpdate(h, k, Get(h, k) + x);
  }

  lemma EmptyHistogramSum()
    ensures EMPTY_HISTOGRAM.Keys == LEVELS
    ensures MapSum(EMPTY_HISTOGRAM) == 0
  {
    MapSumZero(EMPTY_HISTOGRAM);
  }

  /** The initialising loop `for (uint16_t prio = 0; prio < 8; prio++) h[prio] = 0;`. */
  method ZeroHistogram() returns (h: map<nat, nat>)
    ensures h == EMPTY_HISTOGRAM
  {
    h := map[];
    for prio := 0 to NUM_LEVELS
      invariant forall l: nat :: l in h <==> l < prio
      invariant forall l :: l in h ==> h[l] == 0
    {
      h := h[prio := 0];
    }
    assert h.Keys == EMPTY_HISTOGRAM.Keys;
  }

  /** The values of `h` in the order a std::map iterator visits them. */
  ghost function InKeyOrder(h: map<nat, nat>): (vs: seq<nat>)
    ensures |vs| == |h.Keys|
  {
    var ks := SortedKeys(h.Keys);
    seq(|ks|, i requires 0 <= i < |ks| => h[ks[i]])
  }

  method ValuesInKeyOrder(h: map<nat, nat>) returns (vs: seq<nat>)
    ensures vs == InKeyOrder(h)
  {
    var ks := AscendingKeys(h.Keys);
    vs := [];
    for i := 0 to |ks|
      invariant |vs| == i
      invariant forall j :: 0 <= j < i ==> vs[j] == h[ks[j]]
    {
      vs := vs + [h[ks[i]]];
    }
  }

  /** The sum of a row of counters. */
  function SeqSum(s: seq<nat>): nat {
    if s == [] then 0 else s[0] + SeqSum(s[1..])
  }

  /** The least key is visited first, then the rest in key order. */
  lemma InKeyOrderUnfold(h: map<nat, nat>, m: nat)
    requires IsMin(m, h.Keys)
    ensures InKeyOrder(h) == [h[m]] + InKeyOrder(h - {m})
  {
    var h' := h - {m};
    assert h'.Keys == h.Keys - {m};
    SortedKeysUnfold(h.Keys, m);
    var ks := SortedKeys(h.Keys);
    var ks' := SortedKeys(h'.Keys);
    var a := InKeyOrder(h);
    var b := [h[m]] + InKeyOrder(h');
    forall i | 0 <= i < |a|
      ensures a[i] == b[i]
    {
      if i > 0 {
        assert ks[i] == ks'[i - 1];
      }
    }
  }

  /** Visiting a histogram in key order sees all of it: the values add up to its sum. */
  lemma {:induction false} InKeyOrderSum(h: map<nat, nat>)
    ensures SeqSum(InKeyOrder(h)) == MapSum(h)
    decreases |h|
  {
    if h != map[] {
      assert Pick(h) in h.Keys;
      var m := Min(h.Keys);
      assert (h - {m}).Keys == h.Keys - {m};
      InKeyOrderUnfold(h, m);
      var rest := InKeyOrder(h - {m});
      assert ([h[m]] + rest)[1..] == rest;
      InKeyOrderSum(h - {m});
      MapSumRemove(h, m);
    }
  }

  /** The values at levels 0..7, first to last; an absent level reads as 0. */
  function LevelRow(h: map<nat, nat>): (row: seq<nat>)
    ensures |row| == NUM_LEVELS
  {
    seq(NUM_LEVELS, l requires 0 <= l < NUM_LEVELS => Get(h, l))
  }

  /** The eight levels in ascending order are 0, 1, ..., 7. */
  lemma LevelsSorted()
    ensures SortedKeys(LEVELS) == RangeSeq(0, NUM_LEVELS)
  {
    LevelsRange();
    SortedRange(0, NUM_LEVELS);
  }

  /** On a histogram over exactly the eight levels, the visit order is level 0 to level 7. */
  lemma LevelsInKeyOrder(h: map<nat, nat>)
    requires h.Keys == LEVELS
    ensures InKeyOrder(h) == LevelRow(h)
  {
    LevelsSorted();
    var ks := SortedKeys(h.Keys);
    assert ks == RangeSeq(0, NUM_LEVELS);
    var a := InKeyOrder(h);
    var b := LevelRow(h);
    assert |a| == NUM_LEVELS;
    forall l | 0 <= l < NUM_LEVELS
      ensures a[l] == b[l]
    {
      assert ks[l] == l;
    }
  }
}
