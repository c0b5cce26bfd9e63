/**
  The host classifier's per-flow record and what one packet does to it
  (src/pbs/model/pbs.cc:173-199, 279-340), as functions on values. The
  class in module Pbs performs these steps in place.
*/
module PbsFlow {
  import opened Ints
  import opened Wrappers
  import opened Sums
  import opened Histograms
  import opened Packets
  import opened PbsLimits

  /** The flowSize of a new record, which also stands for "size not known". */
  const UNKNOWN_FLOW_SIZE: nat := 20000000

  /** One entry of rawPrioHistory: the raw score, txBytes and the flow age in ns. */
  datatype RawPrio = RawPrio(score: real, txBytes: nat, ageNs: int)

  /** FlowStats as pbs.cc uses it (it has the flowSize field pbs.h lacks). Times are in ns. */
  datatype FlowStats = FlowStats(
    timeFirstTxPacket: int,
    timeLastTxPacket: int,
    flowAge: int,
    txBytes: nat,
    flowSize: nat,
    txPackets: nat,
    firstTx: bool,
    prioHistory: map<nat, nat>,         // bytes per level
    prioPacketHistory: map<nat, nat>,   // packets per level
    rawPrioHistory: seq<RawPrio>)

  /**
    The filter's attributes. `score(age, d)` stands for the double
    `age / pow(d, alpha)` of pbs.cc:315 and 317, alpha being fixed.
  */
  datatype Config = Config(profile: nat, usePbs: bool, nonBlind: bool, score: (int, nat) -> real)

  /** The record GetStatsForFlow creates for an unseen flow (pbs.cc:180-192). */
  const NEW_FLOW_STATS: FlowStats :=
    FlowStats(0, 0, 0, 0, UNKNOWN_FLOW_SIZE, 0, true, EMPTY_HISTOGRAM, EMPTY_HISTOGRAM, [])

  function Lookup(flows: map<FlowId, FlowStats>, id: FlowId): FlowStats {
    if id in flows then flows[id] else NEW_FLOW_STATS
  }

  /** The bytes each flow has sent. */
  ghost function FlowBytes(flows: map<FlowId, FlowStats>): (b: map<FlowId, nat>)
    ensures b.Keys == flows.Keys
    ensures forall id :: id in flows ==> b[id] == flows[id].txBytes
  {
    map id | id in flows :: flows[id].txBytes
  }

  /** Both level histograms hold exactly the eight levels. */
  ghost predicate LevelKeyed(r: FlowStats) {
    r.prioHistory.Keys == LEVELS && r.prioPacketHistory.Keys == LEVELS
  }

  /** The invariant every stored record keeps while the filter runs. */
  ghost predicate FlowValid(r: FlowStats, usePbs: bool, nonBlind: bool) {
    && 0 <= r.timeFirstTxPacket <= r.timeLastTxPacket
    && r.flowAge == r.timeLastTxPacket - r.timeFirstTxPacket
    && (r.firstTx <==> r.txPackets == 0)
    && (r.firstTx ==> r.flowAge == 0)
    && (!(usePbs && nonBlind) ==> r.flowSize == UNKNOWN_FLOW_SIZE)
    && LevelKeyed(r)
    && MapSum(r.prioHistory) == r.txBytes
    && MapSum(r.prioPacketHistory) == r.txPackets
    && |r.rawPrioHistory| == (if usePbs then r.txPackets else 0)
  }

  /** pbs.cc:292-300: the first-packet time, byte and packet counts, last time and age. */
  function Touch(r: FlowStats, size: nat, now: nat): FlowStats {
    var first := if r.firstTx then now else r.timeFirstTxPacket;
    r.(timeFirstTxPacket := first,
       firstTx := false,
       txBytes := r.txBytes + size,
       txPackets := r.txPackets + 1,
       timeLastTxPacket := now,
       flowAge := now - first)
  }

  /**
    pbs.cc:307-313: while the record still holds the sentinel size, a
    FlowSizeTag on the packet is removed and its value learned.
  */
  function LearnFlowSize(r: FlowStats, pkt: Packet): (FlowStats, Packet) {
    if r.flowSize == UNKNOWN_FLOW_SIZE && pkt.flowSizeTag.Some? then
      (r.(flowSize := pkt.flowSizeTag.value), pkt.(flowSizeTag := None))
    else
      (r, pkt)
  }

  /**
    As written at pbs.cc:314: `std::max((uint64_t)1, flowSize - txBytes)`
    subtracts in 64-bit unsigned arithmetic and narrows to uint32_t.
  */
  function BytesRemainingAsWritten(flowSize: nat, txBytes: nat): (r: nat)
    ensures r < U32_LIMIT
    ensures txBytes <= flowSize < U32_LIMIT ==> r == if flowSize - txBytes == 0 then 1 else flowSize - txBytes
    ensures flowSize < txBytes < flowSize + U32_LIMIT && txBytes < U64_LIMIT ==> r == U32_LIMIT - (txBytes - flowSize)
    ensures txBytes == flowSize + U32_LIMIT < U64_LIMIT ==> r == 0
  {
    var difference := (flowSize - txBytes) % U64_LIMIT;
    var atLeastOne := if difference < 1 then 1 else difference;
    atLeastOne % U32_LIMIT
  }

  /** Bytes remaining as intended: the declared size less what was sent, and 1 once all is sent. */
  function BytesRemaining(flowSize: nat, txBytes: nat): (r: nat)
    ensures r >= 1
    ensures txBytes < flowSize ==> r + txBytes == flowSize
    ensures txBytes >= flowSize ==> r == 1
  {
    if txBytes < flowSize then flowSize - txBytes else 1
  }

  /** The correction changes nothing while no more than the declared size was sent. */
  lemma BytesRemainingAgrees(flowSize: nat, txBytes: nat)
    requires txBytes <= flowSize < U32_LIMIT
    ensures BytesRemaining(flowSize, txBytes) == BytesRemainingAsWritten(flowSize, txBytes)
  {
  }

  /** 1000 declared bytes, 1500 sent: the code computes 2^32 - 500 bytes remaining instead of 1. */
  lemma BytesRemainingWrapWitness()
    ensures BytesRemainingAsWritten(1000, 1500) == 4294966796
    ensures BytesRemaining(1000, 1500) == 1
  {
  }

  /** Sending more never leaves more remaining. */
  lemma BytesRemainingDecreases(flowSize: nat, b1: nat, b2: nat)
    requires b1 <= b2
    ensures BytesRemaining(flowSize, b2) <= BytesRemaining(flowSize, b1)
  {
  }

  /** The divisor of the score: bytes remaining (non-blind) or bytes sent (blind). */
  function Denominator(r: FlowStats, nonBlind: bool): nat {
    if nonBlind then BytesRemaining(r.flowSize, r.txBytes) else r.txBytes
  }

  /** pbs.cc:320-328: scan only when the flow has seen its first packet and has a non-zero age. */
  function Decide(r: FlowStats, limits: seq<real>, score: real): nat
    requires |limits| == NUM_LEVELS
  {
    if !r.firstTx && r.flowAge != 0 then Level(limits, score) else 0
  }

  /** pbs.cc:331-332: the packet's bytes and the packet itself go to its level. */
  function Record(r: FlowStats, level: nat, size: nat): FlowStats {
    r.(prioHistory := Add(r.prioHistory, level, size),
       prioPacketHistory := Add(r.prioPacketHistory, level, 1))
  }

  datatype Outcome =
    | Classified(level: nat)
    | InvalidProfile   // NS_FATAL_ERROR ("invalid profile specified."): the run ends

  /** What one call does to the flow's record and to the packet. */
  datatype Step = Step(outcome: Outcome, stats: FlowStats, packet: Packet)

  /** pbs.cc:307-332 once the table is built: learn the size, score, log the score, bin and record. */
  function ScoreAndBin(cfg: Config, r1: FlowStats, pkt: Packet, limits: seq<real>): Step
    requires |limits| == NUM_LEVELS
  {
    var learned := if cfg.nonBlind then LearnFlowSize(r1, pkt) else (r1, pkt);
    var r2 := learned.0;
    var score := cfg.score(r2.flowAge, Denominator(r2, cfg.nonBlind));
    var r3 := r2.(rawPrioHistory := r2.rawPrioHistory + [RawPrio(score, r2.txBytes, r2.flowAge)]);
    var level := Decide(r3, limits, score);
    Step(Classified(level), Record(r3, level, pkt.size), learned.1.(prioTag := Some(level)))
  }

  /** pbs.cc:302-339: everything after the counters are touched, in both modes. */
  function Bin(cfg: Config, r1: FlowStats, pkt: Packet): Step {
    if !cfg.usePbs then
      Step(Classified(0), Record(r1, 0, pkt.size), pkt.(prioTag := Some(0)))
    else
      match LimitsFor(cfg.profile, cfg.nonBlind)
      case None => Step(InvalidProfile, r1, pkt)
      case Some(limits) => ScoreAndBin(cfg, r1, pkt, limits)
  }

  /** DoClassify's effect on the record of the packet's flow (pbs.cc:290-339), with level 0 as the scan's floor. */
  function Classify(cfg: Config, r0: FlowStats, pkt: Packet, now: nat): Step {
    Bin(cfg, Touch(r0, pkt.size, now), pkt)
  }

  // ---------------------------------------------------------------------------
  // Properties of one call

  lemma NewFlowStatsValid(usePbs: bool, nonBlind: bool)
    ensures FlowValid(NEW_FLOW_STATS, usePbs, nonBlind)
  {
    EmptyHistogramSum();
  }

  /** The counters advance on every call, whether or not the profile is valid. */
  lemma ClassifyCounters(cfg: Config, r0: FlowStats, pkt: Packet, now: nat)
    ensures var r := Classify(cfg, r0, pkt, now).stats;
      && r.txBytes == r0.txBytes + pkt.size
      && r.txPackets == r0.txPackets + 1
      && !r.firstTx
      && r.timeFirstTxPacket == (if r0.firstTx then now else r0.timeFirstTxPacket)
      && r.timeLastTxPacket == now
      && r.flowAge == r.timeLastTxPacket - r.timeFirstTxPacket
  {
  }

  /** With the clock not going back, the age never shrinks, and it is 0 on the first packet. */
  lemma ClassifyAge(cfg: Config, r0: FlowStats, pkt: Packet, now: nat)
    requires FlowValid(r0, cfg.usePbs, cfg.nonBlind)
    requires r0.timeLastTxPacket <= now
    ensures Classify(cfg, r0, pkt, now).stats.flowAge >= r0.flowAge
    ensures r0.firstTx ==> Classify(cfg, r0, pkt, now).stats.flowAge == 0
  {
  }

  /**
    The level rule: 0 when PBS is off (and no score is logged); otherwise
    one score is logged and the level is 0 exactly when the age is 0 and
    else the scan's result. The `!firstTx` half of the guard always holds.
  */
  lemma ClassifyLevel(cfg: Config, r0: FlowStats, pkt: Packet, now: nat)
    ensures var st := Classify(cfg, r0, pkt, now);
      !cfg.usePbs ==> st.outcome == Classified(0) && st.stats.rawPrioHistory == r0.rawPrioHistory
    ensures var st := Classify(cfg, r0, pkt, now);
      cfg.usePbs && LimitsFor(cfg.profile, cfg.nonBlind).None? ==> st.outcome == InvalidProfile
    ensures var st := Classify(cfg, r0, pkt, now);
      cfg.usePbs && LimitsFor(cfg.profile, cfg.nonBlind).Some? ==>
        var limits := LimitsFor(cfg.profile, cfg.nonBlind).value;
        var score := cfg.score(st.stats.flowAge, Denominator(st.stats, cfg.nonBlind));
        && st.stats.rawPrioHistory == r0.rawPrioHistory + [RawPrio(score, st.stats.txBytes, st.stats.flowAge)]
        && st.outcome == Classified(if st.stats.flowAge == 0 then 0 else Level(limits, score))
  {
  }

  /** A flow's first packet gets level 0 in every mode. */
  lemma FirstPacketLevelZero(cfg: Config, pkt: Packet, now: nat)
    requires LimitsFor(cfg.profile, cfg.nonBlind).Some? || !cfg.usePbs
    ensures Classify(cfg, NEW_FLOW_STATS, pkt, now).outcome == Classified(0)
    ensures Classify(cfg, NEW_FLOW_STATS, pkt, now).stats.flowAge == 0
  {
  }

  /**
    A classified packet lands in a level 0..7, its bytes and one packet are
    added to that level, and the tag it leaves with carries that level.
  */
  lemma ClassifyRecords(cfg: Config, r0: FlowStats, pkt: Packet, now: nat)
    requires Classify(cfg, r0, pkt, now).outcome.Classified?
    ensures var st := Classify(cfg, r0, pkt, now);
      var l := st.outcome.level;
      && l < NUM_LEVELS
      && st.packet.prioTag == Some(l)
      && st.stats.prioHistory == Add(r0.prioHistory, l, pkt.size)
      && st.stats.prioPacketHistory == Add(r0.prioPacketHistory, l, 1)
  {
  }

  /** Even the call that ends the run leaves the record's level histograms over the eight levels. */
  lemma ClassifyKeepsHistogramKeys(cfg: Config, r0: FlowStats, pkt: Packet, now: nat)
    requires LevelKeyed(r0)
    ensures LevelKeyed(Classify(cfg, r0, pkt, now).stats)
  {
    if Classify(cfg, r0, pkt, now).outcome.Classified? {
      ClassifyRecords(cfg, r0, pkt, now);
    }
  }

  /** Every call keeps the record's invariant: histogram sums equal the byte and packet counts. */
  lemma ClassifyKeepsFlowValid(cfg: Config, r0: FlowStats, pkt: Packet, now: nat)
    requires FlowValid(r0, cfg.usePbs, cfg.nonBlind)
    requires r0.timeLastTxPacket <= now
    requires Classify(cfg, r0, pkt, now).outcome.Classified?
    ensures FlowValid(Classify(cfg, r0, pkt, now).stats, cfg.usePbs, cfg.nonBlind)
  {
    var r := Classify(cfg, r0, pkt, now).stats;
    ClassifyCounters(cfg, r0, pkt, now);
    ClassifyRecords(cfg, r0, pkt, now);
    ClassifyLevel(cfg, r0, pkt, now);
    ClassifyFlowSize(cfg, r0, pkt, now);
    AddSum(r0.prioHistory, Classify(cfg, r0, pkt, now).outcome.level, pkt.size);
    AddSum(r0.prioPacketHistory, Classify(cfg, r0, pkt, now).outcome.level, 1);
    assert LevelKeyed(r);
    assert MapSum(r.prioHistory) == r.txBytes && MapSum(r.prioPacketHistory) == r.txPackets;
    assert |r.rawPrioHistory| == (if cfg.usePbs then r.txPackets else 0);
  }

  /**
    The FlowSizeTag is read and removed only while the sentinel is held; a
    learned size never changes afterwards.
  */
  lemma ClassifyFlowSize(cfg: Config, r0: FlowStats, pkt: Packet, now: nat)
    ensures var st := Classify(cfg, r0, pkt, now);
      r0.flowSize != UNKNOWN_FLOW_SIZE ==>
        st.stats.flowSize == r0.flowSize && st.packet.flowSizeTag == pkt.flowSizeTag
    ensures var st := Classify(cfg, r0, pkt, now);
      cfg.usePbs && cfg.nonBlind && LimitsFor(cfg.profile, cfg.nonBlind).Some?
      && r0.flowSize == UNKNOWN_FLOW_SIZE && pkt.flowSizeTag.Some? ==>
        st.stats.flowSize == pkt.flowSizeTag.value && st.packet.flowSizeTag.None?
    ensures var st := Classify(cfg, r0, pkt, now);
      !(cfg.usePbs && cfg.nonBlind) ==>
        st.stats.flowSize == r0.flowSize && st.packet.flowSizeTag == pkt.flowSizeTag
  {
  }

  /** A declared size equal to the sentinel leaves the record exactly as no tag at all would. */
  lemma SentinelSizeIsUnknown(cfg: Config, r0: FlowStats, pkt: Packet, now: nat)
    requires pkt.flowSizeTag == Some(UNKNOWN_FLOW_SIZE)
    ensures Classify(cfg, r0, pkt, now).stats == Classify(cfg, r0, pkt.(flowSizeTag := None), now).stats
  {
  }
}
