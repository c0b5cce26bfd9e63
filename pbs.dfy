/**
  The host-side classifier PbsPacketFilter (src/pbs/model/pbs.cc): its
  per-flow records, its byte totals and per-nanosecond load, the threshold
  table it rebuilds, and DoClassify, which bins every packet into a level.
*/
module Pbs {
  import opened Ints
  import opened Wrappers
  import opened Sums
  import opened Ordered
  import opened Histograms
  import opened Text
  import opened Packets
  import opened PbsLimits
  import opened PbsFlow
  import opened Load

  /** Which of a record's two level histograms a report shows. */
  datatype Measure = Bytes | Packets

  function Histogram(r: FlowStats, measure: Measure): map<nat, nat> {
    match measure
    case Bytes => r.prioHistory
    case Packets => r.prioPacketHistory
  }

  /**
    The fields of a report (pbs.cc:131-165), one row per flow in ascending
    flow id: the id, then the values of the histogram `measure` picks, in
    ascending level.
  */
  method ReportTable(flows: map<FlowId, FlowStats>, ids: seq<FlowId>, measure: Measure) returns (table: seq<seq<nat>>)
    requires forall i :: 0 <= i < |ids| ==> ids[i] in flows
    ensures |table| == |ids|
    ensures forall i :: 0 <= i < |ids| ==> table[i] == [ids[i]] + InKeyOrder(Histogram(flows[ids[i]], measure))
  {
    table := [];
    for i := 0 to |ids|
      invariant |table| == i
      invariant forall j :: 0 <= j < i ==> table[j] == [ids[j]] + InKeyOrder(Histogram(flows[ids[j]], measure))
    {
      var values := ValuesInKeyOrder(Histogram(flows[ids[i]], measure));
      table := table + [[ids[i]] + values];
    }
  }

  /** Over level-keyed histograms, every report row holds the flow id and its values at levels 0..7. */
  lemma ReportTableLevels(flows: map<FlowId, FlowStats>, measure: Measure, ids: seq<FlowId>, table: seq<seq<nat>>)
    requires forall i :: 0 <= i < |ids| ==> ids[i] in flows
    requires |table| == |ids|
    requires forall i :: 0 <= i < |ids| ==> table[i] == [ids[i]] + InKeyOrder(Histogram(flows[ids[i]], measure))
    requires AllLevelKeyed(flows)
    ensures forall i :: 0 <= i < |ids| ==> table[i] == [ids[i]] + LevelRow(Histogram(flows[ids[i]], measure))
  {
    forall i | 0 <= i < |ids|
      ensures table[i] == [ids[i]] + LevelRow(Histogram(flows[ids[i]], measure))
    {
      LevelsInKeyOrder(Histogram(flows[ids[i]], measure));
    }
  }

  /** A report over level-keyed records: in ascending flow id, rows that read back as the id and the eight level values. */
  method LevelReport(flows: map<FlowId, FlowStats>, measure: Measure) returns (ids: seq<FlowId>, rows: seq<string>)
    requires AllLevelKeyed(flows)
    ensures ids == SortedKeys(flows.Keys)
    ensures |rows| == |ids|
    ensures forall i :: 0 <= i < |ids| ==> rows[i] == CsvRow([ids[i]] + LevelRow(Histogram(flows[ids[i]], measure)))
    ensures forall i :: 0 <= i < |ids| ==> ParseRow(rows[i]) == [ids[i]] + LevelRow(Histogram(flows[ids[i]], measure))
  {
    ids := AscendingKeys(flows.Keys);
    var table := ReportTable(flows, ids, measure);
    ReportTableLevels(flows, measure, ids, table);
    rows := Render(table);
  }

  ghost predicate AllBefore(flows: map<FlowId, FlowStats>, now: int) {
    forall id :: id in flows ==> flows[id].timeLastTxPacket <= now
  }

  ghost predicate AllLevelKeyed(flows: map<FlowId, FlowStats>) {
    forall id :: id in flows ==> LevelKeyed(flows[id])
  }

  ghost predicate AllFlowValid(flows: map<FlowId, FlowStats>, usePbs: bool, nonBlind: bool) {
    forall id :: id in flows ==> FlowValid(flows[id], usePbs, nonBlind)
  }

  /**
    The flows' byte counts add up to the total, no record lies after the
    clock, and every record keeps its invariant until a fatal error.
  */
  ghost predicate FlowsInvariant(cfg: Config, total: nat, flows: map<FlowId, FlowStats>, clock: nat, aborted: bool) {
    && MapSum(FlowBytes(flows)) == total
    && AllBefore(flows, clock)
    && AllLevelKeyed(flows)
    && (!aborted ==> AllFlowValid(flows, cfg.usePbs, cfg.nonBlind))
  }

  /** Replacing the record of `id` changes the flows' byte sum by the difference of the two records. */
  lemma WriteBackSum(flows: map<FlowId, FlowStats>, id: FlowId, r: FlowStats, size: nat)
    requires r.txBytes == Lookup(flows, id).txBytes + size
    ensures MapSum(FlowBytes(flows[id := r])) == MapSum(FlowBytes(flows)) + size
  {
    assert FlowBytes(flows[id := r]) == FlowBytes(flows)[id := r.txBytes];
    MapSumUpdate(FlowBytes(flows), id, r.txBytes);
  }

  lemma WriteBackBefore(flows: map<FlowId, FlowStats>, id: FlowId, r: FlowStats, clock: nat, now: nat)
    requires AllBefore(flows, clock) && clock <= now && r.timeLastTxPacket <= now
    ensures AllBefore(flows[id := r], now)
  {
  }

  lemma WriteBackLevelKeyed(flows: map<FlowId, FlowStats>, id: FlowId, r: FlowStats)
    requires AllLevelKeyed(flows) && LevelKeyed(r)
    ensures AllLevelKeyed(flows[id := r])
  {
  }

  lemma WriteBackFlowValid(flows: map<FlowId, FlowStats>, id: FlowId, r: FlowStats, usePbs: bool, nonBlind: bool)
    requires AllFlowValid(flows, usePbs, nonBlind) && FlowValid(r, usePbs, nonBlind)
    ensures AllFlowValid(flows[id := r], usePbs, nonBlind)
  {
  }

  /**
    Replacing the record of `id` by one `size` bytes further on, stamped no
    later than `now`, keyed by the eight levels and still valid unless the
    step aborted, keeps the flows' invariant.
  */
  lemma WriteBackKeepsFlowsInvariant(cfg: Config, total: nat, flows: map<FlowId, FlowStats>, clock: nat,
                                     id: FlowId, r: FlowStats, size: nat, now: nat, aborted: bool)
    requires FlowsInvariant(cfg, total, flows, clock, false)
    requires clock <= now
    requires r.txBytes == Lookup(flows, id).txBytes + size
    requires r.timeLastTxPacket <= now
    requires LevelKeyed(r)
    requires !aborted ==> FlowValid(r, cfg.usePbs, cfg.nonBlind)
    ensures FlowsInvariant(cfg, total + size, flows[id := r], now, aborted)
  {
    WriteBackSum(flows, id, r, size);
    WriteBackBefore(flows, id, r, clock, now);
    WriteBackLevelKeyed(flows, id, r);
    if !aborted {
      WriteBackFlowValid(flows, id, r, cfg.usePbs, cfg.nonBlind);
    }
  }

  /** The record DoClassify works on, stored or fresh, meets the per-record invariant. */
  lemma LookupKeepsInvariant(cfg: Config, total: nat, flows: map<FlowId, FlowStats>, clock: nat, id: FlowId)
    requires FlowsInvariant(cfg, total, flows, clock, false)
    ensures var r := Lookup(flows, id);
      && r.timeLastTxPacket <= clock
      && LevelKeyed(r)
      && FlowValid(r, cfg.usePbs, cfg.nonBlind)
  {
    if id !in flows {
      NewFlowStatsValid(cfg.usePbs, cfg.nonBlind);
    }
  }

  /** One DoClassify step on the flows keeps their invariant; a fatal error keeps all but the record invariant. */
  lemma ClassifyKeepsFlowsInvariant(cfg: Config, total: nat, flows: map<FlowId, FlowStats>, clock: nat, pkt: Packet, now: nat)
    requires FlowsInvariant(cfg, total, flows, clock, false)
    requires clock <= now
    ensures var st := Classify(cfg, Lookup(flows, pkt.hash), pkt, now);
      FlowsInvariant(cfg, total + pkt.size, flows[pkt.hash := st.stats], now, st.outcome.InvalidProfile?)
  {
    var r0 := Lookup(flows, pkt.hash);
    var st := Classify(cfg, r0, pkt, now);
    LookupKeepsInvariant(cfg, total, flows, clock, pkt.hash);
    ClassifyCounters(cfg, r0, pkt, now);
    ClassifyKeepsHistogramKeys(cfg, r0, pkt, now);
    if st.outcome.Classified? {
      ClassifyKeepsFlowValid(cfg, r0, pkt, now);
    }
    WriteBackKeepsFlowsInvariant(cfg, total, flows, clock, pkt.hash, st.stats, pkt.size, now, st.outcome.InvalidProfile?);
  }

  class PbsPacketFilter {
    const config: Config
    /** m_prioLimits[8], refilled by MakePrioLimits on every PBS-classified packet. */
    const prioLimits: array<real>
    /** m_totalBytes */
    var totalBytes: nat
    /** m_flowStats */
    var flowStats: map<FlowId, FlowStats>
    /** m_loadAtTime: bytes seen in each nanosecond */
    var loadAtTime: map<nat, nat>
    /** The time of the latest call; the simulator's clock never goes back. */
    ghost var clock: nat
    /** A fatal error (an invalid profile) has ended the run. */
    ghost var aborted: bool

    ghost predicate Valid()
      reads this`totalBytes, this`loadAtTime, this`flowStats, this`clock, this`aborted
    {
      && prioLimits.Length == NUM_LEVELS
      && LoadInvariant(totalBytes, loadAtTime, clock)
      && FlowsInvariant(config, totalBytes, flowStats, clock, aborted)
    }

    constructor (config: Config)
      ensures Valid()
      ensures this.config == config && fresh(prioLimits)
      ensures totalBytes == 0 && flowStats == map[] && loadAtTime == map[]
      ensures clock == 0 && !aborted
    {
      this.config := config;
      prioLimits := new real[NUM_LEVELS];
      totalBytes := 0;
      flowStats := map[];
      loadAtTime := map[];
      clock := 0;
      aborted := false;
      new;
      assert FlowBytes(flowStats) == map[];
    }

    /** m_totalBytes, which equals the sum of the load buckets and the sum of the flows' byte counts. */
    function GetTotalBytes(): (n: nat)
      reads this
      requires Valid()
      ensures n == MapSum(loadAtTime)
      ensures n == MapSum(FlowBytes(flowStats))
    {
      totalBytes
    }

    /** A copy of m_loadAtTime: its buckets add up to the total bytes and none lies in the future. */
    function PeekLoadAtTime(): (load: map<nat, nat>)
      reads this
      requires Valid()
      ensures MapSum(load) == GetTotalBytes()
      ensures forall t :: t in load ==> t <= clock
    {
      loadAtTime
    }

    /** The record of `flowId`, created with zero counters and empty level histograms if unseen. */
    method GetStatsForFlow(flowId: FlowId) returns (stats: FlowStats)
      modifies this`flowStats
      ensures flowStats == if flowId in old(flowStats) then old(flowStats)
                           else old(flowStats)[flowId := NEW_FLOW_STATS]
      ensures stats == flowStats[flowId] == Lookup(old(flowStats), flowId)
    {
      if flowId !in flowStats {
        var prioHistory := ZeroHistogram();
        var prioPacketHistory := ZeroHistogram();
        var ref := FlowStats(0, 0, 0, 0, UNKNOWN_FLOW_SIZE, 0, true, prioHistory, prioPacketHistory, []);
        flowStats := flowStats[flowId := ref];
      }
      stats := flowStats[flowId];
    }

    /** The load bucket of time `now`, created at 0 if absent. */
    method GetLoadStats(now: nat) returns (load: nat)
      modifies this`loadAtTime
      ensures loadAtTime == if now in old(loadAtTime) then old(loadAtTime) else old(loadAtTime)[now := 0]
      ensures load == loadAtTime[now] == Get(old(loadAtTime), now)
    {
      if now !in loadAtTime {
        loadAtTime := loadAtTime[now := 0];
      }
      load := loadAtTime[now];
    }

    /** Fills m_prioLimits with the table of the profile and mode; false is the fatal invalid profile. */
    method MakePrioLimits() returns (valid: bool)
      requires prioLimits.Length == NUM_LEVELS
      modifies prioLimits
      ensures valid <==> LimitsFor(config.profile, config.nonBlind).Some?
      ensures valid ==> prioLimits[..] == LimitsFor(config.profile, config.nonBlind).value
      ensures !valid ==> prioLimits[..] == old(prioLimits[..])
    {
      var limits := LimitsFor(config.profile, config.nonBlind);
      if limits.None? {
        return false;
      }
      for i := 0 to NUM_LEVELS
        invariant forall j :: 0 <= j < i ==> prioLimits[j] == limits.value[j]
      {
        prioLimits[i] := limits.value[i];
      }
      return true;
    }

    /**
      pbs.cc:302-339 on the record `ref` whose counters were just updated:
      without PBS level 0; with it the table, the flow size, the score, the
      scan and the histograms. An invalid profile stops before the score.
    */
    method BinPacket(ref: FlowStats, pkt: Packet) returns (step: Step)
      requires prioLimits.Length == NUM_LEVELS
      modifies prioLimits
      ensures step == Bin(config, ref, pkt)
      ensures config.usePbs && step.outcome.Classified? ==>
        prioLimits[..] == LimitsFor(config.profile, config.nonBlind).value
      ensures !config.usePbs ==> prioLimits[..] == old(prioLimits[..])
      ensures step.outcome.InvalidProfile? ==> prioLimits[..] == old(prioLimits[..])
    {
      var r := ref;
      var out := pkt;
      var binPrio: nat := 0;  // without PBS every packet goes to queue 0
      if config.usePbs {
        var valid := MakePrioLimits();
        if !valid {
          return Step(InvalidProfile, ref, pkt);
        }
        ghost var limits := prioLimits[..];
        if config.nonBlind {
          r, out := LearnFlowSize(r, out).0, LearnFlowSize(r, out).1;
        }
        var rawPrio := config.score(r.flowAge, Denominator(r, config.nonBlind));
        r := r.(rawPrioHistory := r.rawPrioHistory + [RawPrio(rawPrio, r.txBytes, r.flowAge)]);
        if !r.firstTx && r.flowAge != 0 {
          binPrio := ScanLevel(prioLimits, rawPrio);
        }
        assert binPrio == Decide(r, limits, rawPrio);
      }
      step := Step(Classified(binPrio), Record(r, binPrio, pkt.size), out.(prioTag := Some(binPrio)));
    }

    /** pbs.cc:287-288: the packet's bytes go to the total and to the load bucket of `now`. */
    method AccountBytes(size: nat, now: nat)
      modifies this`totalBytes, this`loadAtTime
      ensures totalBytes == old(totalBytes) + size
      ensures loadAtTime == Add(old(loadAtTime), now, size)
    {
      ghost var oldLoad := loadAtTime;
      totalBytes := totalBytes + size;
      var load := GetLoadStats(now);
      loadAtTime := loadAtTime[now := load + size];
      assert loadAtTime == oldLoad[now := Get(oldLoad, now) + size];
    }

    /** pbs.cc:290-339: the packet's flow record is fetched, touched, binned and written back. */
    method UpdateFlow(pkt: Packet, now: nat) returns (step: Step)
      requires prioLimits.Length == NUM_LEVELS
      modifies this`flowStats, prioLimits
      ensures step == Classify(config, Lookup(old(flowStats), pkt.hash), pkt, now)
      ensures flowStats == old(flowStats)[pkt.hash := step.stats]
      ensures config.usePbs && step.outcome.Classified? ==>
        prioLimits[..] == LimitsFor(config.profile, config.nonBlind).value
      ensures !config.usePbs ==> prioLimits[..] == old(prioLimits[..])
      ensures step.outcome.InvalidProfile? ==> prioLimits[..] == old(prioLimits[..])
    {
      ghost var oldFlows := flowStats;
      var ref := GetStatsForFlow(pkt.hash);
      ghost var fetched := flowStats;
      ref := Touch(ref, pkt.size, now);
      step := BinPacket(ref, pkt);
      assert flowStats == fetched;
      flowStats := flowStats[pkt.hash := step.stats];
      assert fetched[pkt.hash := step.stats] == oldFlows[pkt.hash := step.stats];
    }

    /**
      Classifies one packet at time `now` (ns): accounts its bytes, updates
      its flow's record and returns its level, attached to the packet as a
      PrioTag. An invalid profile ends the run at the first PBS-classified
      packet, after the counters of that packet were updated.
    */
    method DoClassify(pkt: Packet, now: nat) returns (outcome: Outcome, out: Packet)
      requires Valid() && !aborted && clock <= now
      modifies this`clock, this`totalBytes, this`loadAtTime, this`flowStats, this`aborted, prioLimits
      ensures Valid()
      ensures var st := Classify(config, Lookup(old(flowStats), pkt.hash), pkt, now);
        && outcome == st.outcome
        && out == st.packet
        && flowStats == old(flowStats)[pkt.hash := st.stats]
      ensures totalBytes == old(totalBytes) + pkt.size
      ensures loadAtTime == Add(old(loadAtTime), now, pkt.size)
      ensures clock == now && aborted == outcome.InvalidProfile?
      ensures config.usePbs && outcome.Classified? ==>
        prioLimits[..] == LimitsFor(config.profile, config.nonBlind).value
      ensures !config.usePbs ==> prioLimits[..] == old(prioLimits[..])
      ensures outcome.InvalidProfile? ==> prioLimits[..] == old(prioLimits[..])
    {
      AccountKeepsLoadInvariant(totalBytes, loadAtTime, clock, pkt.size, now);
      ClassifyKeepsFlowsInvariant(config, totalBytes, flowStats, clock, pkt, now);
      outcome, out := ClassifySteps(pkt, now);
    }

    /** The steps of DoClassify, without the invariant. */
    method ClassifySteps(pkt: Packet, now: nat) returns (outcome: Outcome, out: Packet)
      requires prioLimits.Length == NUM_LEVELS
      modifies this`clock, this`totalBytes, this`loadAtTime, this`flowStats, this`aborted, prioLimits
      ensures var st := Classify(config, Lookup(old(flowStats), pkt.hash), pkt, now);
        && outcome == st.outcome
        && out == st.packet
        && flowStats == old(flowStats)[pkt.hash := st.stats]
      ensures totalBytes == old(totalBytes) + pkt.size
      ensures loadAtTime == Add(old(loadAtTime), now, pkt.size)
      ensures clock == now && aborted == outcome.InvalidProfile?
      ensures config.usePbs && outcome.Classified? ==>
        prioLimits[..] == LimitsFor(config.profile, config.nonBlind).value
      ensures !config.usePbs ==> prioLimits[..] == old(prioLimits[..])
      ensures outcome.InvalidProfile? ==> prioLimits[..] == old(prioLimits[..])
    {
      ghost var limits := prioLimits[..];
      clock := now;
      AccountBytes(pkt.size, now);
      assert prioLimits[..] == limits;
      var step := UpdateFlow(pkt, now);
      outcome, out := step.outcome, step.packet;
      aborted := outcome.InvalidProfile?;
    }

    /** StreamToCsv (pbs.cc:149-165): per flow, in ascending id, the id and its bytes at levels 0..7. */
    method StreamToCsv() returns (ids: seq<FlowId>, rows: seq<string>)
      requires Valid()
      ensures ids == SortedKeys(flowStats.Keys)
      ensures |rows| == |ids|
      ensures forall i :: 0 <= i < |ids| ==> ParseRow(rows[i]) == [ids[i]] + LevelRow(flowStats[ids[i]].prioHistory)
      ensures forall i :: 0 <= i < |ids| ==> rows[i] == CsvRow([ids[i]] + LevelRow(flowStats[ids[i]].prioHistory))
    {
      ids, rows := LevelReport(flowStats, Bytes);
    }

    /** StreamPacketsToCsv (pbs.cc:131-147): per flow, in ascending id, the id and its packets at levels 0..7. */
    method StreamPacketsToCsv() returns (ids: seq<FlowId>, rows: seq<string>)
      requires Valid()
      ensures ids == SortedKeys(flowStats.Keys)
      ensures |rows| == |ids|
      ensures forall i :: 0 <= i < |ids| ==> ParseRow(rows[i]) == [ids[i]] + LevelRow(flowStats[ids[i]].prioPacketHistory)
      ensures forall i :: 0 <= i < |ids| ==> rows[i] == CsvRow([ids[i]] + LevelRow(flowStats[ids[i]].prioPacketHistory))
    {
      ids, rows := LevelReport(flowStats, Packets);
    }
  }
}
