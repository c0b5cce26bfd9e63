/**
  The switch-side aggregator PbsSwitchPacketFilter
  (src/pbs-switch/model/pbs-switch.cc): it forwards the priority a packet
  already carries and keeps per-flow byte counts per priority, a byte total
  and a per-nanosecond load.
*/
module PbsSwitch {
  import opened Ints
  import opened Sums
  import opened Ordered
  import opened Histograms
  import opened Text
  import opened Packets
  import opened Load
  import opened PbsSwitchFlow

  /*
    The switch declares its own FlowStats struct (pbs-switch.h:33-41), with
    other fields than the host's, so the map-wide facts below are stated
    again over the switch's records instead of shared with module Pbs; the
    load bookkeeping, which does not depend on the record type, is shared
    through module Load. GetTotalBytes and PeekLoadAtTime are repeated for
    the same reason: each reads the fields of its own class.
  */

  ghost predicate AllBefore(flows: map<FlowId, FlowStats>, now: int) {
    forall id :: id in flows ==> flows[id].timeLastTxPacket <= now
  }

  ghost predicate AllFlowValid(flows: map<FlowId, FlowStats>) {
    forall id :: id in flows ==> FlowValid(flows[id])
  }

  /** The flows' byte counts add up to the total, and every record is valid and no later than the clock. */
  ghost predicate FlowsInvariant(total: nat, flows: map<FlowId, FlowStats>, clock: nat) {
    && MapSum(FlowBytes(flows)) == total
    && AllBefore(flows, clock)
    && AllFlowValid(flows)
  }

  /** Replacing the record of `id` by one `size` bytes further on adds `size` to the flows' byte sum. */
  lemma WriteBackSum(flows: map<FlowId, FlowStats>, id: FlowId, r: FlowStats, size: nat)
    requires r.txBytes == Lookup(flows, id).txBytes + size
    ensures MapSum(FlowBytes(flows[id := r])) == MapSum(FlowBytes(flows)) + size
  {
    assert FlowBytes(flows[id := r]) == FlowBytes(flows)[id := r.txBytes];
    MapSumUpdate(FlowBytes(flows), id, r.txBytes);
  }

  lemma WriteBackBefore(flows: map<FlowId, FlowStats>, id: FlowId, r: FlowStats, clock: nat, now: nat)
    requires AllBefore(flows, clock) && clock <= now && r.timeLastTxPacket <= now
    ensures AllBefore(flows[id := r], now)
  {
  }

  lemma WriteBackFlowValid(flows: map<FlowId, FlowStats>, id: FlowId, r: FlowStats)
    requires AllFlowValid(flows) && FlowValid(r)
    ensures AllFlowValid(flows[id := r])
  {
  }

  /** The record DoClassify works on, stored or fresh, is valid and no later than the clock. */
  lemma LookupKeepsInvariant(total: nat, flows: map<FlowId, FlowStats>, clock: nat, id: FlowId)
    requires FlowsInvariant(total, flows, clock)
    ensures FlowValid(Lookup(flows, id)) && Lookup(flows, id).timeLastTxPacket <= clock
  {
    if id !in flows {
      NewFlowStatsValid();
    }
  }

  /** Observing a packet of a uint8_t priority on its flow's record keeps the flows' invariant. */
  lemma ObserveKeepsFlowsInvariant(total: nat, flows: map<FlowId, FlowStats>, clock: nat,
                                   id: FlowId, size: nat, prio: nat, now: nat)
    requires FlowsInvariant(total, flows, clock)
    requires clock <= now
    requires prio < U8_LIMIT
    ensures FlowsInvariant(total + size, flows[id := Observe(Lookup(flows, id), size, prio, now)], now)
  {
    var r0 := Lookup(flows, id);
    var r := Observe(r0, size, prio, now);
    LookupKeepsInvariant(total, flows, clock, id);
    ObserveKeepsFlowValid(r0, size, prio, now);
    WriteBackSum(flows, id, r, size);
    WriteBackBefore(flows, id, r, clock, now);
    WriteBackFlowValid(flows, id, r);
  }

  // ---------------------------------------------------------------------------
  // GetFlowRates

  /** `ref.flowAge.GetNanoSeconds ()` stored in a uint64_t. */
  function AgeNs(r: FlowStats): nat {
    r.flowAge % U64_LIMIT
  }

  /** pbs-switch.cc:97: bits per nanosecond, `txBytes * 8.0 / age`. */
  function Rate(r: FlowStats): real
    requires AgeNs(r) != 0
  {
    (r.txBytes as real) * 8.0 / (AgeNs(r) as real)
  }

  /** The ids of `ids`, in their order, whose flows have a non-zero age: the flows GetFlowRates reports. */
  function RatedIds(flows: map<FlowId, FlowStats>, ids: seq<FlowId>): (rated: seq<FlowId>)
    ensures forall i :: 0 <= i < |rated| ==> rated[i] in flows && AgeNs(flows[rated[i]]) != 0
    decreases |ids|
  {
    if ids == [] then []
    else
      var last := ids[|ids| - 1];
      RatedIds(flows, ids[..|ids| - 1]) + (if last in flows && AgeNs(flows[last]) != 0 then [last] else [])
  }

  /** Listing one more id reports it at the end, when it is stored and of non-zero age. */
  lemma RatedIdsSnoc(flows: map<FlowId, FlowStats>, ids: seq<FlowId>, x: FlowId)
    ensures RatedIds(flows, ids + [x]) == RatedIds(flows, ids) + (if x in flows && AgeNs(flows[x]) != 0 then [x] else [])
  {
    assert (ids + [x])[..|ids|] == ids;
  }

  /** The rates of the rated flows, in the same order. */
  function FlowRates(flows: map<FlowId, FlowStats>, ids: seq<FlowId>): seq<real> {
    var rated := RatedIds(flows, ids);
    seq(|rated|, i requires 0 <= i < |rated| => Rate(flows[rated[i]]))
  }

  /** Listing one more id appends its rate, when it is stored and of non-zero age. */
  lemma FlowRatesSnoc(flows: map<FlowId, FlowStats>, ids: seq<FlowId>, x: FlowId)
    ensures FlowRates(flows, ids + [x]) ==
      FlowRates(flows, ids) + (if x in flows && AgeNs(flows[x]) != 0 then [Rate(flows[x])] else [])
  {
    RatedIdsSnoc(flows, ids, x);
  }

  /** A flow is reported exactly when it is listed, stored and of non-zero age. */
  lemma {:induction false} RatedIdsMembers(flows: map<FlowId, FlowStats>, ids: seq<FlowId>)
    ensures forall x :: x in RatedIds(flows, ids) <==> x in ids && x in flows && AgeNs(flows[x]) != 0
    decreases |ids|
  {
    if ids != [] {
      var init := ids[..|ids| - 1];
      RatedIdsMembers(flows, init);
      assert ids == init + [ids[|ids| - 1]];
    }
  }

  /** Filtering keeps the order: from ascending ids come ascending rated ids. */
  lemma {:induction false} RatedIdsIncreasing(flows: map<FlowId, FlowStats>, ids: seq<FlowId>)
    requires Increasing(ids)
    ensures Increasing(RatedIds(flows, ids))
    decreases |ids|
  {
    if ids != [] {
      var init := ids[..|ids| - 1];
      var last := ids[|ids| - 1];
      RatedIdsIncreasing(flows, init);
      RatedIdsMembers(flows, init);
      var front := RatedIds(flows, init);
      forall i | 0 <= i < |front|
        ensures front[i] < last
      {
        var k :| 0 <= k < |init| && init[k] == front[i];
      }
    }
  }

  /**
    GetFlowRates over the flows in ascending id reports every flow of
    non-zero age and no other, each once and in ascending id; the i-th
    entry of FlowRates is the rate of the i-th reported flow.
  */
  lemma FlowRatesShape(flows: map<FlowId, FlowStats>)
    ensures Increasing(RatedIds(flows, SortedKeys(flows.Keys)))
    ensures forall x :: x in RatedIds(flows, SortedKeys(flows.Keys)) <==> x in flows && AgeNs(flows[x]) != 0
  {
    var ids := SortedKeys(flows.Keys);
    SortedKeysIncreasing(flows.Keys);
    SortedKeysComplete(flows.Keys);
    RatedIdsIncreasing(flows, ids);
    RatedIdsMembers(flows, ids);
  }

  // ---------------------------------------------------------------------------
  // PrintFlowCategories

  /** The fields of one row: the flow id, its bytes, then its bytes per priority in ascending priority. */
  ghost function CategoryFields(flows: map<FlowId, FlowStats>, id: FlowId): seq<nat>
    requires id in flows
  {
    [id, flows[id].txBytes] + InKeyOrder(flows[id].prioHistory)
  }

  /** On a valid record the per-priority fields of its row add up to its bytes. */
  lemma CategoryFieldsAddUp(flows: map<FlowId, FlowStats>, id: FlowId)
    requires id in flows && FlowValid(flows[id])
    ensures CategoryFields(flows, id)[1] == flows[id].txBytes
    ensures SeqSum(CategoryFields(flows, id)[2..]) == CategoryFields(flows, id)[1]
  {
    InKeyOrderSum(flows[id].prioHistory);
    assert CategoryFields(flows, id)[2..] == InKeyOrder(flows[id].prioHistory);
  }

  /** The fields of the rows of the flows `ids`, in that order. */
  ghost function CategoryRows(flows: map<FlowId, FlowStats>, ids: seq<FlowId>): (rows: seq<seq<nat>>)
    requires forall i :: 0 <= i < |ids| ==> ids[i] in flows
    ensures |rows| == |ids|
  {
    seq(|ids|, i requires 0 <= i < |ids| => CategoryFields(flows, ids[i]))
  }

  /** Listing one more flow appends its row. */
  lemma CategoryRowsSnoc(flows: map<FlowId, FlowStats>, ids: seq<FlowId>, x: FlowId)
    requires forall i :: 0 <= i < |ids| ==> ids[i] in flows
    requires x in flows
    ensures CategoryRows(flows, ids + [x]) == CategoryRows(flows, ids) + [CategoryFields(flows, x)]
  {
  }

  method CategoryTable(flows: map<FlowId, FlowStats>, ids: seq<FlowId>) returns (table: seq<seq<nat>>)
    requires forall i :: 0 <= i < |ids| ==> ids[i] in flows
    ensures table == CategoryRows(flows, ids)
  {
    table := [];
    for i := 0 to |ids|
      invariant table == CategoryRows(flows, ids[..i])
    {
      var r := flows[ids[i]];
      var values := ValuesInKeyOrder(r.prioHistory);
      assert ids[..i + 1] == ids[..i] + [ids[i]];
      CategoryRowsSnoc(flows, ids[..i], ids[i]);
      table := table + [[ids[i], r.txBytes] + values];
    }
    assert ids[..|ids|] == ids;
  }

  class PbsSwitchPacketFilter {
    /** m_totalBytes */
    var totalBytes: nat
    /** m_flowStats */
    var flowStats: map<FlowId, FlowStats>
    /** m_loadAtTime: bytes seen in each nanosecond */
    var loadAtTime: map<nat, nat>
    /** The time of the latest call; the simulator's clock never goes back. */
    ghost var clock: nat

    ghost predicate Valid()
      reads this`totalBytes, this`loadAtTime, this`flowStats, this`clock
    {
      && LoadInvariant(totalBytes, loadAtTime, clock)
      && FlowsInvariant(totalBytes, flowStats, clock)
    }

    constructor ()
      ensures Valid()
      ensures totalBytes == 0 && flowStats == map[] && loadAtTime == map[] && clock == 0
    {
      totalBytes := 0;
      flowStats := map[];
      loadAtTime := map[];
      clock := 0;
      new;
      assert FlowBytes(flowStats) == map[];
    }

    /** m_totalBytes, which equals the sum of the load buckets and the sum of the flows' byte counts. */
    function GetTotalBytes(): (n: nat)
      reads this
      requires Valid()
      ensures n == MapSum(loadAtTime)
      ensures n == MapSum(FlowBytes(flowStats))
    {
      totalBytes
    }

    /** A copy of m_loadAtTime: its buckets add up to the total bytes and none lies in the future. */
    function PeekLoadAtTime(): (load: map<nat, nat>)
      reads this
      requires Valid()
      ensures MapSum(load) == GetTotalBytes()
      ensures forall t :: t in load ==> t <= clock
    {
      loadAtTime
    }

    /** The record of `flowId`, created with zero times and counters and levels 0..7 at 0 if unseen. */
    method GetStatsForFlow(flowId: FlowId) returns (stats: FlowStats)
      modifies this`flowStats
      ensures flowStats == if flowId in old(flowStats) then old(flowStats)
                           else old(flowStats)[flowId := NEW_FLOW_STATS]
      ensures stats == flowStats[flowId] == Lookup(old(flowStats), flowId)
    {
      if flowId !in flowStats {
        var prioHistory := ZeroHistogram();
        flowStats := flowStats[flowId := FlowStats(0, 0, 0, 0, 0, prioHistory)];
      }
      stats := flowStats[flowId];
    }

    /** The load bucket of time `now`, created at 0 if absent. */
    method GetLoadStats(now: nat) returns (load: nat)
      modifies this`loadAtTime
      ensures loadAtTime == if now in old(loadAtTime) then old(loadAtTime) else old(loadAtTime)[now := 0]
      ensures load == loadAtTime[now] == Get(old(loadAtTime), now)
    {
      if now !in loadAtTime {
        loadAtTime := loadAtTime[now := 0];
      }
      load := loadAtTime[now];
    }

    /** pbs-switch.cc:159-160: the packet's bytes go to the total and to the load bucket of `now`. */
    method AccountBytes(size: nat, now: nat)
      modifies this`totalBytes, this`loadAtTime
      ensures totalBytes == old(totalBytes) + size
      ensures loadAtTime == Add(old(loadAtTime), now, size)
    {
      ghost var oldLoad := loadAtTime;
      totalBytes := totalBytes + size;
      var load := GetLoadStats(now);
      loadAtTime := loadAtTime[now := load + size];
      assert loadAtTime == oldLoad[now := Get(oldLoad, now) + size];
    }

    /** pbs-switch.cc:177-189: the flow's record is fetched or created and observes the packet. */
    method UpdateFlow(flowId: FlowId, size: nat, prio: nat, now: nat)
      modifies this`flowStats
      ensures flowStats == old(flowStats)[flowId := Observe(Lookup(old(flowStats), flowId), size, prio, now)]
    {
      ghost var oldFlows := flowStats;
      var ref := GetStatsForFlow(flowId);
      var first := ref.timeFirstTxPacket;
      if first == 0 {
        first := now;
      }
      ref := ref.(timeFirstTxPacket := first,
                  txBytes := ref.txBytes + size,
                  txPackets := ref.txPackets + 1,
                  timeLastTxPacket := now);
      ref := ref.(flowAge := ref.timeLastTxPacket - ref.timeFirstTxPacket);
      var bytes := Get(ref.prioHistory, prio);
      ref := ref.(prioHistory := ref.prioHistory[prio := bytes + size]);
      flowStats := flowStats[flowId := ref];
      assert flowStats == oldFlows[flowId := Observe(Lookup(oldFlows, flowId), size, prio, now)];
    }

    /**
      Classifies one packet at time `now` (ns): accounts its bytes, updates
      its flow's record and returns the priority it already carries (0
      without a PrioTag). The packet itself is left as it is.
    */
    method DoClassify(pkt: Packet, now: nat) returns (prio: nat)
      requires Valid() && clock <= now
      modifies this`clock, this`totalBytes, this`loadAtTime, this`flowStats
      ensures Valid()
      ensures prio == ForwardedPrio(pkt)
      ensures flowStats == old(flowStats)[pkt.hash := Observe(Lookup(old(flowStats), pkt.hash), pkt.size, prio, now)]
      ensures totalBytes == old(totalBytes) + pkt.size
      ensures loadAtTime == Add(old(loadAtTime), now, pkt.size)
      ensures clock == now
    {
      AccountKeepsLoadInvariant(totalBytes, loadAtTime, clock, pkt.size, now);
      ObserveKeepsFlowsInvariant(totalBytes, flowStats, clock, pkt.hash, pkt.size, ForwardedPrio(pkt), now);
      prio := ClassifySteps(pkt, now);
    }

    /** The steps of DoClassify, without the invariant. */
    method ClassifySteps(pkt: Packet, now: nat) returns (prio: nat)
      modifies this`clock, this`totalBytes, this`loadAtTime, this`flowStats
      ensures prio == ForwardedPrio(pkt)
      ensures flowStats == old(flowStats)[pkt.hash := Observe(Lookup(old(flowStats), pkt.hash), pkt.size, prio, now)]
      ensures totalBytes == old(totalBytes) + pkt.size
      ensures loadAtTime == Add(old(loadAtTime), now, pkt.size)
      ensures clock == now
    {
      clock := now;
      AccountBytes(pkt.size, now);
      prio := 0;
      if pkt.prioTag.Some? {
        prio := pkt.prioTag.value;
      }
      UpdateFlow(pkt.hash, pkt.size, prio, now);
    }

    /** GetFlowRates: over the flows in ascending id, the rate of each flow whose age is not 0. */
    method GetFlowRates() returns (rates: seq<real>)
      ensures rates == FlowRates(flowStats, SortedKeys(flowStats.Keys))
    {
      var flows := flowStats;
      var ids := AscendingKeys(flows.Keys);
      rates := [];
      for i := 0 to |ids|
        invariant rates == FlowRates(flows, ids[..i])
      {
        assert ids[..i + 1] == ids[..i] + [ids[i]];
        FlowRatesSnoc(flows, ids[..i], ids[i]);
        var ref := flows[ids[i]];
        if AgeNs(ref) != 0 {
          rates := rates + [Rate(ref)];
        }
      }
      assert ids[..|ids|] == ids;
    }

    /**
      PrintFlowCategories: per flow, in ascending id, a row of the id, its
      bytes and its bytes per priority in ascending priority, each field
      followed by ","; on valid records the per-priority fields add up to
      the bytes.
    */
    method PrintFlowCategories() returns (ids: seq<FlowId>, rows: seq<string>)
      requires Valid()
      ensures ids == SortedKeys(flowStats.Keys)
      ensures |rows| == |ids|
      ensures forall i :: 0 <= i < |ids| ==> rows[i] == CsvRow(CategoryFields(flowStats, ids[i]))
      ensures forall i :: 0 <= i < |ids| ==> ParseRow(rows[i]) == CategoryFields(flowStats, ids[i])
      ensures forall i :: 0 <= i < |ids| ==>
        |ParseRow(rows[i])| >= 2 && SeqSum(ParseRow(rows[i])[2..]) == ParseRow(rows[i])[1]
    {
      ids := AscendingKeys(flowStats.Keys);
      var table := CategoryTable(flowStats, ids);
      rows := Render(table);
      forall i | 0 <= i < |ids|
        ensures |ParseRow(rows[i])| >= 2 && SeqSum(ParseRow(rows[i])[2..]) == ParseRow(rows[i])[1]
      {
        CategoryFieldsAddUp(flowStats, ids[i]);
      }
    }
  }
}
