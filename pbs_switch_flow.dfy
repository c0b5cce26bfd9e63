/**
  The switch aggregator's per-flow record and what one packet does to it
  (src/pbs-switch/model/pbs-switch.cc:109-132, 163-191), as functions on
  values. The class in module PbsSwitch performs these steps in place.
*/
module PbsSwitchFlow {
  import opened Ints
  import opened Sums
  import opened Histograms
  import opened Packets

  /** The switch's FlowStats (pbs-switch.h:33-41). Times are in ns. */
  datatype FlowStats = FlowStats(
    timeFirstTxPacket: int,
    timeLastTxPacket: int,
    flowAge: int,
    txBytes: nat,
    txPackets: nat,
    prioHistory: map<nat, nat>)   // bytes per priority, keyed by level or tag value

  /** The record GetStatsForFlow creates for an unseen flow: zero times and counters, levels 0..7 at 0. */
  const NEW_FLOW_STATS: FlowStats := FlowStats(0, 0, 0, 0, 0, EMPTY_HISTOGRAM)

  function Lookup(flows: map<FlowId, FlowStats>, id: FlowId): FlowStats {
    if id in flows then flows[id] else NEW_FLOW_STATS
  }

  /** The bytes each flow has sent. */
  ghost function FlowBytes(flows: map<FlowId, FlowStats>): (b: map<FlowId, nat>)
    ensures b.Keys == flows.Keys
    ensures forall id :: id in flows ==> b[id] == flows[id].txBytes
  {
    map id | id in flows :: flows[id].txBytes
  }

  /**
    pbs-switch.cc:163-173: the priority the switch forwards, the PrioTag's
    value when the packet carries one and 0 otherwise.
  */
  function ForwardedPrio(pkt: Packet): (prio: nat)
    ensures prio < U8_LIMIT
  {
    match pkt.prioTag
    case Some(v) => v as nat
    case None => 0
  }

  /**
    pbs-switch.cc:179-189: a start time still at 0 is set to `now`; then
    the byte and packet counts, the last time, the age and the bytes at
    `prio` advance.
  */
  function Observe(r: FlowStats, size: nat, prio: nat, now: nat): FlowStats {
    var first := if r.timeFirstTxPacket == 0 then now else r.timeFirstTxPacket;
    r.(timeFirstTxPacket := first,
       txBytes := r.txBytes + size,
       txPackets := r.txPackets + 1,
       timeLastTxPacket := now,
       flowAge := now - first,
       prioHistory := Add(r.prioHistory, prio, size))
  }

  /**
    The invariant every stored record keeps: start no later than the last
    packet, the age their difference, the eight levels always present, every
    key a level or a tag value, and the bytes per priority adding up to the
    bytes sent.
  */
  ghost predicate FlowValid(r: FlowStats) {
    && 0 <= r.timeFirstTxPacket <= r.timeLastTxPacket
    && r.flowAge == r.timeLastTxPacket - r.timeFirstTxPacket
    && LEVELS <= r.prioHistory.Keys
    && (forall k :: k in r.prioHistory ==> k < U8_LIMIT)
    && MapSum(r.prioHistory) == r.txBytes
  }

  lemma NewFlowStatsValid()
    ensures FlowValid(NEW_FLOW_STATS)
  {
    EmptyHistogramSum();
  }

  /** The counters, the last time and the age advance on every packet. */
  lemma ObserveCounters(r: FlowStats, size: nat, prio: nat, now: nat)
    ensures var r' := Observe(r, size, prio, now);
      && r'.txBytes == r.txBytes + size
      && r'.txPackets == r.txPackets + 1
      && r'.timeLastTxPacket == now
      && r'.flowAge == r'.timeLastTxPacket - r'.timeFirstTxPacket
      && r'.prioHistory[prio] == Get(r.prioHistory, prio) + size
      && forall k :: k in r.prioHistory && k != prio ==> r'.prioHistory[k] == r.prioHistory[k]
  {
  }

  /** A start time of 0 reads as "not yet started": the packet that finds it restarts the flow at `now`, with age 0. */
  lemma ObserveRestartsAtZero(r: FlowStats, size: nat, prio: nat, now: nat)
    ensures r.timeFirstTxPacket == 0 ==>
      Observe(r, size, prio, now).timeFirstTxPacket == now && Observe(r, size, prio, now).flowAge == 0
    ensures r.timeFirstTxPacket != 0 ==>
      Observe(r, size, prio, now).timeFirstTxPacket == r.timeFirstTxPacket
  {
  }

  /**
    A flow whose first packet passes at time 0 keeps a start time of 0, so
    its next packet, at 5000 ns, restarts it: an age of 0 after two packets.
  */
  lemma FirstSeenAtZeroWitness()
    ensures var r := Observe(Observe(NEW_FLOW_STATS, 100, 0, 0), 100, 0, 5000);
      r.txPackets == 2 && r.timeFirstTxPacket == 5000 && r.flowAge == 0
  {
  }

  /** A packet adds a key to the histogram exactly when its priority was not yet a key; on a fresh record, exactly when it exceeds 7. */
  lemma ObserveKeys(r: FlowStats, size: nat, prio: nat, now: nat)
    ensures Observe(r, size, prio, now).prioHistory.Keys == r.prioHistory.Keys + {prio}
    ensures Observe(r, size, prio, now).prioHistory.Keys == r.prioHistory.Keys <==> prio in r.prioHistory
    ensures r.prioHistory.Keys == LEVELS ==>
      (Observe(r, size, prio, now).prioHistory.Keys == LEVELS <==> prio < NUM_LEVELS)
  {
    var k := Observe(r, size, prio, now).prioHistory.Keys;
    if prio !in r.prioHistory {
      assert prio in k - r.prioHistory.Keys;
    }
  }

  /** The bytes per priority keep adding up to the bytes sent. */
  lemma ObserveSum(r: FlowStats, size: nat, prio: nat, now: nat)
    ensures MapSum(Observe(r, size, prio, now).prioHistory) == MapSum(r.prioHistory) + size
  {
    AddSum(r.prioHistory, prio, size);
  }

  /** With the clock not going back and a priority that fits a uint8_t, every packet keeps the record's invariant. */
  lemma ObserveKeepsFlowValid(r: FlowStats, size: nat, prio: nat, now: nat)
    requires FlowValid(r)
    requires r.timeLastTxPacket <= now
    requires prio < U8_LIMIT
    ensures FlowValid(Observe(r, size, prio, now))
  {
    ObserveSum(r, size, prio, now);
    ObserveKeys(r, size, prio, now);
  }
}
