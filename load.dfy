/**
  The per-nanosecond load both filters keep (`m_loadAtTime`, keyed by the
  simulator time in ns) next to their byte total (`m_totalBytes`).
*/
module Load {
  import opened Sums
  import opened Histograms

  /** The load buckets add up to the total and none lies after the clock. */
  ghost predicate LoadInvariant(total: nat, load: map<nat, nat>, clock: nat) {
    && MapSum(load) == total
    && (forall t :: t in load ==> t <= clock)
  }

  /** Accounting a packet's bytes in the bucket of `now` keeps the load invariant. */
  lemma AccountKeepsLoadInvariant(total: nat, load: map<nat, nat>, clock: nat, size: nat, now: nat)
    requires LoadInvariant(total, load, clock)
    requires clock <= now
    ensures LoadInvariant(total + size, Add(load, now, size), now)
  {
    AddSum(load, now, size);
  }
}
