# PBS priority classification, modelled in Dafny

PBS (priority-based scheduling) is a packet filter for ns-3 queue discs. It
approximates shortest-remaining-processing-time scheduling without a central
scheduler. This project models its two cooperating filters and the packet tags
they exchange:

- **PbsPacketFilter** (`src/pbs/model/pbs.cc`) runs on hosts. For every packet
  it updates the record of the packet's flow: first and last transmission time,
  age, bytes and packets sent, and the declared flow size. It computes a raw
  score `age / d^alpha`. The divisor `d` is the bytes sent in blind mode and the
  bytes remaining in non-blind mode. It bins the score into one of eight levels
  through the threshold table of the configured workload profile. It records
  the bytes and packets of every level and attaches a `PrioTag` carrying the
  level.
- **PbsSwitchPacketFilter** (`src/pbs-switch/model/pbs-switch.cc`) runs on
  switches. It forwards the level the packet already carries, or 0 without a
  tag. It keeps per-flow bytes per priority and reports flow rates and
  per-flow categories.
- **PrioTag** and **FlowSizeTag** (`prioTag.cc`, `flowSizeTag.cc`) carry one
  8-bit level and one 32-bit flow size through a tag buffer.

Both filters also keep a byte total and a per-nanosecond load map. Both
iterate their flows in ascending flow id, because they are `std::map`s.

## Layout

| file | module | what |
|---|---|---|
| `wrappers.dfy` | `Wrappers` | `Option` |
| `ints.dfy` | `Ints` | the fixed-width unsigned ranges |
| `sums.dfy` | `Sums` | `MapSum`, the sum of a map's values |
| `ordered.dfy` | `Ordered` | ascending key order (`SortedKeys`), and `AscendingKeys`, which visits keys as a `std::map` iterator does |
| `histograms.dfy` | `Histograms` | `std::map` counters: `h[k] += x`, the zero-initialised eight levels, values in key order |
| `text.dfy` | `Text` | decimal text and comma-terminated CSV rows, with their parsers |
| `load.dfy` | `Load` | the invariant linking `m_loadAtTime` and `m_totalBytes` |
| `tag_buffer.dfy` | `TagBuffer` | the bytes `WriteU8`/`WriteU32` put into a tag buffer |
| `prio_tag.dfy` | `PrioTags` | class `PrioTag` |
| `flow_size_tag.dfy` | `FlowSizeTags` | class `FlowSizeTag` |
| `packets.dfy` | `Packets` | a queue-disc item: size, flow hash, the two optional tags |
| `pbs_limits.dfy` | `PbsLimits` | the threshold tables, the level rule and the scan loop |
| `pbs_flow.dfy` | `PbsFlow` | the host's flow record and what one packet does to it, as functions |
| `pbs.dfy` | `Pbs` | class `PbsPacketFilter` and its CSV reports |
| `pbs_switch_flow.dfy` | `PbsSwitchFlow` | the switch's flow record and what one packet does to it |
| `pbs_switch.dfy` | `PbsSwitch` | class `PbsSwitchPacketFilter`, its flow rates and flow categories |

Each filter is a `class` whose fields are the C++ members these methods
update. `m_flowStats` and `m_loadAtTime` are `map` fields; `m_prioLimits[8]`
is an `array<real>`. A ghost `clock` field records the time of the latest
call, because the simulator's time never goes back.

What one packet does to a flow record is also specified as a pure function:
`PbsFlow.Classify` on the host and `PbsSwitchFlow.Observe` on the switch. The
`DoClassify` methods are proved to produce exactly that record, and the
invariants are proved about those functions. The invariants are listed below.

- Per record:
  - level bytes add up to `txBytes`, and level packets to `txPackets`;
  - the histograms hold exactly the eight levels (host) or contain them (switch);
  - `flowAge == timeLastTxPacket - timeFirstTxPacket`;
  - with `UsePbs` on, one raw score is logged per packet; with it off, none is.
- Per filter:
  - the flows' `txBytes` add up to `m_totalBytes`;
  - the load buckets add up to `m_totalBytes`, and none lies after the clock.

Simulator time, `Simulator::Now ()`, is an explicit `now` parameter in
nanoseconds. The host's score `age / pow (d, m_alpha)` is a double computed
with `pow`. It is modelled as an arbitrary function `score: (int, nat) -> real`
of the filter's configuration.

## Model

| member | source | states |
|---|---|---|
| `PbsLimits.LimitsFor` | src/pbs/model/pbs.cc:201-255 | A table exists exactly for profiles 1..7; any other profile is the fatal "invalid profile". Every table has eight strictly decreasing limits. Profiles 6 and 7 give the incast and background tables in both modes. |
| `PbsLimits.ModeSelectsTable` | src/pbs/model/pbs.cc:206-247 | Profiles 1..5 select a different table per mode; profiles 6 and 7 ignore the mode. |
| `PbsLimits.Level` | src/pbs/model/pbs.cc:320-330 | The level is below 8. Every level above it has a limit the score exceeds. A level above 0 has a limit the score does not exceed, so it is the highest such level, with 0 as the floor. |
| `PbsLimits.LevelFrom` | src/pbs/model/pbs.cc:321-325 | The scan down from level `i` stops at or below `i`. Every level it passes has a limit the score exceeds, and a stop above 0 has a limit the score does not exceed. A score within limit 0 is within the stopping level's limit. |
| `PbsLimits.LevelIff` | src/pbs/model/pbs.cc:321-325 | On a decreasing table, a level k >= 1 is reached iff the score is within limit k. |
| `PbsLimits.LevelMonotone` | src/pbs/model/pbs.cc:321-325 | A larger score never gets a higher level. |
| `PbsLimits.ScanLevel` | src/pbs/model/pbs.cc:321-325 | The downward scan over `m_prioLimits`, with level 0 as the floor, returns `Level`. |
| `PbsLimits.ScanAsWritten` | src/pbs/model/pbs.cc:321-325 | With a `uint8_t` counter, the scan leaves the table (reading index 255) iff the score exceeds every limit. Otherwise it returns `Level`. |
| `PbsLimits.ExceedsAll` | src/pbs/model/pbs.cc:323 | On a decreasing table, exceeding every limit is the same as exceeding limit 0. |
| `PbsLimits.ScanOverflowWitness` | src/pbs/model/pbs.cc:211 | A score of 1 on the table `LimitsFor (1, false)` selects (profile 1, blind) drives the as-written scan out of the table. |
| `PbsLimits.W1BlindScenario` | src/pbs/model/pbs.cc:317-325 | Profile 1, blind mode (the table `LimitsFor (1, false)` selects): a score of 20000 / 2920^10 (the second packet, 2920 bytes sent, age 20000 ns) gets level 4. |
| `PbsFlow.BytesRemainingAsWritten` | src/pbs/model/pbs.cc:314 | The as-written result always fits 32 bits. It is the true remainder (at least 1) while `txBytes <= flowSize < 2^32`. Once more than the declared size is sent, it wraps to `2^32 - (txBytes - flowSize)`, and to 0 at exactly `2^32` over. |
| `PbsFlow.BytesRemaining` | src/pbs/model/pbs.cc:314 | Always at least 1. With less than the declared size sent, it plus `txBytes` is the declared size; otherwise it is 1. |
| `PbsFlow.BytesRemainingAgrees` | src/pbs/model/pbs.cc:314 | The corrected and the as-written remainder are equal while no more than a 32-bit declared size was sent. |
| `PbsFlow.BytesRemainingWrapWitness` | src/pbs/model/pbs.cc:314 | With 1000 bytes declared and 1500 sent, the code computes 4294966796 bytes remaining; the corrected value is 1. |
| `PbsFlow.BytesRemainingDecreases` | src/pbs/model/pbs.cc:314 | Sending more never leaves more remaining. |
| `PbsFlow.Touch` | src/pbs/model/pbs.cc:292-300 | No contract of its own; what it does to the counters, times and age is stated by `PbsFlow.ClassifyCounters` and `PbsFlow.ClassifyAge`. |
| `PbsFlow.LearnFlowSize` | src/pbs/model/pbs.cc:307-313 | No contract of its own; when the size is learned and the tag removed is stated by `PbsFlow.ClassifyFlowSize` and `PbsFlow.SentinelSizeIsUnknown`. |
| `PbsFlow.Denominator` | src/pbs/model/pbs.cc:314-317 | No contract of its own; the non-blind remainder it uses is `PbsFlow.BytesRemaining`, and the score built on it is stated by `PbsFlow.ClassifyLevel`. |
| `PbsFlow.Decide` | src/pbs/model/pbs.cc:320-328 | No contract of its own; level 0 at age 0 and the scan's level otherwise are stated by `PbsFlow.ClassifyLevel` and `PbsFlow.FirstPacketLevelZero`. |
| `PbsFlow.Record` | src/pbs/model/pbs.cc:331-332 | No contract of its own; the bytes and the packet going to the level are stated by `PbsFlow.ClassifyRecords`, and the kept sums by `PbsFlow.ClassifyKeepsFlowValid`. |
| `PbsFlow.ScoreAndBin` | src/pbs/model/pbs.cc:307-332 | No contract of its own; the logged score, the level and the recorded bytes are stated by `PbsFlow.ClassifyLevel` and `PbsFlow.ClassifyRecords`. |
| `PbsFlow.Bin` | src/pbs/model/pbs.cc:302-339 | No contract of its own; level 0 without PBS, the fatal invalid profile and the scored level are stated by `PbsFlow.ClassifyLevel`. |
| `PbsFlow.Classify` | src/pbs/model/pbs.cc:290-339 | No contract of its own; its properties are the `PbsFlow.Classify...` lemmas above and below, and `Pbs.PbsPacketFilter.DoClassify` is proved to produce exactly its record. |
| `PbsFlow.NewFlowStatsValid` | src/pbs/model/pbs.cc:180-192 | The record created for an unseen flow meets the record invariant in every mode. |
| `PbsFlow.ClassifyCounters` | src/pbs/model/pbs.cc:292-300 | Every call adds the size to `txBytes` and one to `txPackets`, and clears `firstTx`. The start is `now` on the first packet and kept otherwise. `timeLastTxPacket` becomes `now`, and the age is last minus first. |
| `PbsFlow.ClassifyAge` | src/pbs/model/pbs.cc:292-300 | With the clock not going back, the age never shrinks, and it is 0 on the first packet. |
| `PbsFlow.ClassifyLevel` | src/pbs/model/pbs.cc:302-330 | Without PBS: level 0 and no score logged. Invalid profile: the fatal outcome. Otherwise exactly one `(score, txBytes, age)` entry is logged, and the level is 0 when the age is 0 and the table's level of the score otherwise. |
| `PbsFlow.FirstPacketLevelZero` | src/pbs/model/pbs.cc:292-328 | A flow's first packet has age 0 and gets level 0, in both modes and with or without PBS. |
| `PbsFlow.ClassifyRecords` | src/pbs/model/pbs.cc:330-337 | A classified packet gets a level below 8. Its bytes and one packet go to that level, and the packet leaves with a `PrioTag` of that level. |
| `PbsFlow.ClassifyKeepsHistogramKeys` | src/pbs/model/pbs.cc:331-332 | Even the fatal call leaves both level histograms keyed by exactly the eight levels. |
| `PbsFlow.ClassifyKeepsFlowValid` | src/pbs/model/pbs.cc:290-332 | A classified packet keeps the record invariant: level sums equal the byte and packet counts, one score per packet, the age is last minus first, and a size is learned only in non-blind PBS. |
| `PbsFlow.ClassifyFlowSize` | src/pbs/model/pbs.cc:306-313 | A learned size never changes and its tag stays on the packet. Non-blind PBS with the sentinel held takes a `FlowSizeTag`'s value and removes the tag. Without non-blind PBS, size and tag are untouched. |
| `PbsFlow.SentinelSizeIsUnknown` | src/pbs/model/pbs.cc:307-311 | A tag declaring exactly 20000000 bytes leaves the record as no tag would. |
| `Pbs.LookupKeepsInvariant` | src/pbs/model/pbs.cc:173-199 | The record DoClassify works on, stored or fresh, is valid, level-keyed and no later than the clock. |
| `Pbs.WriteBackKeepsFlowsInvariant` | src/pbs/model/pbs.cc:290-332 | Writing back a record `size` bytes further on keeps the flows' invariant with the total plus `size`. |
| `Pbs.ClassifyKeepsFlowsInvariant` | src/pbs/model/pbs.cc:279-340 | One DoClassify step keeps the flows' invariant with the total plus the packet's size. After the fatal error, every part except the record invariant still holds. |
| `Pbs.ReportTable` | src/pbs/model/pbs.cc:131-165 | Per listed flow, the fields of its row: the id, then its byte or packet histogram's values in ascending level. |
| `Pbs.ReportTableLevels` | src/pbs/model/pbs.cc:188-192 | Over level-keyed records, those values are exactly levels 0..7. |
| `Pbs.LevelReport` | src/pbs/model/pbs.cc:131-165 | The rows follow ascending flow id, one per flow. Each row is exactly `CsvRow` of the id and the eight level values, and reads back as them. |
| `Pbs.PbsPacketFilter.constructor` | src/pbs/model/pbs.cc:61-64 | The filter starts with a zero total, no flows and no load, and satisfies `Valid()`. |
| `Pbs.PbsPacketFilter.GetTotalBytes` | src/pbs/model/pbs.cc:167-171 | `m_totalBytes` equals the sum of the load buckets and the sum of the flows' `txBytes`. |
| `Pbs.PbsPacketFilter.PeekLoadAtTime` | src/pbs/model/pbs.cc:257-261 | The load map's buckets add up to the total, and none lies after the clock. |
| `Pbs.PbsPacketFilter.GetStatsForFlow` | src/pbs/model/pbs.cc:173-199 | A stored record is returned unchanged. An unseen flow gets the fresh record (zero times and counters, sentinel size, `firstTx`, levels 0..7 at 0), which is inserted. Nothing else changes. |
| `Pbs.PbsPacketFilter.GetLoadStats` | src/pbs/model/pbs.cc:263-277 | Returns the bucket of `now`, creating it at 0 when absent. |
| `Pbs.PbsPacketFilter.MakePrioLimits` | src/pbs/model/pbs.cc:201-255 | It succeeds iff the profile has a table, in which case `m_prioLimits` holds that table. An invalid profile leaves the array unchanged. |
| `Pbs.PbsPacketFilter.BinPacket` | src/pbs/model/pbs.cc:302-339 | The imperative binning, with the table refill, the size learning, the score log and the scan, produces exactly `Bin`. A PBS-classified packet leaves `m_prioLimits` holding the profile's table; without PBS, or on the fatal invalid profile, `m_prioLimits` is unchanged. |
| `Pbs.PbsPacketFilter.AccountBytes` | src/pbs/model/pbs.cc:287-288 | The total grows by the size, and so does the load bucket of `now`. |
| `Pbs.PbsPacketFilter.UpdateFlow` | src/pbs/model/pbs.cc:290-339 | The flow's record is replaced by `Classify` of its old (or fresh) record, and no other flow changes. `m_prioLimits` holds the profile's table after a PBS-classified packet and is unchanged without PBS or on the invalid profile. |
| `Pbs.PbsPacketFilter.DoClassify` | src/pbs/model/pbs.cc:279-340 | `Valid()` is kept. The outcome, the tagged packet and the new record are those of `Classify`, and the total and the load bucket grow by the size. A fatal outcome marks the run aborted. `m_prioLimits` holds the profile's table after a PBS-classified packet and is unchanged without PBS or on the invalid profile. |
| `Pbs.PbsPacketFilter.ClassifySteps` | src/pbs/model/pbs.cc:282-339 | The state changes of DoClassify, stated without the invariant. |
| `Pbs.PbsPacketFilter.StreamToCsv` | src/pbs/model/pbs.cc:149-165 | One row per flow in ascending id. Each row is exactly `CsvRow` of the id followed by the bytes at levels 0..7 (each field in decimal and followed by `,`), and reads back as those fields. |
| `Pbs.PbsPacketFilter.StreamPacketsToCsv` | src/pbs/model/pbs.cc:131-147 | One row per flow in ascending id. Each row is exactly `CsvRow` of the id followed by the packets at levels 0..7 (each field in decimal and followed by `,`), and reads back as those fields. |
| `Load.AccountKeepsLoadInvariant` | src/pbs/model/pbs.cc:287-288 | Adding a packet's bytes to the total and to the bucket of a time no earlier than the clock keeps the load invariant. |
| `Histograms.Add` | src/pbs/model/pbs.cc:331 | `h[k] += x` adds key `k` if missing, raises `h[k]` by `x` from its old value (0 if absent), and leaves every other key as it was. |
| `Histograms.AddSum` | src/pbs/model/pbs.cc:331 | `h[k] += x` raises the histogram's sum by `x`. |
| `Histograms.EmptyHistogramSum` | src/pbs/model/pbs.cc:188-192 | The initial histogram is keyed by the eight levels and sums to 0. |
| `Histograms.ZeroHistogram` | src/pbs/model/pbs.cc:188-192 | The initialising loop builds exactly the eight levels at 0. |
| `Histograms.ValuesInKeyOrder` | src/pbs/model/pbs.cc:158-162 | Iterating a histogram yields its values in ascending key order. |
| `Histograms.InKeyOrderUnfold` | src/pbs/model/pbs.cc:158-162 | The iteration visits the least key first, then the others in order. |
| `Histograms.InKeyOrderSum` | src/pbs-switch/model/pbs-switch.cc:47-50 | The values the iteration visits add up to the histogram's sum. |
| `Histograms.LevelsSorted` | src/pbs/model/pbs.cc:188 | In ascending order, the eight levels are 0, 1, ..., 7. |
| `Histograms.LevelsInKeyOrder` | src/pbs/model/pbs.cc:158-162 | On a histogram over exactly the eight levels, the iteration yields the values at levels 0..7. |
| `Ordered.SortedKeys` | src/pbs/model/pbs.cc:152 | The ascending listing of a key set has one entry per key, each of them a key. |
| `Ordered.SortedKeysComplete` | src/pbs/model/pbs.cc:152 | Every key appears in the listing. |
| `Ordered.SortedKeysIncreasing` | src/pbs/model/pbs.cc:152 | The listing is strictly increasing. |
| `Ordered.SortedKeysUnfold` | src/pbs/model/pbs.cc:152 | The least key comes first, followed by the listing of the rest. |
| `Ordered.SortedRange` | src/pbs/model/pbs.cc:188 | The ascending listing of `lo..hi-1` is `lo, lo+1, ..., hi-1`. |
| `Ordered.AscendingKeys` | src/pbs/model/pbs.cc:152 | Repeatedly taking the least unvisited key yields the ascending listing. |
| `Text.Decimal` | src/pbs/model/pbs.cc:161 | An unsigned number prints as at least one digit, all characters are digits, and there is no leading zero. |
| `Text.DecimalRoundTrip` | src/pbs/model/pbs.cc:161 | Parsing a printed number gives it back. |
| `Text.CsvRowRoundTrip` | src/pbs/model/pbs.cc:157-163 | A row of comma-terminated decimal fields parses back to exactly its fields. |
| `Text.CsvRow` | src/pbs/model/pbs.cc:157-163 | A row is empty exactly when it has no fields. It holds only digits and commas, and a non-empty row ends in `,`. |
| `Text.Render` | src/pbs/model/pbs.cc:152-164 | One line per table row: line `i` is exactly `CsvRow` of row `i`, and it parses back to that row. |
| `TagBuffer.U8RoundTrip` | src/pbs/model/prioTag.cc:39-47 | Reading the byte written for a level gives the level back, whatever follows it. |
| `TagBuffer.U32RoundTrip` | src/pbs/model/flowSizeTag.cc:39-47 | Reading the four little-endian bytes written for a 32-bit value gives it back, whatever follows. |
| `TagBuffer.WriteU8` | src/pbs/model/prioTag.cc:41 | One byte is written; `TagBuffer.U8RoundTrip` reads it back. |
| `TagBuffer.ReadU8` | src/pbs/model/prioTag.cc:46 | No contract of its own; it inverts `WriteU8` by `TagBuffer.U8RoundTrip`. |
| `TagBuffer.WriteU32` | src/pbs/model/flowSizeTag.cc:41 | Four bytes are written, least significant first; `TagBuffer.U32RoundTrip` reads them back. |
| `TagBuffer.ReadU32` | src/pbs/model/flowSizeTag.cc:46 | No contract of its own; it inverts `WriteU32` by `TagBuffer.U32RoundTrip`. |
| `PrioTags.PrioTag.SetPrioValue` | src/pbs/model/prioTag.cc:54-62 | Afterwards the getter returns the value set. |
| `PrioTags.PrioTag.GetSerializedSize` | src/pbs/model/prioTag.cc:34-37 | The declared size, 1, is the length of what `WriteU8` writes. |
| `PrioTags.PrioTag.Serialize` | src/pbs/model/prioTag.cc:39-42 | It writes the declared number of bytes, and reading them yields the value. |
| `PrioTags.PrioTag.Deserialize` | src/pbs/model/prioTag.cc:44-47 | The value becomes the first byte. |
| `PrioTags.PrioTag.Print` | src/pbs/model/prioTag.cc:49-52 | The text is `priorityValue=` followed by exactly `Decimal` of the value (digits without a leading zero), which parse back to the value. |
| `PrioTags.SerializeRoundTrip` | src/pbs/model/prioTag.cc:39-47 | A receiving tag deserializes the sender's value. |
| `FlowSizeTags.FlowSizeTag.SetFlowSize` | src/pbs/model/flowSizeTag.cc:54-62 | Afterwards the getter returns the size set. |
| `FlowSizeTags.FlowSizeTag.GetSerializedSize` | src/pbs/model/flowSizeTag.cc:34-37 | As written: the declared size, 1, is three bytes short of what `WriteU32` writes. |
| `FlowSizeTags.FlowSizeTag.CorrectedSerializedSize` | src/pbs/model/flowSizeTag.cc:39-42 | 4, the length of what `WriteU32` writes. |
| `FlowSizeTags.FlowSizeTag.Serialize` | src/pbs/model/flowSizeTag.cc:39-42 | It writes 4 bytes, more than the declared size, and reading them yields the size. |
| `FlowSizeTags.FlowSizeTag.Deserialize` | src/pbs/model/flowSizeTag.cc:44-47 | The size becomes the little-endian value of the first four bytes. |
| `FlowSizeTags.FlowSizeTag.Print` | src/pbs/model/flowSizeTag.cc:49-52 | The text is `flowSize=` followed by exactly `Decimal` of the size (digits without a leading zero), which parse back to the size. |
| `FlowSizeTags.SerializeRoundTrip` | src/pbs/model/flowSizeTag.cc:39-47 | A receiving tag deserializes the sender's size. |
| `PbsSwitchFlow.ForwardedPrio` | src/pbs-switch/model/pbs-switch.cc:163-173 | The forwarded priority fits a `uint8_t`: the tag's value, or 0 without a tag. |
| `PbsSwitchFlow.Observe` | src/pbs-switch/model/pbs-switch.cc:179-189 | No contract of its own; its properties are the `PbsSwitchFlow.Observe...` lemmas, and `PbsSwitch.PbsSwitchPacketFilter.DoClassify` is proved to produce exactly its record. |
| `PbsSwitchFlow.NewFlowStatsValid` | src/pbs-switch/model/pbs-switch.cc:116-126 | The fresh switch record meets the switch record invariant. |
| `PbsSwitchFlow.ObserveCounters` | src/pbs-switch/model/pbs-switch.cc:184-189 | Bytes and packets advance, `timeLastTxPacket` becomes `now`, and the age is last minus first. The packet's priority gains its bytes, and every other priority is unchanged. |
| `PbsSwitchFlow.ObserveRestartsAtZero` | src/pbs-switch/model/pbs-switch.cc:179-183 | A start time of 0 is replaced by `now` (age 0); any other start time is kept. |
| `PbsSwitchFlow.FirstSeenAtZeroWitness` | src/pbs-switch/model/pbs-switch.cc:179-188 | A flow first seen at time 0 restarts on its next packet: after two packets its start is 5000 ns and its age is 0. |
| `PbsSwitchFlow.ObserveKeys` | src/pbs-switch/model/pbs-switch.cc:189 | The packet adds its priority as a key. The keys stay the same iff that priority was already a key; on a record keyed by the eight levels, iff the priority is below 8. |
| `PbsSwitchFlow.ObserveSum` | src/pbs-switch/model/pbs-switch.cc:189 | The bytes per priority grow in sum by the packet's size. |
| `PbsSwitchFlow.ObserveKeepsFlowValid` | src/pbs-switch/model/pbs-switch.cc:177-189 | With the clock not going back and a `uint8_t` priority, every packet keeps the record invariant: start <= last, age = last - start, the eight levels present, every key below 256, and the bytes per priority adding up to `txBytes`. |
| `PbsSwitch.LookupKeepsInvariant` | src/pbs-switch/model/pbs-switch.cc:109-132 | The record DoClassify works on, stored or fresh, is valid and no later than the clock. |
| `PbsSwitch.ObserveKeepsFlowsInvariant` | src/pbs-switch/model/pbs-switch.cc:176-189 | Observing a packet on its flow's record keeps the flows' invariant with the total plus the size. |
| `PbsSwitch.AgeNs` | src/pbs-switch/model/pbs-switch.cc:95 | No contract of its own; the age as `uint64_t`, which decides at line 96 whether a flow is rated (`PbsSwitch.RatedIds`). |
| `PbsSwitch.Rate` | src/pbs-switch/model/pbs-switch.cc:97 | No contract of its own; bits per nanosecond, defined only for a non-zero age. |
| `PbsSwitch.RatedIds` | src/pbs-switch/model/pbs-switch.cc:92-98 | Every reported flow is stored and has a non-zero age in ns. |
| `PbsSwitch.FlowRates` | src/pbs-switch/model/pbs-switch.cc:88-101 | No contract of its own; one rate per rated flow in the order of the flows, as `PbsSwitch.FlowRatesSnoc` and `PbsSwitch.PbsSwitchPacketFilter.GetFlowRates` state. |
| `PbsSwitch.RatedIdsMembers` | src/pbs-switch/model/pbs-switch.cc:92-98 | A flow is reported iff it is listed, stored and of non-zero age. |
| `PbsSwitch.RatedIdsIncreasing` | src/pbs-switch/model/pbs-switch.cc:92-98 | An increasing listing gives an increasing report. |
| `PbsSwitch.FlowRatesShape` | src/pbs-switch/model/pbs-switch.cc:88-101 | GetFlowRates reports every flow of non-zero age and no other, each once and in ascending id; by `FlowRates`, the i-th entry is the i-th reported flow's `txBytes * 8 / age`. |
| `PbsSwitch.CategoryFieldsAddUp` | src/pbs-switch/model/pbs-switch.cc:46-50 | On a valid record, a category row's second field is `txBytes`, and the per-priority fields after it add up to it. |
| `PbsSwitch.CategoryTable` | src/pbs-switch/model/pbs-switch.cc:41-53 | Per listed flow, the fields of its row: the id, `txBytes`, then the bytes per priority in ascending priority. |
| `PbsSwitch.PbsSwitchPacketFilter.constructor` | src/pbs-switch/model/pbs-switch.cc:28-31 | The filter starts with a zero total, no flows and no load, and satisfies `Valid()`. |
| `PbsSwitch.PbsSwitchPacketFilter.GetTotalBytes` | src/pbs-switch/model/pbs-switch.cc:82-86 | `m_totalBytes` equals the sum of the load buckets and the sum of the flows' `txBytes`. |
| `PbsSwitch.PbsSwitchPacketFilter.PeekLoadAtTime` | src/pbs-switch/model/pbs-switch.cc:103-107 | The load map's buckets add up to the total, and none lies after the clock. |
| `PbsSwitch.PbsSwitchPacketFilter.GetStatsForFlow` | src/pbs-switch/model/pbs-switch.cc:109-132 | A stored record is returned unchanged. An unseen flow gets the fresh record (zero times and counters, levels 0..7 at 0), which is inserted. Nothing else changes. |
| `PbsSwitch.PbsSwitchPacketFilter.GetLoadStats` | src/pbs-switch/model/pbs-switch.cc:134-148 | Returns the bucket of `now`, creating it at 0 when absent. |
| `PbsSwitch.PbsSwitchPacketFilter.AccountBytes` | src/pbs-switch/model/pbs-switch.cc:159-160 | The total grows by the size, and so does the load bucket of `now`. |
| `PbsSwitch.PbsSwitchPacketFilter.UpdateFlow` | src/pbs-switch/model/pbs-switch.cc:177-189 | The in-place field updates leave the flow's record equal to `Observe` of its old (or fresh) record, and no other flow changes. |
| `PbsSwitch.PbsSwitchPacketFilter.DoClassify` | src/pbs-switch/model/pbs-switch.cc:150-192 | `Valid()` is kept. The returned priority is the packet's tag value, or 0. The flow's record becomes `Observe` of its old record, and the total and the load bucket grow by the size. |
| `PbsSwitch.PbsSwitchPacketFilter.ClassifySteps` | src/pbs-switch/model/pbs-switch.cc:154-191 | The state changes of DoClassify, stated without the invariant. |
| `PbsSwitch.PbsSwitchPacketFilter.GetFlowRates` | src/pbs-switch/model/pbs-switch.cc:88-101 | The loop over the flows in ascending id returns exactly `FlowRates` of that listing. |
| `PbsSwitch.PbsSwitchPacketFilter.PrintFlowCategories` | src/pbs-switch/model/pbs-switch.cc:38-54 | One row per flow in ascending id. Each row is exactly `CsvRow` of the id, `txBytes` and the bytes per priority in ascending priority, and reads back as those fields. On every row, the per-priority fields add up to `txBytes`. |

## Left out

- Integer widths of the counters:
  - `txBytes`, `m_totalBytes`, the load buckets (`uint64_t`) and `txPackets` (`uint32_t`) are unbounded naturals, so their wrap-around is not modelled.
  - `uint8_t` and `uint32_t` are modelled where they decide behaviour: the scan counter, the bytes-remaining cast, the tag values and the switch's age cast to `uint64_t`.
- Floating point:
  - The score `age / pow (d, alpha)` is a parameter of the configuration, and `alpha` is not modelled.
  - Table limits and rates are exact reals rather than doubles.
- `Time` is an unbounded integer of nanoseconds, without `int64_t` overflow.
- FlowId: flow ids are `nat` map keys; every key the filters write comes from a `uint32_t` hash.
- `Simulator::Now ()` is the `now` parameter. The ghost clock only records that it never decreases.
- I/O: `std::ofstream` output is modelled as the returned rows of text. `PrintStats` (both filters) and `StreamRawPrioToCsv` are not modelled; their output is free text or floating-point percentages.
- ns-3 object plumbing is not modelled: `GetTypeId`, attributes, `NS_OBJECT_ENSURE_REGISTERED`, `GetInstanceTypeId`, `CheckProtocol` (it always returns true), and `Ptr` reference counting.
- `CheckProtocol` accepts every packet, so there is no bypass for control packets in the code or in the model.
- Tag buffer internals: the tag buffer is the byte sequence a tag writes and reads. Adding a second tag of the same type to a packet, and the packet tag list's own search, are not modelled.
- References returned by `GetStatsForFlow`: the C++ code returns a `FlowStats&` and updates the stored record through it. The model fetches a record value, updates it and writes it back. The two agree because nothing else touches the map in between.
- Uninitialised memory:
  - `m_prioLimits` before the first `MakePrioLimits` is an array of arbitrary reals.
  - A tag constructed without a value holds an arbitrary value.
- `pbs.h` declares `FlowStats` without `flowSize` and `m_nonBlind`, which `pbs.cc` uses. The model follows `pbs.cc`. `v1-pbs-switch.h` is an older header and is not modelled.
- Fatal error: `NS_FATAL_ERROR` on an invalid profile is the `InvalidProfile` outcome. The counters of that packet are already updated when it happens, and the invariants are then only claimed for the remaining parts. `Pbs.PbsPacketFilter.DoClassify` requires that no earlier call aborted.
- Three behaviours of the code that the model keeps as they are:
  - Every packet of age 0 gets level 0, in both modes (`PbsFlow.ClassifyLevel`, `PbsFlow.FirstPacketLevelZero`).
  - In non-blind mode the size hint is read on every packet for as long as the record holds the sentinel 20000000 (`PbsFlow.ClassifyFlowSize`).
  - A switch flow whose start time is 0 restarts on its next packet. This includes a flow first seen at time 0 (`PbsSwitchFlow.FirstSeenAtZeroWitness`).
- `PbsFlow.Classify`: uses the corrected remainder `BytesRemaining` and the scan with level 0 as its floor (`Level`), not the two as-written forms under "## Findings". It matches pbs.cc:314-325 exactly while no more than a 32-bit declared size was sent (`PbsFlow.BytesRemainingAgrees`) and the score does not exceed limit 0 (`PbsLimits.ScanAsWritten`, `PbsLimits.ExceedsAll`).
- `Pbs.PbsPacketFilter.BinPacket`: the same two corrections as `PbsFlow.Classify`, under the same conditions for agreement with pbs.cc:314-325. It calls `PbsLimits.ScanLevel`, not `PbsLimits.ScanAsWritten`.
- `Pbs.PbsPacketFilter.DoClassify`: classifies through `BinPacket`, so it carries the same two corrections and agrees with pbs.cc:314-325 under the same conditions.
- `PbsSwitch.PbsSwitchPacketFilter.GetFlowRates`: rates are exact reals `txBytes * 8 / age`, not the rounded double the code returns.

## Findings

| source | as written | input that shows it | evidently intended | confidence | as-written member | corrected member |
|---|---|---|---|---|---|---|
| src/pbs/model/pbs.cc:321-325 | `bin_prio` is a `uint8_t`, so `bin_prio >= 0` always holds. When the score exceeds every limit, `bin_prio--` wraps from 0 to 255 and the loop reads `m_prioLimits[255]`, outside the 8-entry array. | Profile 1, blind, score 1.0 (every limit is below 1e-18): `PbsLimits.ScanOverflowWitness` | The scan stops at level 0, the floor (line 330's `std::max (bin_prio, 0)` shows the intent) | not executed | `PbsLimits.ScanAsWritten` | `PbsLimits.ScanLevel` |
| src/pbs/model/pbs.cc:314 | `ref.flowSize - ref.txBytes` is unsigned 64-bit. Once a flow sends more than its declared size, it wraps to a huge value, and the cast to `uint32_t` keeps `2^32 - excess`, so the `std::max (1, ...)` clamp never applies. | flowSize 1000, txBytes 1500: 4294966796 instead of 1 (`PbsFlow.BytesRemainingWrapWitness`) | bytes remaining of at least 1, i.e. 1 once the declared size is reached | not executed | `PbsFlow.BytesRemainingAsWritten` | `PbsFlow.BytesRemaining` |
| src/pbs/model/flowSizeTag.cc:34-37 | `GetSerializedSize` returns 1, but `Serialize` writes a 32-bit value, 4 bytes (line 41) | any `FlowSizeTag`: `FlowSizeTags.FlowSizeTag.Serialize` writes 4 bytes against a declared size of 1 | 4 | not executed | `FlowSizeTags.FlowSizeTag.GetSerializedSize` | `FlowSizeTags.FlowSizeTag.CorrectedSerializedSize` |
