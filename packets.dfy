/**
  A queue-disc item as the two filters see it: its size, its flow hash and the
  two packet tags, each either attached or not.
*/
module Packets {
  import opened Ints
  import opened Wrappers

  /** Flow tables are keyed by the 32-bit flow hash; the key type is `nat` so that
      the ordered-key helpers apply, and every key written comes from a `uint32` hash. */
  type FlowId = nat

  datatype Packet = Packet(
    size: uint32,                  // item->GetSize ()
    hash: uint32,                  // item->Hash ()
    prioTag: Option<uint8>,        // a PrioTag in the packet-tag list
    flowSizeTag: Option<uint32>)   // a FlowSizeTag in the packet-tag list
}
