/** The declared-flow-size tag (src/pbs/model/flowSizeTag.cc): one 32-bit byte count. */
module FlowSizeTags {
  import opened Ints
  import opened TagBuffer
  import opened Text

  const PRINT_PREFIX: string := "flowSize="

  class FlowSizeTag {
    /** m_FlowSize: the a-priori size of the packet's flow, in bytes. */
    var flowSize: uint32

    /** The source's default constructor leaves the size unset; here it is arbitrary. */
    constructor ()
    {
    }

    method SetFlowSize(value: uint32)
      modifies this
      ensures GetFlowSize() == value
    {
      flowSize := value;
    }

    function GetFlowSize(): uint32
      reads this
    {
      flowSize
    }

    /**
      As written: the tag declares one byte, although Serialize writes the
      four bytes of a 32-bit value.
    */
    function GetSerializedSize(): (n: nat)
      ensures forall v :: |WriteU32(v)| == n + 3
    {
      1
    }

    /** The size the tag needs for what Serialize writes. */
    function CorrectedSerializedSize(): (n: nat)
      ensures forall v :: |WriteU32(v)| == n
    {
      4
    }

    /** Writes the size as four bytes; reading them back gives the size. */
    method Serialize() returns (bytes: seq<uint8>)
      ensures |bytes| == CorrectedSerializedSize() > GetSerializedSize()
      ensures forall rest :: ReadU32(bytes + rest) == flowSize
    {
      bytes := WriteU32(flowSize);
      forall rest { U32RoundTrip(flowSize, rest); }
    }

    method Deserialize(bytes: seq<uint8>)
      requires |bytes| >= 4
      modifies this
      ensures flowSize == ReadU32(bytes)
    {
      flowSize := ReadU32(bytes);
    }

    /** "flowSize=" and the size in decimal. */
    method Print() returns (s: string)
      ensures |s| > |PRINT_PREFIX| && s[..|PRINT_PREFIX|] == PRINT_PREFIX
      ensures s[|PRINT_PREFIX|..] == Decimal(flowSize)
      ensures ParseDecimal(s[|PRINT_PREFIX|..]) == flowSize
      ensures forall i :: |PRINT_PREFIX| <= i < |s| ==> IsDigit(s[i])
    {
      s := PRINT_PREFIX + Decimal(flowSize);
      assert s[|PRINT_PREFIX|..] == Decimal(flowSize);
      DecimalRoundTrip(flowSize);
    }
  }

  /** What one tag serializes, another deserializes to the same size. */
  method SerializeRoundTrip(sender: FlowSizeTag, receiver: FlowSizeTag)
    modifies receiver
    ensures receiver.GetFlowSize() == old(sender.GetFlowSize())
  {
    var bytes := sender.Serialize();
    assert bytes + [] == bytes;
    receiver.Deserialize(bytes);
  }
}
