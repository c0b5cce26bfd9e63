/** The per-packet priority tag (src/pbs/model/prioTag.cc): one 8-bit level. */
module PrioTags {
  import opened Ints
  import opened TagBuffer
  import opened Text

  const PRINT_PREFIX: string := "priorityValue="

  class PrioTag {
    /** m_PrioValue: any 8-bit value; nothing limits it to the eight levels. */
    var prioValue: uint8

    /** The source's default constructor leaves the value unset; here it is arbitrary. */
    constructor ()
    {
    }

    method SetPrioValue(value: uint8)
      modifies this
      ensures GetPrioValue() == value
    {
      prioValue := value;
    }

    function GetPrioValue(): uint8
      reads this
    {
      prioValue
    }

    /** The tag occupies one byte. */
    function GetSerializedSize(): (n: nat)
      ensures forall v :: |WriteU8(v)| == n
    {
      1
    }

    /** Writes the value as one byte; reading that byte back gives the value. */
    method Serialize() returns (bytes: seq<uint8>)
      ensures |bytes| == GetSerializedSize()
      ensures forall rest :: ReadU8(bytes + rest) == prioValue
    {
      bytes := WriteU8(prioValue);
      forall rest { U8RoundTrip(prioValue, rest); }
    }

    method Deserialize(bytes: seq<uint8>)
      requires |bytes| >= 1
      modifies this
      ensures prioValue == ReadU8(bytes)
    {
      prioValue := ReadU8(bytes);
    }

    /** "priorityValue=" and the value in decimal. */
    method Print() returns (s: string)
      ensures |s| > |PRINT_PREFIX| && s[..|PRINT_PREFIX|] == PRINT_PREFIX
      ensures s[|PRINT_PREFIX|..] == Decimal(prioValue)
      ensures ParseDecimal(s[|PRINT_PREFIX|..]) == prioValue
      ensures forall i :: |PRINT_PREFIX| <= i < |s| ==> IsDigit(s[i])
    {
      s := PRINT_PREFIX + Decimal(prioValue);
      assert s[|PRINT_PREFIX|..] == Decimal(prioValue);
      DecimalRoundTrip(prioValue);
    }
  }

  /** What one tag serializes, another deserializes to the same value. */
  method SerializeRoundTrip(sender: PrioTag, receiver: PrioTag)
    modifies receiver
    ensures receiver.GetPrioValue() == old(sender.GetPrioValue())
  {
    var bytes := sender.Serialize();
    assert bytes + [] == bytes;
    receiver.Deserialize(bytes);
  }
}
