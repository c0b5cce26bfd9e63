/**
  The bytes a tag writes into and reads back from an ns-3 tag buffer.
  WriteU32/ReadU32 use the buffer's little-endian byte order.
*/
module TagBuffer {
  import opened Ints

  function WriteU8(v: uint8): (bytes: seq<uint8>)
    ensures |bytes| == 1
  {
    [v]
  }

  function ReadU8(bytes: seq<uint8>): uint8
    requires |bytes| >= 1
  {
    bytes[0]
  }

  function WriteU32(v: uint32): (bytes: seq<uint8>)
    ensures |bytes| == 4
  {
    [v % 0x100, v / 0x100 % 0x100, v / 0x1_0000 % 0x100, v / 0x100_0000 % 0x100]
  }

  function ReadU32(bytes: seq<uint8>): uint32
    requires |bytes| >= 4
  {
    var b0, b1, b2, b3: int := bytes[0], bytes[1], bytes[2], bytes[3];
    b0 + 0x100 * b1 + 0x1_0000 * b2 + 0x100_0000 * b3
  }

  /** Reading what was written gives back the value, whatever follows it in the buffer. */
  lemma U8RoundTrip(v: uint8, rest: seq<uint8>)
    ensures ReadU8(WriteU8(v) + rest) == v
  {
  }

  lemma U32RoundTrip(v: uint32, rest: seq<uint8>)
    ensures ReadU32(WriteU32(v) + rest) == v
  {
    var b := WriteU32(v) + rest;
    var q1, q2, q3 := v / 0x100, v / 0x1_0000, v / 0x100_0000;
    assert v == q1 * 0x100 + v % 0x100;
    assert q1 == q2 * 0x100 + q1 % 0x100;
    assert q2 == q3 * 0x100 + q2 % 0x100;
    assert q3 < 0x100;
    assert q1 / 0x100 == q2 && q2 / 0x100 == q3;
    assert b[1] == q1 % 0x100 && b[2] == q2 % 0x100 && b[3] == q3;
  }
}
