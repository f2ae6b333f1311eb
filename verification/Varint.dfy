/**
 The variable-length integers of the protocol: base 128 with a continuation bit, at most five
 bytes, and zigzag for signed values.
 */
module Varint {
  import opened Numbers

  /** A value read from the front of a buffer, and what is left of the buffer. */
  datatype Read<T> = Failed | Got(value: T, rest: seq<Byte>)

  const MAX_BYTES := 5

  function WriteVaruint32(x: UInt32): seq<Byte> {
    if x < 128 then [x] else [x % 128 + 128] + WriteVaruint32(x / 128)
  }

  /** Reads at most `left` bytes; bits beyond the 32nd fall away. */
  function ReadUpTo(src: seq<Byte>, left: nat): Read<UInt32> {
    if left == 0 || src == [] then Failed
    else if src[0] < 128 then Got(src[0], src[1..])
    else
      match ReadUpTo(src[1..], left - 1)
      case Failed => Failed
      case Got(high, rest) => Got((src[0] - 128 + 128 * high) % 0x1_0000_0000, rest)
  }

  function ReadVaruint32(src: seq<Byte>): Read<UInt32> {
    ReadUpTo(src, MAX_BYTES)
  }

  function Power128(k: nat): nat {
    if k == 0 then 1 else 128 * Power128(k - 1)
  }

  lemma {:induction false} ReadUpToWritten(x: UInt32, tail: seq<Byte>, left: nat)
    requires left > 0 && x < Power128(left)
    ensures ReadUpTo(WriteVaruint32(x) + tail, left) == Got(x, tail)
  {
    var src := WriteVaruint32(x) + tail;
    if x < 128 {
      assert src[1..] == tail;
    } else {
      assert src[1..] == WriteVaruint32(x / 128) + tail;
      assert x / 128 < Power128(left - 1);
      ReadUpToWritten(x / 128, tail, left - 1);
    }
  }

  /** The number that groups of seven bits stand for, the lowest first. */
  function Base128(bytes: seq<Byte>): nat {
    if bytes == [] then 0 else bytes[0] % 128 + 128 * Base128(bytes[1..])
  }

  /** The bytes carry the number in groups of seven bits, and all but the last have the continuation bit. */
  lemma {:induction false} VaruintBytesAre(x: UInt32)
    ensures var bytes := WriteVaruint32(x);
            && bytes != [] && Base128(bytes) == x
            && forall i :: 0 <= i < |bytes| ==> (bytes[i] >= 128 <==> i < |bytes| - 1)
  {
    if x >= 128 {
      VaruintBytesAre(x / 128);
      assert WriteVaruint32(x)[1..] == WriteVaruint32(x / 128);
    }
  }

  lemma VaruintRoundTrip(x: UInt32, tail: seq<Byte>)
    ensures ReadVaruint32(WriteVaruint32(x) + tail) == Got(x, tail)
  {
    assert Power128(5) == 128 * (128 * (128 * (128 * (128 * Power128(0)))));
    ReadUpToWritten(x, tail, MAX_BYTES);
  }

  /** The reinterpretation of a 32-bit word as a signed number, and back. */
  function ToInt32(x: UInt32): Int32 {
    if x < 0x8000_0000 then x else x - 0x1_0000_0000
  }

  function ToUInt32(x: Int32): UInt32 {
    if x >= 0 then x else x + 0x1_0000_0000
  }

  function ZigZag(x: Int32): UInt32 {
    if x >= 0 then 2 * x else -2 * x - 1
  }

  function UnZigZag(u: UInt32): Int32 {
    if u % 2 == 0 then u / 2 else -(u / 2) - 1
  }

  function WriteVarint32(x: Int32): seq<Byte> {
    WriteVaruint32(ZigZag(x))
  }

  function ReadVarint32(src: seq<Byte>): Read<Int32> {
    match ReadVaruint32(src)
    case Failed => Failed
    case Got(u, rest) => Got(UnZigZag(u), rest)
  }

  lemma VarintRoundTrip(x: Int32, tail: seq<Byte>)
    ensures ReadVarint32(WriteVarint32(x) + tail) == Got(x, tail)
  {
    VaruintRoundTrip(ZigZag(x), tail);
  }

  /** Signed numbers are written so that the sign is the lowest bit: 0, -1, 1, -2, 2 become 0, 1, 2, 3, 4. */
  lemma VarintBytesAre(x: Int32)
    ensures WriteVarint32(x) != []
    ensures var u := Base128(WriteVarint32(x));
            (u % 2 == 0 <==> x >= 0) && x == if u % 2 == 0 then u / 2 else -1 - u / 2
  {
    VaruintBytesAre(ZigZag(x));
  }
}
