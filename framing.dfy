/**
 * The 4-byte length prefix of a frame: `ByteBuffer.putInt` writes a 32-bit
 * integer big-endian in two's complement, and `ByteBuffer.getInt` reads it back
 * as a signed value.
 */
module Framing {
  import opened Base

  /** Size of the length prefix in bytes. */
  const PrefixSize: nat := 4

  /** A payload whose frame length `PrefixSize + size` still fits a Kotlin `Int`. */
  type Payload = s: seq<byte> | |s| <= IntMax - PrefixSize

  /** The bit pattern of a 32-bit two's complement integer. */
  function Unsigned(x: Int32): (u: int)
    ensures 0 <= u < 0x1_0000_0000
    ensures x >= 0 ==> u == x
  {
    if x < 0 then x + 0x1_0000_0000 else x
  }

  /** `ByteBuffer.allocate(4).putInt(x).array()`: most significant byte first. */
  function EncodeInt32(x: Int32): (b: seq<byte>)
    ensures |b| == PrefixSize
  {
    var u := Unsigned(x);
    [u / 0x100_0000, u / 0x1_0000 % 0x100, u / 0x100 % 0x100, u % 0x100]
  }

  /** The four bytes as an unsigned base-256 number, most significant first. */
  function BigEndian(b: seq<byte>): int
    requires |b| == PrefixSize
  {
    (b[0] as int) * 0x100_0000 + (b[1] as int) * 0x1_0000 + (b[2] as int) * 0x100 + (b[3] as int)
  }

  /** `ByteBuffer.wrap(b).int`: the four bytes read big-endian as a signed value. */
  function DecodeInt32(b: seq<byte>): Int32
    requires |b| == PrefixSize
  {
    var u := BigEndian(b);
    if u >= 0x8000_0000 then u - 0x1_0000_0000 else u
  }

  /** Splitting a 32-bit pattern into bytes and joining them gives it back. */
  lemma BytesOfUnsigned(u: int)
    requires 0 <= u < 0x1_0000_0000
    ensures u / 0x100_0000 * 0x100_0000 + u / 0x1_0000 % 0x100 * 0x1_0000
            + u / 0x100 % 0x100 * 0x100 + u % 0x100 == u
  {
    var q1 := u / 0x100;
    var q2 := q1 / 0x100;
    var q3 := q2 / 0x100;
    assert u == q1 * 0x100 + u % 0x100;
    assert q1 == q2 * 0x100 + q1 % 0x100;
    assert q2 == q3 * 0x100 + q2 % 0x100;
    assert u / 0x1_0000 == q2;
    assert u / 0x100_0000 == q3;
  }

  /** Decoding an encoded prefix gives back the integer, negative ones included. */
  lemma DecodeEncode(x: Int32)
    ensures DecodeInt32(EncodeInt32(x)) == x
  {
    BytesOfUnsigned(Unsigned(x));
  }

  /** Division by 256 of a number written as `q * 256 + r` with `r` a byte. */
  lemma SplitByte(u: int, q: int, r: int)
    requires 0 <= r < 0x100 && u == q * 0x100 + r
    ensures u / 0x100 == q && u % 0x100 == r
  {
  }

  /** Division by 2^16 of a number written as `q * 2^16 + r` with `r` below 2^16. */
  lemma SplitTwoBytes(u: int, q: int, r: int)
    requires 0 <= r < 0x1_0000 && u == q * 0x1_0000 + r
    ensures u / 0x1_0000 == q
  {
  }

  /** Division by 2^24 of a number written as `q * 2^24 + r` with `r` below 2^24. */
  lemma SplitThreeBytes(u: int, q: int, r: int)
    requires 0 <= r < 0x100_0000 && u == q * 0x100_0000 + r
    ensures u / 0x100_0000 == q
  {
  }

  /** Every 4-byte prefix is the encoding of the integer it decodes to. */
  lemma EncodeDecode(b: seq<byte>)
    requires |b| == PrefixSize
    ensures EncodeInt32(DecodeInt32(b)) == b
  {
    var u := BigEndian(b);
    assert Unsigned(DecodeInt32(b)) == u;
    var b0, b1, b2, b3 := b[0] as int, b[1] as int, b[2] as int, b[3] as int;
    SplitByte(u, b0 * 0x1_0000 + b1 * 0x100 + b2, b3);
    SplitByte(b0 * 0x1_0000 + b1 * 0x100 + b2, b0 * 0x100 + b1, b2);
    SplitTwoBytes(u, b0 * 0x100 + b1, b2 * 0x100 + b3);
    SplitByte(b0 * 0x100 + b1, b0, b1);
    SplitThreeBytes(u, b0, b1 * 0x1_0000 + b2 * 0x100 + b3);
    assert b == [b[0], b[1], b[2], b[3]];
  }

  /** The frame `send` writes: the length prefix of `msg` followed by `msg`. */
  function Frame(msg: Payload): (f: seq<byte>)
    ensures |f| == PrefixSize + |msg|
    ensures f[PrefixSize..] == msg
    ensures DecodeInt32(f[..PrefixSize]) == |msg|
  {
    DecodeEncode(|msg|);
    EncodeInt32(|msg|) + msg
  }

  /** The prefix of a frame is big-endian: its bytes are the base-256 digits of the size. */
  lemma FramePrefixBigEndian(msg: Payload)
    ensures var f := Frame(msg);
      BigEndian(f[..PrefixSize]) == |msg|
  {
    BytesOfUnsigned(|msg|);
  }
}
