/**
 * The byte-order helpers of wav.h (the struct is called BigEndian there,
 * but with its default template argument it reads and writes
 * least-significant byte first) and the input stream they read from.
 *
 * A file being read is a `Stream`: the bytes not yet consumed, and the
 * stream's end-of-file flag. A read of n bytes consumes up to n bytes and
 * sets the flag when fewer than n were left.
 */
module LittleEndian {

  type Byte = b: int | 0 <= b < 256

  /** read16: the low byte comes first. */
  function Word16(b0: Byte, b1: Byte): (v: nat)
    ensures v < 0x1_0000
  {
    b0 + 0x100 * b1
  }

  /** read32: least significant byte first. */
  function Word32(b0: Byte, b1: Byte, b2: Byte, b3: Byte): (v: nat)
    ensures v < 0x1_0000_0000
  {
    b0 + 0x100 * (b1 + 0x100 * (b2 + 0x100 * b3))
  }

  /**
   * write16: the value, converted to its low 16 bits by the parameter
   * type, emitted low byte first.
   */
  function Bytes16(v: nat): (r: seq<Byte>)
    ensures |r| == 2
  {
    [v % 0x100, (v / 0x100) % 0x100]
  }

  /** write32: the value's low 32 bits, least significant byte first. */
  function Bytes32(v: nat): (r: seq<Byte>)
    ensures |r| == 4
  {
    [v % 0x100, (v / 0x100) % 0x100, (v / 0x1_0000) % 0x100, (v / 0x100_0000) % 0x100]
  }

  /** Reading back what write16 emitted gives the value modulo 2^16. */
  lemma Word16OfBytes16(v: nat)
    ensures Word16(Bytes16(v)[0], Bytes16(v)[1]) == v % 0x1_0000
  {
    var q := v / 0x100;
    assert v == 0x100 * q + v % 0x100;
    assert q == 0x100 * (q / 0x100) + q % 0x100;
    assert v == 0x1_0000 * (q / 0x100) + (q % 0x100) * 0x100 + v % 0x100;
  }

  /** Writing what read16 returned gives the same two bytes back. */
  lemma Bytes16OfWord16(b0: Byte, b1: Byte)
    ensures Bytes16(Word16(b0, b1)) == [b0, b1]
  {
    var v := Word16(b0, b1);
    assert v / 0x100 == b1;
  }

  /** Reading back what write32 emitted gives the value modulo 2^32. */
  lemma Word32OfBytes32(v: nat)
    ensures Word32(Bytes32(v)[0], Bytes32(v)[1], Bytes32(v)[2], Bytes32(v)[3]) == v % 0x1_0000_0000
  {
    var q1 := v / 0x100;
    var q2 := q1 / 0x100;
    var q3 := q2 / 0x100;
    var q4 := q3 / 0x100;
    ByteShift(v, 0x1, v);
    ByteShift(v, 0x100, q1);
    ByteShift(v, 0x1_0000, q2);
    ByteShift(v, 0x100_0000, q3);
    assert Bytes32(v) == [v % 0x100, q1 % 0x100, q2 % 0x100, q3 % 0x100];
    assert v == (v % 0x100) + 0x100 * (q1 % 0x100) + 0x1_0000 * (q2 % 0x100)
      + 0x100_0000 * (q3 % 0x100) + 0x1_0000_0000 * q4;
  }

  /** Dividing by 256 once more after dividing by `d` divides by 256 * d. */
  lemma ByteShift(v: nat, d: nat, q: nat)
    requires d in {0x1, 0x100, 0x1_0000, 0x100_0000} && q == v / d
    ensures q / 0x100 == v / (d * 0x100)
  {
    if d == 0x100 {
      assert v == 0x1_0000 * (q / 0x100) + (0x100 * (q % 0x100) + (v - 0x100 * q));
    } else if d == 0x1_0000 {
      assert v == 0x100_0000 * (q / 0x100) + (0x1_0000 * (q % 0x100) + (v - 0x1_0000 * q));
    } else if d == 0x100_0000 {
      assert v == 0x1_0000_0000 * (q / 0x100) + (0x100_0000 * (q % 0x100) + (v - 0x100_0000 * q));
    }
  }

  /** A number written as a low byte and a high part splits back into them. */
  lemma LowByte(x: nat, lo: nat, hi: nat)
    requires lo < 0x100 && x == lo + 0x100 * hi
    ensures x / 0x100 == hi && x % 0x100 == lo
  {
  }

  /** Writing what read32 returned gives the same four bytes back. */
  lemma Bytes32OfWord32(b0: Byte, b1: Byte, b2: Byte, b3: Byte)
    ensures Bytes32(Word32(b0, b1, b2, b3)) == [b0, b1, b2, b3]
  {
    var v := Word32(b0, b1, b2, b3);
    var w2 := b2 + 0x100 * b3;
    var w1 := b1 + 0x100 * w2;
    LowByte(v, b0, w1);
    LowByte(w1, b1, w2);
    LowByte(w2, b2, b3);
    LowByte(b3, b3, 0);
    ByteShift(v, 0x100, w1);
    ByteShift(v, 0x1_0000, w2);
  }

  // The input stream.

  datatype Stream = Stream(rest: seq<Byte>, eof: bool)

  /** A value read from a stream, and the stream after the read. */
  datatype Taken<T> = Taken(value: T, next: Stream)

  /**
   * A measure that no read increases and every read of at least one
   * byte from a stream not yet at its end decreases.
   */
  function Remaining(s: Stream): nat
  {
    2 * |s.rest| + (if s.eof then 0 else 1)
  }

  /** The byte at position i, or 0 past the end: the source leaves such bytes uninitialised. */
  function At(bytes: seq<Byte>, i: nat): (b: Byte)
    ensures i < |bytes| ==> b == bytes[i]
    ensures |bytes| <= i ==> b == 0
  {
    if i < |bytes| then bytes[i] else 0
  }

  /**
   * Consuming n bytes (in.read of n bytes, or file.ignore(n)): the stream
   * reaches its end when fewer than n were left.
   */
  function Skip(s: Stream, n: nat): (r: Stream)
    ensures r.eof <==> s.eof || n > |s.rest|
    ensures Remaining(r) <= Remaining(s)
    ensures 0 < n && !s.eof ==> Remaining(r) < Remaining(s)
  {
    if n <= |s.rest| then Stream(s.rest[n..], s.eof) else Stream([], true)
  }

  /** read16 on a stream. */
  function Read16(s: Stream): (r: Taken<nat>)
    ensures r.value < 0x1_0000
    ensures Remaining(r.next) < Remaining(s) || s.eof
    ensures Remaining(r.next) <= Remaining(s)
  {
    Taken(Word16(At(s.rest, 0), At(s.rest, 1)), Skip(s, 2))
  }

  /** read32 on a stream. */
  function Read32(s: Stream): (r: Taken<nat>)
    ensures r.value < 0x1_0000_0000
    ensures Remaining(r.next) < Remaining(s) || s.eof
    ensures Remaining(r.next) <= Remaining(s)
  {
    Taken(Word32(At(s.rest, 0), At(s.rest, 1), At(s.rest, 2), At(s.rest, 3)), Skip(s, 4))
  }

  /** A stream positioned at what write16 emitted reads that value back. */
  lemma Read16Written(v: nat, rest: seq<Byte>)
    ensures Read16(Stream(Bytes16(v) + rest, false)) == Taken(v % 0x1_0000, Stream(rest, false))
  {
    var s := Stream(Bytes16(v) + rest, false);
    assert s.rest[2..] == rest;
    Word16OfBytes16(v);
  }

  /** A stream positioned at what write32 emitted reads that value back. */
  lemma Read32Written(v: nat, rest: seq<Byte>)
    ensures Read32(Stream(Bytes32(v) + rest, false)) == Taken(v % 0x1_0000_0000, Stream(rest, false))
  {
    var s := Stream(Bytes32(v) + rest, false);
    assert s.rest[4..] == rest;
    Word32OfBytes32(v);
  }

  lemma Small16(v: nat)
    requires v < 0x1_0000
    ensures v % 0x1_0000 == v
  {
  }

  lemma Small32(v: nat)
    requires v < 0x1_0000_0000
    ensures v % 0x1_0000_0000 == v
  {
  }

  /** A 16-bit value written and read back is unchanged. */
  lemma Read16Exact(v: nat, rest: seq<Byte>)
    requires v < 0x1_0000
    ensures Read16(Stream(Bytes16(v) + rest, false)) == Taken(v, Stream(rest, false))
  {
    Read16Written(v, rest);
    Small16(v);
  }

  /** A 32-bit value written and read back is unchanged. */
  lemma Read32Exact(v: nat, rest: seq<Byte>)
    requires v < 0x1_0000_0000
    ensures Read32(Stream(Bytes32(v) + rest, false)) == Taken(v, Stream(rest, false))
  {
    Read32Written(v, rest);
    Small32(v);
  }

  /** read32 with four bytes left takes exactly those four. */
  lemma Read32Full(s: Stream)
    requires 4 <= |s.rest|
    ensures Read32(s) == Taken(Word32(s.rest[0], s.rest[1], s.rest[2], s.rest[3]), Stream(s.rest[4..], s.eof))
  {
  }

  /** read32 with fewer than four bytes left cannot produce a value with a non-zero top byte. */
  lemma Read32Short(s: Stream)
    requires |s.rest| < 4
    ensures Read32(s).value < 0x100_0000
  {
  }
}
