/**
 * Mumble's variable-length integer, as `UdpPacketBuilder.WriteVarLong` writes it
 * into voice packets, and a byte-level reader for the same scheme.
 *
 * The first byte says how long the number is:
 *   0xxxxxxx                 7-bit value
 *   10xxxxxx + 1 byte        14-bit value
 *   110xxxxx + 2 bytes       21-bit value
 *   1110xxxx + 3 bytes       28-bit value
 *   111100__ + 4 bytes       32-bit value
 *   111101__ + 8 bytes       64-bit value
 *   111110__ + varint        bitwise complement of the varint that follows
 *   111111xx                 bitwise complement of xx (the values -1 .. -4)
 * Trailing bytes are big-endian.
 */
module VarInt {
  import opened Common

  /** 256 to the power k. */
  function Pow256(k: nat): (r: nat)
    ensures r > 0
  {
    if k == 0 then 1 else 256 * Pow256(k - 1)
  }

  /** `x >> (8 * k)` on a non-negative number. */
  function ShiftRight(x: nat, k: nat): nat
  {
    if k == 0 then x else ShiftRight(x / 256, k - 1)
  }

  /** `(x >> (8 * k)) & 0xFF`. */
  function ByteAt(x: nat, k: nat): byte
  {
    ShiftRight(x, k) % 256
  }

  /** The n low-order bytes of x, most significant first. */
  function BigEndian(x: nat, n: nat): (r: seq<byte>)
    ensures |r| == n
  {
    if n == 0 then [] else BigEndian(x / 256, n - 1) + [x % 256]
  }

  /** The number a sequence of bytes spells, most significant first. */
  function BeValue(s: seq<byte>): nat
  {
    if |s| == 0 then 0 else BeValue(s[..|s| - 1]) * 256 + s[|s| - 1]
  }

  /** Byte j of `BigEndian(x, n)` is the byte the source extracts by shift and mask. */
  lemma {:induction false} BigEndianByteAt(x: nat, n: nat, j: nat)
    requires j < n
    ensures BigEndian(x, n)[j] == ByteAt(x, n - 1 - j)
  {
    if j == n - 1 {
    } else {
      BigEndianByteAt(x / 256, n - 1, j);
      ShiftRightStep(x, n - 1 - j);
    }
  }

  lemma {:induction false} ShiftRightStep(x: nat, k: nat)
    ensures ShiftRight(x, k + 1) == ShiftRight(x / 256, k)
  {
  }

  /**
   * Splitting a number into its part above the n low bytes and those bytes:
   * `x == (x >> 8n) * 256^n + value of the n low bytes`.
   */
  lemma {:induction false} SplitHigh(x: nat, n: nat)
    ensures BeValue(BigEndian(x, n)) < Pow256(n)
    ensures x == ShiftRight(x, n) * Pow256(n) + BeValue(BigEndian(x, n))
  {
    if n > 0 {
      var q := x / 256;
      SplitHigh(q, n - 1);
      var lo := BigEndian(q, n - 1);
      var s := lo + [x % 256];
      assert s[..|s| - 1] == lo;
      var h := ShiftRight(q, n - 1);
      var p := Pow256(n - 1);
      ShiftStep(x, q, h, p, BeValue(lo));
    }
  }

  /** The arithmetic of one step of `SplitHigh`. */
  lemma ShiftStep(x: nat, q: nat, h: nat, p: nat, b: nat)
    requires q == x / 256 && q == h * p + b && b < p
    ensures x == h * (256 * p) + (b * 256 + x % 256)
    ensures b * 256 + x % 256 < 256 * p
  {
    assert x == q * 256 + x % 256;
    assert (h * p + b) * 256 == h * (256 * p) + b * 256;
    assert b * 256 <= (p - 1) * 256;
  }

  /** A number below 256^n has nothing above its n low bytes. */
  lemma HighPartZero(x: nat, n: nat)
    requires x < Pow256(n)
    ensures ShiftRight(x, n) == 0
    ensures BeValue(BigEndian(x, n)) == x
  {
    SplitHigh(x, n);
    MulMono(1, ShiftRight(x, n), Pow256(n));
  }

  /** A number below 256^(n+1) has less than one byte above its n low bytes. */
  lemma HighPartBound(x: nat, n: nat, bound: nat)
    requires x < bound * Pow256(n)
    ensures ShiftRight(x, n) < bound
  {
    SplitHigh(x, n);
    MulMono(bound, ShiftRight(x, n), Pow256(n));
  }

  lemma MulMono(a: nat, b: nat, c: nat)
    ensures a <= b ==> a * c <= b * c
  {
    if a <= b {
      assert b * c == a * c + (b - a) * c;
    }
  }

  /** The bit pattern of a `long` read as a `ulong`: `(ulong)v`. */
  function ToULong(v: int): (r: nat)
    requires IsLong(v)
    ensures r < TWO_64 && (r == v || r == v + TWO_64)
  {
    if v < 0 then v + TWO_64 else v
  }

  /** The bit pattern of a `ulong` read as a `long`: `(long)u`. */
  function FromULong(u: nat): (r: int)
    requires u < TWO_64
    ensures IsLong(r) && (r == u || r == u - TWO_64)
  {
    if u < TWO_63 then u else u - TWO_64
  }

  /**
   * The bytes that `WriteVarLong` writes for a value whose bit pattern,
   * read as an unsigned number, is i (lines after the sign test).
   * Or-ing a tag into a lead byte whose tag bits are clear is addition.
   */
  function UnsignedEncoding(i: nat): (r: seq<byte>)
    requires i < TWO_64
    ensures 1 <= |r| <= 9
  {
    if i < 0x80 then
      [i]
    else if i < 0x4000 then
      HighPartBound(i, 1, 0x40);
      [ShiftRight(i, 1) + 0x80] + BigEndian(i, 1)
    else if i < 0x20_0000 then
      HighPartBound(i, 2, 0x20);
      [ShiftRight(i, 2) + 0xC0] + BigEndian(i, 2)
    else if i < 0x1000_0000 then
      HighPartBound(i, 3, 0x10);
      [ShiftRight(i, 3) + 0xE0] + BigEndian(i, 3)
    else if i < TWO_32 then
      [0xF0] + BigEndian(i, 4)
    else
      [0xF4] + BigEndian(i, 8)
  }

  /**
   * `WriteVarLong(value)`: values whose complement fits in 32 bits are written
   * as a complement, the four smallest of them in a single byte.
   */
  function Encode(v: int): (r: seq<byte>)
    requires IsLong(v)
    ensures 1 <= |r| <= 10
  {
    EncodeBits(ToULong(v))
  }

  /** The encoding by the 64-bit pattern `i` of the value. */
  function EncodeBits(i: ulong): (r: seq<byte>)
    ensures 1 <= |r| <= 10
  {
    if i >= TWO_63 && TWO_64 - 1 - i < TWO_32 then
      var c := TWO_64 - 1 - i;
      if c <= 3 then [0xFC + c] else [0xF8] + UnsignedEncoding(c)
    else
      UnsignedEncoding(i)
  }


  /**
   * Reads one varint from the front of s and returns its value as a `long`
   * together with the number of bytes it occupies, or nothing when s ends
   * before the number does.
   */
  function Decode(s: seq<byte>): (r: Option<(int, nat)>)
    ensures r.Some? ==> IsLong(r.value.0) && 1 <= r.value.1 <= |s|
    decreases |s|
  {
    if |s| == 0 then None
    else
      var b := s[0];
      if b < 0x80 then Some((b, 1))
      else if b < 0xC0 then Field(s, b - 0x80, 1)
      else if b < 0xE0 then Field(s, b - 0xC0, 2)
      else if b < 0xF0 then Field(s, b - 0xE0, 3)
      else if b < 0xF4 then Field(s, 0, 4)
      else if b < 0xF8 then
        (if |s| < 9 then None
         else
           BeValueBound(s[1..9]);
           PowValues();
           Some((FromULong(BeValue(s[1..9])), 9)))
      else if b < 0xFC then
        match Decode(s[1..])
        case None => None
        case Some((x, n)) => Some((-x - 1, n + 1))
      else
        Some((-(b as int - 0xFC) - 1, 1))
  }

  /** A lead byte carrying the high bits h, followed by n big-endian bytes. */
  function Field(s: seq<byte>, h: nat, n: nat): (r: Option<(int, nat)>)
    requires 1 <= |s| && h < 0x40 && 1 <= n <= 4
    ensures r.Some? ==> IsLong(r.value.0) && r.value.1 == n + 1 <= |s|
  {
    if |s| < n + 1 then None
    else
      var t := BeValue(s[1..n + 1]);
      BeValueBound(s[1..n + 1]);
      FieldBound(h, n, t);
      Some((h * Pow256(n) + t, n + 1))
  }

  lemma PowValues()
    ensures Pow256(1) == 0x100 && Pow256(2) == 0x1_0000 && Pow256(3) == 0x100_0000
    ensures Pow256(4) == TWO_32 && Pow256(8) == TWO_64
  {
  }

  /**
   * The unsigned forms: the length depends only on the magnitude, the first
   * byte carries the length tag and the high bits, and the remaining bytes
   * are the rest of the value, big-endian.
   */
  lemma UnsignedForm(i: nat)
    requires i < TWO_64
    ensures var r := UnsignedEncoding(i);
      && (i < 0x80 ==> r == [i])
      && (0x80 <= i < 0x4000 ==>
            |r| == 2 && 0x80 <= r[0] < 0xC0 && (r[0] - 0x80) * 0x100 + BeValue(r[1..]) == i)
      && (0x4000 <= i < 0x20_0000 ==>
            |r| == 3 && 0xC0 <= r[0] < 0xE0 && (r[0] - 0xC0) * 0x1_0000 + BeValue(r[1..]) == i)
      && (0x20_0000 <= i < 0x1000_0000 ==>
            |r| == 4 && 0xE0 <= r[0] < 0xF0 && (r[0] - 0xE0) * 0x100_0000 + BeValue(r[1..]) == i)
      && (0x1000_0000 <= i < TWO_32 ==> |r| == 5 && r[0] == 0xF0 && BeValue(r[1..]) == i)
      && (TWO_32 <= i ==> |r| == 9 && r[0] == 0xF4 && BeValue(r[1..]) == i)
  {
    var r := UnsignedEncoding(i);
    PowValues();
    if i < 0x80 {
    } else if i < 0x4000 {
      SplitHigh(i, 1);
      assert r[1..] == BigEndian(i, 1);
    } else if i < 0x20_0000 {
      SplitHigh(i, 2);
      assert r[1..] == BigEndian(i, 2);
    } else if i < 0x1000_0000 {
      SplitHigh(i, 3);
      assert r[1..] == BigEndian(i, 3);
    } else if i < TWO_32 {
      HighPartZero(i, 4);
      assert r[1..] == BigEndian(i, 4);
    } else {
      HighPartZero(i, 8);
      assert r[1..] == BigEndian(i, 8);
    }
  }

  /**
   * The signed forms: -1 .. -4 are the single byte 0xFC | ~v; other values
   * with ~v below 2^32 are 0xF8 followed by the encoding of ~v; every other
   * value is written as its unsigned 64-bit reinterpretation.
   */
  lemma SignedForm(v: int)
    requires IsLong(v)
    ensures -4 <= v <= -1 ==> Encode(v) == [0xFC + (-v - 1)]
    ensures -TWO_32 <= v < -4 ==> Encode(v) == [0xF8] + UnsignedEncoding(-v - 1)
    ensures 0 <= v ==> Encode(v) == UnsignedEncoding(v)
    ensures v < -TWO_32 ==> Encode(v) == UnsignedEncoding(v + TWO_64)
  {
  }

  /** Reading a `long`'s bit pattern back as a `long` gives the value. */
  lemma LongRoundTrip(v: int)
    requires IsLong(v)
    ensures FromULong(ToULong(v)) == v
  {
  }

  lemma FieldBound(h: nat, n: nat, t: nat)
    requires h < 0x40 && n <= 4 && t < Pow256(n)
    ensures h * Pow256(n) + t < 0x40 * Pow256(4)
  {
    PowMono(n, 4);
    MulMono(h, 0x3F, Pow256(n));
  }

  lemma {:induction false} BeValueBound(s: seq<byte>)
    ensures BeValue(s) < Pow256(|s|)
  {
    if |s| > 0 {
      BeValueBound(s[..|s| - 1]);
    }
  }

  lemma {:induction false} PowMono(m: nat, n: nat)
    requires m <= n
    ensures Pow256(m) <= Pow256(n)
  {
    if m < n {
      PowMono(m, n - 1);
    }
  }

  /** Reading back what the unsigned forms wrote yields the bit pattern as a `long`. */
  lemma DecodeUnsigned(i: nat, rest: seq<byte>)
    requires i < TWO_64
    ensures Decode(UnsignedEncoding(i) + rest) == Some((FromULong(i), |UnsignedEncoding(i)|))
  {
    var e := UnsignedEncoding(i);
    var s := e + rest;
    if i < 0x80 {
    } else if i < 0x4000 {
      TrailingBytes(i, 1, rest);
    } else if i < 0x20_0000 {
      TrailingBytes(i, 2, rest);
    } else if i < 0x1000_0000 {
      TrailingBytes(i, 3, rest);
    } else if i < TWO_32 {
      HighPartZero(i, 4);
      assert s[1..5] == BigEndian(i, 4);
    } else {
      HighPartZero(i, 8);
      assert s[1..9] == BigEndian(i, 8);
    }
  }

  lemma TrailingBytes(i: nat, n: nat, rest: seq<byte>)
    requires 1 <= n <= 3 && ShiftRight(i, n) < 0x40 && ShiftRight(i, n) + [0, 0x80, 0xC0, 0xE0][n] < 256
    ensures Field([ShiftRight(i, n) + [0, 0x80, 0xC0, 0xE0][n]] + BigEndian(i, n) + rest, ShiftRight(i, n), n)
            == Some((i, n + 1))
  {
    var s := [ShiftRight(i, n) + [0, 0x80, 0xC0, 0xE0][n]] + BigEndian(i, n) + rest;
    assert s[1..n + 1] == BigEndian(i, n);
    SplitHigh(i, n);
  }

  /** Every `long` is read back from the bytes `WriteVarLong` writes for it, whatever follows them. */
  lemma DecodeEncode(v: int, rest: seq<byte>)
    requires IsLong(v)
    ensures Decode(Encode(v) + rest) == Some((v, |Encode(v)|))
  {
    var i := ToULong(v);
    if i >= TWO_63 && TWO_64 - 1 - i < TWO_32 {
      var c := TWO_64 - 1 - i;
      assert c == -v - 1;
      if c > 3 {
        var s := Encode(v) + rest;
        assert s[1..] == UnsignedEncoding(c) + rest;
        DecodeUnsigned(c, rest);
      }
    } else {
      DecodeUnsigned(i, rest);
    }
  }

  /** Distinct values have distinct encodings, and no encoding is a prefix of another's. */
  lemma EncodePrefixFree(a: int, b: int, restA: seq<byte>, restB: seq<byte>)
    requires IsLong(a) && IsLong(b)
    requires Encode(a) + restA == Encode(b) + restB
    ensures a == b && Encode(a) == Encode(b)
  {
    DecodeEncode(a, restA);
    DecodeEncode(b, restB);
    var s := Encode(a) + restA;
    assert Encode(a) == s[..|Encode(a)|];
    assert Encode(b) == s[..|Encode(b)|];
  }

  /** `UdpPacketBuilder`: an append-only byte buffer for building voice packets. */
  class UdpPacketBuilder {
    var buffer: seq<byte>

    constructor()
      ensures buffer == []
    {
      buffer := [];
    }

    method WriteByte(value: byte)
      modifies this
      ensures buffer == old(buffer) + [value]
    {
      buffer := buffer + [value];
    }

    /** Appends n low bytes of i, most significant first, as the source's shift-and-mask writes do. */
    method WriteLowBytes(i: nat, n: nat)
      modifies this
      ensures buffer == old(buffer) + BigEndian(i, n)
    {
      var k := n;
      while k > 0
        invariant 0 <= k <= n
        invariant buffer == old(buffer) + BigEndian(i, n)[..(n - k)]
      {
        k := k - 1;
        BigEndianByteAt(i, n, n - 1 - k);
        assert BigEndian(i, n)[..(n - k)] == BigEndian(i, n)[..(n - k - 1)] + [ByteAt(i, k)];
        WriteByte(ByteAt(i, k));
      }
      assert BigEndian(i, n)[..n] == BigEndian(i, n);
    }

    method WriteVarLong(value: int)
      requires IsLong(value)
      modifies this
      ensures buffer == old(buffer) + Encode(value)
    {
      var i := ToULong(value);
      if i >= TWO_63 && TWO_64 - 1 - i < TWO_32 {
        WriteComplement(TWO_64 - 1 - i);
      } else {
        WriteUnsigned(i);
      }
    }


    /** A negative value whose complement `~value` is below 2^32. */
    method WriteComplement(complement: nat)
      requires complement < TWO_32
      modifies this
      ensures complement <= 3 ==> buffer == old(buffer) + [0xFC + complement]
      ensures complement > 3 ==> buffer == old(buffer) + [0xF8] + UnsignedEncoding(complement)
    {
      if complement <= 3 {
        WriteByte(0xFC + complement);
      } else {
        WriteByte(0xF8);
        WriteUnsigned(complement);
      }
    }



    /** The part of `WriteVarLong` after the sign test. */
    method WriteUnsigned(i: nat)
      requires i < TWO_64
      modifies this
      ensures buffer == old(buffer) + UnsignedEncoding(i)
    {
      if i < 0x80 {
        WriteByte(i);
      } else if i < 0x4000 {
        HighPartBound(i, 1, 0x40);
        WriteTagged(ShiftRight(i, 1) + 0x80, i, 1);
      } else if i < 0x20_0000 {
        HighPartBound(i, 2, 0x20);
        WriteTagged(ShiftRight(i, 2) + 0xC0, i, 2);
      } else if i < 0x1000_0000 {
        HighPartBound(i, 3, 0x10);
        WriteTagged(ShiftRight(i, 3) + 0xE0, i, 3);
      } else if i < TWO_32 {
        WriteTagged(0xF0, i, 4);
      } else {
        WriteTagged(0xF4, i, 8);
      }
    }

    /** A first byte, then the `n` low bytes of `i`, most significant first. */
    method WriteTagged(first: byte, i: nat, n: nat)
      modifies this
      ensures buffer == old(buffer) + [first] + BigEndian(i, n)
    {
      WriteByte(first);
      WriteLowBytes(i, n);
    }

    method Write(packet: seq<byte>)
      modifies this
      ensures buffer == old(buffer) + packet
    {
      buffer := buffer + packet;
    }

    method ToArray() returns (r: seq<byte>)
      ensures r == buffer
    {
      r := buffer;
    }
  }
}
