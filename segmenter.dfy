/**
 * The recording callback of the Opus loop-back demo: recorded 16-bit
 * samples are appended to the samples left over from the last callback,
 * every whole segment of 960 samples is encoded, counted and decoded into
 * the play buffer, and the tail is kept for the next callback.
 */
module Segmenting {
  import opened Common
  import opened VoiceFrames
  import opened Encoding

  /** A signed 16-bit sample. */
  type short = x: int | -0x8000 <= x < 0x8000

  const ShortsPerSegment: nat := 960

  /** An encoded segment: a .NET array, whose length is an `int`. */
  type Encoded = s: seq<byte> | |s| < 0x8000_0000

  /** The little-endian sample in two bytes, as `MemoryMarshal.Cast<byte, short>` reads it. */
  function ShortOf(lo: byte, hi: byte): short
  {
    var u := lo + 256 * hi;
    if u < 0x8000 then u else u - 0x10000
  }

  /** The bit pattern of a sample as an unsigned 16-bit number. */
  function Pattern(s: short): (u: nat)
    ensures u < 0x10000
  {
    if s < 0 then s + 0x10000 else s
  }

  /** `MemoryMarshal.Cast<byte, short>`: an odd last byte is not part of any sample. */
  function AsShorts(bytes: seq<byte>): (r: seq<short>)
    ensures |r| == |bytes| / 2
    decreases |bytes|
  {
    if |bytes| < 2 then [] else [ShortOf(bytes[0], bytes[1])] + AsShorts(bytes[2..])
  }

  /** `MemoryMarshal.Cast<short, byte>`: each sample as its low byte, then its high byte. */
  function AsBytes(samples: seq<short>): (r: seq<byte>)
    ensures |r| == 2 * |samples|
  {
    if samples == [] then []
    else [Pattern(samples[0]) % 256, Pattern(samples[0]) / 256] + AsBytes(samples[1..])
  }

  /** Reading back the bytes of samples gives the samples. */
  lemma {:induction false} AsShortsAsBytes(samples: seq<short>)
    ensures AsShorts(AsBytes(samples)) == samples
  {
    if samples != [] {
      AsShortsAsBytes(samples[1..]);
      var b := AsBytes(samples);
      assert b[2..] == AsBytes(samples[1..]);
      assert ShortOf(b[0], b[1]) == samples[0];
      assert samples == [samples[0]] + samples[1..];
    }
  }

  /** The bytes of the encoded segments together. */
  function EncodedLength(encode: seq<short> -> Encoded, segments: seq<seq<short>>): nat
  {
    if segments == [] then 0
    else EncodedLength(encode, segments[..|segments| - 1]) + |encode(segments[|segments| - 1])|
  }

  /** `_bytesSent` after the segments: each encoded length added in turn, wrapping. */
  function SentAfter(sent: ulong, encode: seq<short> -> Encoded, segments: seq<seq<short>>): (r: ulong)
  {
    if segments == [] then sent
    else AddULong(SentAfter(sent, encode, segments[..|segments| - 1]), |encode(segments[|segments| - 1])|)
  }

  /** The count grows by exactly the encoded lengths of the segments, modulo 2^64. */
  lemma {:induction false} SentAfterWraps(sent: ulong, encode: seq<short> -> Encoded, segments: seq<seq<short>>)
    ensures SentAfter(sent, encode, segments) == (sent + EncodedLength(encode, segments)) % TWO_64
    ensures sent + EncodedLength(encode, segments) < TWO_64 ==> SentAfter(sent, encode, segments) == sent + EncodedLength(encode, segments)
    decreases |segments|
  {
    if segments != [] {
      var init := segments[..|segments| - 1];
      var n := |encode(segments[|segments| - 1])|;
      SentAfterWraps(sent, encode, init);
      WrapAdd(sent, EncodedLength(encode, init), n);
    } else {
      assert sent % TWO_64 == sent;
    }
  }

  /** The bytes the segments add to the play buffer: each decoded after its encoding, in order. */
  function Playback(encode: seq<short> -> Encoded, decode: seq<byte> -> seq<short>, segments: seq<seq<short>>): seq<byte>
  {
    if segments == [] then []
    else Playback(encode, decode, segments[..|segments| - 1]) + AsBytes(decode(encode(segments[|segments| - 1])))
  }

  /** The static state of the demo. */
  class OpusDemo {
    /** `_notEncodedBuffer`. */
    var notEncodedBuffer: seq<short>
    /** `_bytesSent`, an unchecked `ulong`. */
    var bytesSent: ulong
    /** The bytes added to `_playBuffer`, in order. */
    var played: seq<byte>
    /** `_encoder.Encode` and `_decoder.Decode` on a 960-sample segment. */
    const encode: seq<short> -> Encoded
    const decode: seq<byte> -> seq<short>

    constructor(encode: seq<short> -> Encoded, decode: seq<byte> -> seq<short>)
      ensures notEncodedBuffer == [] && bytesSent == 0 && played == []
      ensures this.encode == encode && this.decode == decode
    {
      notEncodedBuffer, bytesSent, played := [], 0, [];
      this.encode, this.decode := encode, decode;
    }

    /**
     * `_waveIn_DataAvailable` for the `BytesRecorded` bytes of a callback:
     * the segments are the whole 960-sample slices of the old residual
     * followed by the recorded samples; the new residual is what remains,
     * so no sample is lost or duplicated.
     */
    method DataAvailable(recorded: seq<byte>)
      modifies this`notEncodedBuffer, this`bytesSent, this`played
      ensures var sound := old(notEncodedBuffer) + AsShorts(recorded);
        && Flatten(Chunks(sound, ShortsPerSegment)) + notEncodedBuffer == old(notEncodedBuffer) + AsShorts(recorded)
        && notEncodedBuffer == Residual(sound, ShortsPerSegment) && |notEncodedBuffer| < ShortsPerSegment
        && bytesSent == SentAfter(old(bytesSent), encode, Chunks(sound, ShortsPerSegment))
        && played == old(played) + Playback(encode, decode, Chunks(sound, ShortsPerSegment))
    {
      var recordedShorts := AsShorts(recorded);
      var soundBuffer := notEncodedBuffer + recordedShorts;
      var segmentCount := |soundBuffer| / ShortsPerSegment;
      ChunksCover(soundBuffer, ShortsPerSegment);
      ResidualIsTail(soundBuffer, ShortsPerSegment);
      assert segmentCount * ShortsPerSegment == |soundBuffer| - |soundBuffer| % ShortsPerSegment;
      notEncodedBuffer := soundBuffer[segmentCount * ShortsPerSegment..];
      var sent, out := EncodeSegments(soundBuffer, segmentCount, bytesSent, encode, decode);
      bytesSent := sent;
      played := played + out;
    }
  }

  /**
   * The `for` loop of `_waveIn_DataAvailable`: segment i is the 960
   * samples from i * 960; each is encoded, its length added to the count
   * and its decoding appended to the playback.
   */
  method EncodeSegments(soundBuffer: seq<short>, segmentCount: nat, bytesSent: ulong,
                        encode: seq<short> -> Encoded, decode: seq<byte> -> seq<short>) returns (sent: ulong, out: seq<byte>)
    requires segmentCount == |soundBuffer| / ShortsPerSegment
    ensures sent == SentAfter(bytesSent, encode, Chunks(soundBuffer, ShortsPerSegment))
    ensures out == Playback(encode, decode, Chunks(soundBuffer, ShortsPerSegment))
  {
    ghost var segments := Chunks(soundBuffer, ShortsPerSegment);
    ChunksCover(soundBuffer, ShortsPerSegment);
    sent, out := bytesSent, [];
    for i := 0 to segmentCount
      invariant i * ShortsPerSegment <= |soundBuffer|
      invariant Chunks(soundBuffer[i * ShortsPerSegment..], ShortsPerSegment) == segments[i..]
      invariant sent == SentAfter(bytesSent, encode, segments[..i])
      invariant out == Playback(encode, decode, segments[..i])
    {
      SegmentStep(soundBuffer, i, segments);
      ghost var offset := i * ShortsPerSegment;
      assert (i + 1) * ShortsPerSegment == offset + ShortsPerSegment;
      var segment := soundBuffer[i * ShortsPerSegment..i * ShortsPerSegment + ShortsPerSegment];
      var buff := encode(segment);
      AccountStep(bytesSent, encode, decode, segments, i);
      sent := AddULong(sent, |buff|);
      var dec := decode(buff);
      out := out + AsBytes(dec);
    }
    assert segments[..segmentCount] == segments;
  }

  /** One segment more adds its encoded length and its playback at the end. */
  lemma AccountStep(sent: ulong, encode: seq<short> -> Encoded, decode: seq<byte> -> seq<short>, segments: seq<seq<short>>, i: nat)
    requires i < |segments|
    ensures SentAfter(sent, encode, segments[..i + 1]) == AddULong(SentAfter(sent, encode, segments[..i]), |encode(segments[i])|)
    ensures Playback(encode, decode, segments[..i + 1]) == Playback(encode, decode, segments[..i]) + AsBytes(decode(encode(segments[i])))
  {
    assert segments[..i + 1][..i] == segments[..i];
  }

  /** The slices from offset i * 960 start with the 960 samples there. */
  lemma SegmentStep(soundBuffer: seq<short>, i: nat, segments: seq<seq<short>>)
    requires i < |segments| && i * ShortsPerSegment <= |soundBuffer|
    requires Chunks(soundBuffer[i * ShortsPerSegment..], ShortsPerSegment) == segments[i..]
    ensures (i + 1) * ShortsPerSegment <= |soundBuffer|
    ensures segments[i] == soundBuffer[i * ShortsPerSegment..i * ShortsPerSegment + ShortsPerSegment]
    ensures Chunks(soundBuffer[(i + 1) * ShortsPerSegment..], ShortsPerSegment) == segments[i + 1..]
  {
    var offset := i * ShortsPerSegment;
    assert (i + 1) * ShortsPerSegment == offset + ShortsPerSegment;
    var rest := soundBuffer[offset..];
    assert |rest| >= ShortsPerSegment;
    assert rest[ShortsPerSegment..] == soundBuffer[(i + 1) * ShortsPerSegment..];
    assert segments[i..][1..] == segments[i + 1..];
  }

  /** `+=` on a `ulong` in unchecked arithmetic: a sum past the range wraps around once. */
  function AddULong(a: ulong, n: nat): (r: ulong)
    requires n < TWO_64
    ensures r == (a + n) % TWO_64
  {
    if a + n < TWO_64 then a + n else ModShift(1, a + n - TWO_64); a + n - TWO_64
  }

  /** Adding to a wrapped sum wraps the same as adding to the unwrapped one. */
  lemma WrapAdd(a: nat, x: nat, y: nat)
    ensures ((a + x) % TWO_64 + y) % TWO_64 == (a + x + y) % TWO_64
  {
    var q := (a + x) / TWO_64;
    assert a + x == q * TWO_64 + (a + x) % TWO_64;
    assert a + x + y == q * TWO_64 + ((a + x) % TWO_64 + y);
    ModShift(q, (a + x) % TWO_64 + y);
  }

  lemma ModShift(q: nat, z: nat)
    ensures (q * TWO_64 + z) % TWO_64 == z % TWO_64
  {
    var r, p := z % TWO_64, z / TWO_64;
    assert z == p * TWO_64 + r;
    assert q * TWO_64 + z == (q + p) * TWO_64 + r;
    DivUnique(q * TWO_64 + z, TWO_64, q + p, r);
  }
}
