/**
 * The client's outbound voice packets: an encoded packet is cut into
 * blocks of at most 480 bytes, and each block travels in its own voice
 * packet with a one-byte header (codec type, talk target), the sequence
 * number and the block length as varints, and the block itself.
 */
module VoiceFrames {
  import opened Common
  import opened Packets
  import opened VarInt

  /** `maxSize` in `EncodingThreadEntry`. */
  const MaxBlock: nat := 480

  /** The blocks `EncodingThreadEntry` cuts from a packet, front to back. */
  function Blocks(p: seq<byte>): (r: seq<seq<byte>>)
    decreases |p|
  {
    if |p| == 0 then []
    else
      var n := if |p| < MaxBlock then |p| else MaxBlock;
      [p[..n]] + Blocks(p[n..])
  }

  /** The blocks laid end to end. */
  function Flatten<T>(blocks: seq<seq<T>>): seq<T>
  {
    if blocks == [] then [] else blocks[0] + Flatten(blocks[1..])
  }

  /**
   * The blocks cover the packet exactly and in order; each holds between
   * one and 480 bytes, all but the last exactly 480.
   */
  lemma {:induction false} BlocksCover(p: seq<byte>)
    ensures Flatten(Blocks(p)) == p
    ensures forall k | 0 <= k < |Blocks(p)| :: 1 <= |Blocks(p)[k]| <= MaxBlock
    ensures forall k | 0 <= k < |Blocks(p)| - 1 :: |Blocks(p)[k]| == MaxBlock
    ensures |Blocks(p)| == (|p| + MaxBlock - 1) / MaxBlock
    decreases |p|
  {
    if |p| > 0 {
      var n := if |p| < MaxBlock then |p| else MaxBlock;
      BlocksCover(p[n..]);
      var r := Blocks(p);
      assert r == [p[..n]] + Blocks(p[n..]);
      assert r[1..] == Blocks(p[n..]);
      assert p[..n] + p[n..] == p;
      forall k | 1 <= k < |r|
        ensures r[k] == Blocks(p[n..])[k - 1]
      {
      }
      if |p| >= MaxBlock {
        assert (|p| + MaxBlock - 1) / MaxBlock == (|p| - MaxBlock + MaxBlock - 1) / MaxBlock + 1;
      } else {
        assert Blocks(p[n..]) == [];
      }
    }
  }

  /** The header byte: codec type 4 (Opus) or 0, shifted left by five, with talk target 0. */
  function TypeByte(codec: SpeechCodec): (b: byte)
    ensures codec == Opus ==> b == 4 * 32
    ensures codec != Opus ==> b == 0
    ensures b % 32 == 0
  {
    if codec == Opus then 0x80 else 0
  }

  /** One voice packet: header byte, sequence varint, length varint, block. */
  function VoicePacket(codec: SpeechCodec, sequence: uint, block: seq<byte>): (r: seq<byte>)
    requires |block| < TWO_32
    ensures |r| >= 3 + |block| && r[0] == TypeByte(codec)
    ensures r[|r| - |block|..] == block
  {
    [TypeByte(codec)] + UnsignedEncoding(sequence) + UnsignedEncoding(|block|) + block
  }

  predicate SmallBlocks(blocks: seq<seq<byte>>)
  {
    forall k | 0 <= k < |blocks| :: |blocks[k]| < TWO_32
  }

  /** A block paired with the sequence number it is sent under. */
  datatype Frame = Frame(sequence: uint, block: seq<byte>)

  /** The frames for consecutive blocks: `sequenceIndex++` after each, wrapping at 2^32. */
  function Frames(sequence: uint, blocks: seq<seq<byte>>): (r: seq<Frame>)
    ensures |r| == |blocks|
    ensures forall k | 0 <= k < |r| :: r[k].block == blocks[k]
    decreases |blocks|
  {
    if blocks == [] then []
    else [Frame(sequence, blocks[0])] + Frames((sequence + 1) % TWO_32, blocks[1..])
  }

  /** The k-th frame carries the k-th block and the k-th sequence number after the first. */
  lemma {:induction false} FramesAt(sequence: uint, blocks: seq<seq<byte>>, k: nat)
    requires k < |blocks|
    ensures Frames(sequence, blocks)[k] == Frame((sequence + k) % TWO_32, blocks[k])
    decreases k
  {
    if k > 0 {
      var next := (sequence + 1) % TWO_32;
      assert Frames(sequence, blocks)[k] == Frames(next, blocks[1..])[k - 1];
      FramesAt(next, blocks[1..], k - 1);
      WrapStep(sequence, k);
    }
  }

  /** Counting k from the successor of s is counting k + 1 from s, modulo 2^32. */
  lemma WrapStep(s: uint, k: nat)
    requires k >= 1
    ensures ((s + 1) % TWO_32 + (k - 1)) % TWO_32 == (s + k) % TWO_32
  {
    if s + 1 < TWO_32 {
      assert (s + 1) % TWO_32 == s + 1;
    } else {
      assert (s + 1) % TWO_32 == 0;
      assert s + k == (k - 1) + TWO_32;
    }
  }

  predicate SmallFrames(frames: seq<Frame>)
  {
    forall k | 0 <= k < |frames| :: |frames[k].block| < TWO_32
  }

  /** Each frame as a voice packet of the given codec, in order. */
  function Serialize(codec: SpeechCodec, frames: seq<Frame>): (r: seq<seq<byte>>)
    requires SmallFrames(frames)
    ensures |r| == |frames|
    ensures forall k | 0 <= k < |frames| :: r[k] == VoicePacket(codec, frames[k].sequence, frames[k].block)
    decreases |frames|
  {
    if frames == [] then []
    else
      var rest := Serialize(codec, frames[1..]);
      assert forall k | 1 <= k < |frames| :: frames[1..][k - 1] == frames[k];
      [VoicePacket(codec, frames[0].sequence, frames[0].block)] + rest
  }

  /** The packets `EncodingThreadEntry` sends for consecutive blocks, starting at a sequence number. */
  function VoicePackets(codec: SpeechCodec, sequence: uint, blocks: seq<seq<byte>>): seq<seq<byte>>
    requires SmallBlocks(blocks)
  {
    Serialize(codec, Frames(sequence, blocks))
  }

  /** The k-th packet carries the k-th block under the k-th sequence number after the first. */
  lemma VoicePacketsAt(codec: SpeechCodec, sequence: uint, blocks: seq<seq<byte>>, k: nat)
    requires SmallBlocks(blocks) && k < |blocks|
    ensures SmallFrames(Frames(sequence, blocks))
    ensures |VoicePackets(codec, sequence, blocks)| == |blocks|
    ensures VoicePackets(codec, sequence, blocks)[k] == VoicePacket(codec, (sequence + k) % TWO_32, blocks[k])
  {
    FramesAt(sequence, blocks, k);
  }

  /** The packets for a first block and the rest: that block's packet, then the rest from the next sequence number. */
  lemma VoicePacketsCons(codec: SpeechCodec, sequence: uint, block: seq<byte>, blocks: seq<seq<byte>>)
    requires |block| < TWO_32 && SmallBlocks(blocks)
    ensures SmallBlocks([block] + blocks)
    ensures VoicePackets(codec, sequence, [block] + blocks)
         == [VoicePacket(codec, sequence, block)] + VoicePackets(codec, (sequence + 1) % TWO_32, blocks)
  {
    var bs := [block] + blocks;
    assert bs[1..] == blocks;
    var fs := Frames(sequence, bs);
    assert fs == [Frame(sequence, block)] + Frames((sequence + 1) % TWO_32, blocks);
    assert fs[1..] == Frames((sequence + 1) % TWO_32, blocks);
  }

  /** Blocks of a packet are small enough for a voice packet. */
  lemma BlocksAreSmall(p: seq<byte>)
    ensures SmallBlocks(Blocks(p))
  {
    BlocksCover(p);
  }

  /** A reader for the layout: header byte, sequence, length, then exactly that many bytes. */
  function ParseVoicePacket(bytes: seq<byte>): (r: Option<(byte, uint, seq<byte>)>)
  {
    if |bytes| == 0 then None else AfterSequence(bytes, Decode(bytes[1..]))
  }

  /** The rest of the reader, once the sequence varint after the type byte is decoded. */
  function AfterSequence(bytes: seq<byte>, d1: Option<(int, nat)>): (r: Option<(byte, uint, seq<byte>)>)
    requires |bytes| > 0
  {
    if d1.None? || !(0 <= d1.value.0 < TWO_32) || 1 + d1.value.1 > |bytes| then None
    else AfterLength(bytes, d1.value.0 as uint, d1.value.1, Decode(bytes[1 + d1.value.1..]))
  }

  /** The last step of the reader: the block the length varint announces, if the packet holds it. */
  function AfterLength(bytes: seq<byte>, sequence: uint, n: nat, d2: Option<(int, nat)>): (r: Option<(byte, uint, seq<byte>)>)
    requires 0 < 1 + n <= |bytes|
  {
    if d2.None? then None
    else
      var length := d2.value.0;
      var m := d2.value.1;
      if length < 0 || 1 + n + m + length > |bytes| then None
      else Some((bytes[0], sequence, bytes[1 + n + m..1 + n + m + length]))
  }

  /** Reading a voice packet gives back its header byte, sequence number and block. */
  lemma ParseVoicePacketInverse(codec: SpeechCodec, sequence: uint, block: seq<byte>)
    requires |block| < TWO_32
    ensures ParseVoicePacket(VoicePacket(codec, sequence, block)) == Some((TypeByte(codec), sequence, block))
  {
    VoicePacketFields(codec, sequence, block);
    ParseAt(VoicePacket(codec, sequence, block), sequence,
      |UnsignedEncoding(sequence)|, |UnsignedEncoding(|block|)|, block);
  }

  /** The two varints of a voice packet decode to its sequence number and block length. */
  lemma VoicePacketFields(codec: SpeechCodec, sequence: uint, block: seq<byte>)
    requires |block| < TWO_32
    ensures var bytes, n, m := VoicePacket(codec, sequence, block), |UnsignedEncoding(sequence)|, |UnsignedEncoding(|block|)|;
      && 1 + n + m + |block| == |bytes|
      && Decode(bytes[1..]) == Some((sequence as int, n))
      && Decode(bytes[1 + n..]) == Some((|block|, m))
      && bytes[1 + n + m..1 + n + m + |block|] == block
  {
    var es := UnsignedEncoding(sequence);
    var el := UnsignedEncoding(|block|);
    var bytes := VoicePacket(codec, sequence, block);
    assert bytes == [TypeByte(codec)] + es + el + block;
    Layout(TypeByte(codec), es, el, block);
    DecodeSmall(sequence, el + block, bytes[1..]);
    DecodeSmall(|block|, block, bytes[1 + |es|..]);
  }

  /** Where the pieces of a packet sit once concatenated. */
  lemma Layout<T>(t: T, es: seq<T>, el: seq<T>, block: seq<T>)
    ensures ([t] + es + el + block)[1..] == UnsignedPrefix(es, el + block)
    ensures ([t] + es + el + block)[1 + |es|..] == UnsignedPrefix(el, block)
    ensures ([t] + es + el + block)[1 + |es| + |el|..1 + |es| + |el| + |block|] == block
  {
    var bytes := [t] + es + el + block;
    assert bytes[1..] == es + (el + block);
    assert bytes[1 + |es|..] == el + block;
    assert bytes[1 + |es| + |el|..] == block;
  }

  function UnsignedPrefix<T>(e: seq<T>, rest: seq<T>): seq<T>
  {
    e + rest
  }

  /** The reader over a packet whose two varints decode as given. */
  lemma ParseAt(bytes: seq<byte>, sequence: uint, n: nat, m: nat, block: seq<byte>)
    requires 1 + n + m + |block| <= |bytes|
    requires Decode(bytes[1..]) == Some((sequence as int, n))
    requires Decode(bytes[1 + n..]) == Some((|block|, m))
    requires bytes[1 + n + m..1 + n + m + |block|] == block
    ensures ParseVoicePacket(bytes) == Some((bytes[0], sequence, block))
  {
  }


  /** A number below 2^32 is read back from its varint, whatever follows. */
  lemma DecodeSmall(x: nat, rest: seq<byte>, s: seq<byte>)
    requires x < TWO_32 && s == UnsignedPrefix(UnsignedEncoding(x), rest)
    ensures Decode(s) == Some((x, |UnsignedEncoding(x)|))
  {
    DecodeUnsigned(x, rest);
  }

}
