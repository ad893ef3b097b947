/**
 * `BufferedEncoder`, with its two loops run one step at a time: `AddPcm`
 * queues copies of PCM chunks, the mover appends queued chunks to the
 * pipe, and the encoder takes one block of `blockSize` bytes at a time
 * from the front of the pipe, never a partial one.
 */
module Encoding {
  import opened Common
  import opened VoiceFrames

  /** The consecutive n-byte slices of data from the front; a shorter tail is not a slice. */
  function Chunks<T>(data: seq<T>, n: nat): (r: seq<seq<T>>)
    requires n > 0
    decreases |data|
  {
    if |data| < n then [] else [data[..n]] + Chunks(data[n..], n)
  }

  /** What is left of data after its n-byte slices. */
  function Residual<T>(data: seq<T>, n: nat): (r: seq<T>)
    requires n > 0
    decreases |data|
  {
    if |data| < n then data else Residual(data[n..], n)
  }

  /** Every block has exactly n bytes. */
  predicate Sized<T>(blocks: seq<seq<T>>, n: nat)
  {
    forall k | 0 <= k < |blocks| :: |blocks[k]| == n
  }

  /** The frames encoded from blocks, in block order. */
  function EncodeAll(encode: seq<byte> -> seq<byte>, blocks: seq<seq<byte>>): (r: seq<seq<byte>>)
    ensures |r| == |blocks| && forall k | 0 <= k < |blocks| :: r[k] == encode(blocks[k])
  {
    seq(|blocks|, k requires 0 <= k < |blocks| => encode(blocks[k]))
  }

  /**
   * The slices and the residual cover the data exactly: |data| / n slices
   * of n bytes, followed by the |data| % n bytes that remain.
   */
  lemma {:induction false} ChunksCover<T>(data: seq<T>, n: nat)
    requires n > 0
    ensures Sized(Chunks(data, n), n)
    ensures Flatten(Chunks(data, n)) + Residual(data, n) == data
    ensures |Chunks(data, n)| == |data| / n && |Residual(data, n)| == |data| % n
    decreases |data|
  {
    if |data| >= n {
      var tail := data[n..];
      ChunksCover(tail, n);
      var r := Chunks(data, n);
      assert r == [data[..n]] + Chunks(tail, n);
      assert r[1..] == Chunks(tail, n);
      assert Flatten(r) == data[..n] + Flatten(Chunks(tail, n));
      assert data[..n] + tail == data;
      assert Sized(r, n) by {
        forall k | 0 <= k < |r|
          ensures |r[k]| == n
        {
          if k > 0 {
            assert r[k] == Chunks(tail, n)[k - 1];
          }
        }
      }
      DivStep(|data|, n);
    } else {
      DivSmall(|data|, n);
    }
  }

  /** The residual is the data after its last whole slice. */
  lemma {:induction false} ResidualIsTail<T>(data: seq<T>, n: nat)
    requires n > 0
    ensures Residual(data, n) == data[|data| - |data| % n..]
    decreases |data|
  {
    if |data| >= n {
      var tail := data[n..];
      ResidualIsTail(tail, n);
      DivStep(|data|, n);
      assert data[|data| - |data| % n..] == tail[|tail| - |tail| % n..];
    } else {
      DivSmall(|data|, n);
    }
  }

  /** One slice more: the quotient grows by one, the remainder stays. */
  lemma DivStep(a: nat, n: nat)
    requires 0 < n <= a
    ensures a / n == (a - n) / n + 1 && a % n == (a - n) % n
  {
    var q, r := (a - n) / n, (a - n) % n;
    assert a - n == q * n + r;
    assert a == (q + 1) * n + r;
    DivUnique(a, n, q + 1, r);
  }

  /** Quotient and remainder are unique. */
  lemma DivUnique(a: int, n: int, q: int, r: int)
    requires n > 0 && 0 <= r < n && a == q * n + r
    ensures a / n == q && a % n == r
  {
    var q', r' := a / n, a % n;
    assert a == q' * n + r';
    assert (q - q') * n == r' - r;
    if q > q' {
      MulAtLeast(q - q', n);
    } else if q < q' {
      MulAtLeast(q' - q, n);
    }
  }

  lemma MulAtLeast(d: int, n: int)
    requires d >= 1 && n > 0
    ensures d * n >= n
  {
    assert d * n == (d - 1) * n + n;
  }

  lemma DivSmall(a: nat, n: nat)
    requires a < n
    ensures a / n == 0 && a % n == a
  {
    DivUnique(a, n, 0, a);
  }

  /**
   * The slicing is unique: blocks of n bytes followed by fewer than n bytes
   * that make up data are its slices and its residual, however the data
   * arrived.
   */
  lemma {:induction false} ChunksUnique<T>(blocks: seq<seq<T>>, rest: seq<T>, data: seq<T>, n: nat)
    requires n > 0 && Sized(blocks, n) && |rest| < n && Flatten(blocks) + rest == data
    ensures blocks == Chunks(data, n) && rest == Residual(data, n)
    decreases |blocks|
  {
    if blocks == [] {
      assert data == rest;
    } else {
      var tail := Flatten(blocks[1..]) + rest;
      assert data == blocks[0] + tail;
      assert data[..n] == blocks[0] && data[n..] == tail;
      assert Sized(blocks[1..], n) by {
        forall k | 0 <= k < |blocks[1..]|
          ensures |blocks[1..][k]| == n
        {
          assert blocks[1..][k] == blocks[k + 1];
        }
      }
      ChunksUnique(blocks[1..], rest, tail, n);
      assert blocks == [blocks[0]] + blocks[1..];
    }
  }

  /** Appending a block appends its bytes. */
  lemma {:induction false} FlattenAppend<T>(blocks: seq<seq<T>>, b: seq<T>)
    ensures Flatten(blocks + [b]) == Flatten(blocks) + b
    decreases |blocks|
  {
    if blocks == [] {
      assert [] + [b] == [b];
      assert Flatten([b]) == b + Flatten([]);
    } else {
      FlattenAppend(blocks[1..], b);
      assert (blocks + [b])[1..] == blocks[1..] + [b];
    }
  }

  /** A whole block taken keeps the blocks whole and adds its frame at the end. */
  lemma TakeBlock(blocks: seq<seq<byte>>, block: seq<byte>, n: nat, encode: seq<byte> -> seq<byte>)
    requires Sized(blocks, n) && |block| == n
    ensures Sized(blocks + [block], n)
    ensures EncodeAll(encode, blocks + [block]) == EncodeAll(encode, blocks) + [encode(block)]
  {
  }

  /** Moving a block from the front of the pipe to the blocks keeps the bytes in order. */
  lemma TakeKeepsBytes(blocks: seq<seq<byte>>, block: seq<byte>, pipe: seq<byte>, rest: seq<byte>, queued: seq<byte>, added: seq<byte>)
    requires Flatten(blocks) + pipe + queued == added && |block| <= |pipe| && block == pipe[..|block|] && rest == pipe[|block|..]
    ensures Flatten(blocks + [block]) + rest + queued == added
  {
    FlattenAppend(blocks, block);
    assert block + rest == pipe;
  }

  class BufferedEncoder {
    /** `PermittedEncodingFrameSizes.Max() * sizeof(ushort)`. */
    const blockSize: nat
    /** `OpusCodec.Encode`. */
    const encode: seq<byte> -> seq<byte>
    /** The chunks in `_incomingPcm` not yet moved. */
    var incoming: seq<seq<byte>>
    /** The bytes in `_pcmPipe` not yet consumed. */
    var pipe: seq<byte>
    /** The frames written to `_readyFrames`, in order. */
    var readyFrames: seq<seq<byte>>
    /** Every byte `AddPcm` was given, in call order. */
    ghost var added: seq<byte>
    /** The blocks taken from the pipe so far, in order. */
    ghost var blocks: seq<seq<byte>>

    /**
     * Nothing is lost or duplicated: the blocks taken, then the pipe, then
     * the queue are the added bytes; blocks are whole and each frame is the
     * encoding of its block.
     */
    ghost predicate Valid()
      reads this`incoming, this`pipe, this`readyFrames, this`added, this`blocks
    {
      && blockSize > 0
      && Sized(blocks, blockSize)
      && Flatten(blocks) + pipe + Flatten(incoming) == added
      && readyFrames == EncodeAll(encode, blocks)
    }

    constructor(largestFrameSize: nat, encode: seq<byte> -> seq<byte>)
      requires largestFrameSize > 0
      ensures Valid() && blockSize == largestFrameSize * 2 && this.encode == encode
      ensures incoming == [] && pipe == [] && readyFrames == [] && added == []
    {
      blockSize := largestFrameSize * 2;
      this.encode := encode;
      incoming, pipe, readyFrames := [], [], [];
      added, blocks := [], [];
    }

    /** `AddPcm`: a copy of the chunk joins the queue. */
    method AddPcm(pcm: seq<byte>)
      requires Valid()
      modifies this`incoming, this`added
      ensures Valid() && incoming == old(incoming) + [pcm] && added == old(added) + pcm
    {
      FlattenAppend(incoming, pcm);
      incoming := incoming + [pcm];
      added := added + pcm;
    }

    /** One turn of `MovePcmAsync`: the oldest queued chunk goes to the end of the pipe; an empty queue waits. */
    method MovePcm() returns (moved: bool)
      requires Valid()
      modifies this`incoming, this`pipe
      ensures Valid() && moved == (old(incoming) != [])
      ensures moved ==> pipe == old(pipe) + old(incoming)[0] && incoming == old(incoming)[1..]
      ensures !moved ==> pipe == old(pipe) && incoming == old(incoming)
    {
      if incoming == [] {
        return false;
      }
      assert Flatten(incoming) == incoming[0] + Flatten(incoming[1..]);
      pipe := pipe + incoming[0];
      incoming := incoming[1..];
      moved := true;
    }

    /**
     * One turn of `EncodeAsync`: with fewer than `blockSize` bytes nothing
     * is consumed; otherwise the first `blockSize` bytes are encoded, the
     * frame is written and the reader advances by exactly `blockSize`.
     */
    method EncodeStep() returns (encoded: bool)
      requires Valid()
      modifies this`pipe, this`readyFrames, this`blocks
      ensures Valid() && encoded == (|old(pipe)| >= blockSize)
      ensures encoded ==>
        && blocks == old(blocks) + [old(pipe)[..blockSize]]
        && pipe == old(pipe)[blockSize..]
        && readyFrames == old(readyFrames) + [encode(old(pipe)[..blockSize])]
      ensures !encoded ==> pipe == old(pipe) && readyFrames == old(readyFrames) && blocks == old(blocks)
    {
      if |pipe| < blockSize {
        return false;
      }
      var block := pipe[..blockSize];
      TakeBlock(blocks, block, blockSize, encode);
      TakeKeepsBytes(blocks, block, pipe, pipe[blockSize..], Flatten(incoming), added);
      readyFrames := readyFrames + [encode(block)];
      pipe := pipe[blockSize..];
      blocks := blocks + [block];
      encoded := true;
    }

    /**
     * Both loops run until they would wait. Whatever the chunking and the
     * interleaving before, the blocks are then the fixed slicing of all the
     * added bytes, the pipe holds the residual, and the frames are their
     * encodings in order, those written before kept in front.
     */
    method RunUntilIdle()
      requires Valid()
      modifies this`incoming, this`pipe, this`readyFrames, this`blocks
      ensures Valid() && incoming == [] && added == old(added)
      ensures blocks == Chunks(added, blockSize) && pipe == Residual(added, blockSize)
      ensures readyFrames == EncodeAll(encode, Chunks(added, blockSize))
      ensures |old(readyFrames)| <= |readyFrames| && readyFrames[..|old(readyFrames)|] == old(readyFrames)
    {
      while incoming != []
        invariant Valid() && added == old(added) && readyFrames == old(readyFrames)
        decreases |incoming|
      {
        var moved := MovePcm();
      }
      while |pipe| >= blockSize
        invariant Valid() && added == old(added) && incoming == []
        invariant |old(readyFrames)| <= |readyFrames| && readyFrames[..|old(readyFrames)|] == old(readyFrames)
        decreases |pipe|
      {
        var encoded := EncodeStep();
      }
      assert Flatten(blocks) + pipe == added;
      ChunksUnique(blocks, pipe, added, blockSize);
    }
  }
}
