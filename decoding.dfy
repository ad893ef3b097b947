/**
 * `AudioDecodingBuffer`, in its two revisions: the one in `MumbleSharp.Audio`
 * creates its own wave provider, the one in `MumbleSharp.Voice` is given
 * one. Both drop a packet older than the last decoded one, decode the
 * others with the first codec they were given, and forget the last
 * sequence when the 100 ms transmission timer elapses.
 */
module Decoding {
  import opened Common

  /** An `IVoiceCodec` object, known by its identity; `decode` gives what its `Decode` returns. */
  type CodecId = nat

  /** A `BufferedWaveProvider`: the samples added to it, in order. */
  class BufferedWaveProvider {
    var samples: seq<byte>

    constructor()
      ensures samples == []
    {
      samples := [];
    }
  }

  /** Whether a packet is decoded: only one older than the last decoded sequence is dropped. */
  predicate Admits(last: int, sequence: int)
  {
    last <= sequence
  }

  /** The sequences decoded from a run of packets with no timeout in between. */
  function DecodedRun(last: int, sequences: seq<int>): seq<int>
    decreases |sequences|
  {
    if sequences == [] then []
    else if Admits(last, sequences[0]) then [sequences[0]] + DecodedRun(sequences[0], sequences[1..])
    else DecodedRun(last, sequences[1..])
  }

  /**
   * Between two timeouts the decoded sequences never go down, none is
   * below the starting point, and a packet equal to the last one is
   * decoded again.
   */
  lemma {:induction false} DecodedRunAscends(last: int, sequences: seq<int>)
    ensures forall k | 0 <= k < |DecodedRun(last, sequences)| :: last <= DecodedRun(last, sequences)[k]
    ensures forall j, k | 0 <= j < k < |DecodedRun(last, sequences)| ::
      DecodedRun(last, sequences)[j] <= DecodedRun(last, sequences)[k]
    ensures DecodedRun(last, [last]) == [last]
    decreases |sequences|
  {
    if sequences != [] {
      if Admits(last, sequences[0]) {
        DecodedRunAscends(sequences[0], sequences[1..]);
      } else {
        DecodedRunAscends(last, sequences[1..]);
      }
    }
    assert [last][1..] == [];
  }

  class AudioDecodingBuffer {
    var lastDecodedSequence: int
    /** `_codec`: null until a codec is passed. */
    var codec: Option<CodecId>
    var timerEnabled: bool
    const provider: BufferedWaveProvider
    const decode: (CodecId, seq<byte>) -> seq<byte>

    /** The `MumbleSharp.Audio` constructor: a fresh wave provider. */
    constructor(decode: (CodecId, seq<byte>) -> seq<byte>)
      ensures fresh(provider) && provider.samples == [] && this.decode == decode
      ensures lastDecodedSequence == 0 && codec == None && !timerEnabled
    {
      lastDecodedSequence := 0;
      codec := None;
      timerEnabled := false;
      this.decode := decode;
      provider := new BufferedWaveProvider();
    }

    /** The `MumbleSharp.Voice` constructor: the wave provider is the caller's. */
    constructor WithProvider(provider: BufferedWaveProvider, decode: (CodecId, seq<byte>) -> seq<byte>)
      ensures this.provider == provider && this.decode == decode
      ensures lastDecodedSequence == 0 && codec == None && !timerEnabled
    {
      lastDecodedSequence := 0;
      codec := None;
      timerEnabled := false;
      this.decode := decode;
      this.provider := provider;
    }

    /**
     * `AddEncodedPacket`: the first codec passed is kept, whether or not the
     * packet is decoded. A packet older than the last decoded one is
     * dropped; otherwise the timer is stopped, the sequence recorded, the
     * decoded samples added and the timer started again. Decoding before
     * any codec was given is a null dereference, after the sequence was
     * recorded.
     */
    method AddEncodedPacket(sequence: int, data: seq<byte>, codec: Option<CodecId>) returns (r: Outcome)
      modifies this`lastDecodedSequence, this`codec, this`timerEnabled, provider`samples
      ensures this.codec == if old(this.codec).None? then codec else old(this.codec)
      ensures !Admits(old(lastDecodedSequence), sequence) ==>
        && r == Done && lastDecodedSequence == old(lastDecodedSequence)
        && timerEnabled == old(timerEnabled) && provider.samples == old(provider.samples)
      ensures Admits(old(lastDecodedSequence), sequence) ==> lastDecodedSequence == sequence
      ensures Admits(old(lastDecodedSequence), sequence) && this.codec.None? ==>
        r == Threw(NullReference) && !timerEnabled && provider.samples == old(provider.samples)
      ensures Admits(old(lastDecodedSequence), sequence) && this.codec.Some? ==>
        && r == Done && timerEnabled
        && provider.samples == old(provider.samples) + decode(this.codec.value, data)
    {
      if this.codec.None? {
        this.codec := codec;
      }
      if lastDecodedSequence > sequence {
        return Done;
      }
      timerEnabled := false;
      lastDecodedSequence := sequence;
      if this.codec.None? {
        return Threw(NullReference);
      }
      var d := decode(this.codec.value, data);
      provider.samples := provider.samples + d;
      if !timerEnabled {
        timerEnabled := true;
      }
      r := Done;
    }

    /** `TransmissionTimerOnElapsed`: the next packet is decoded whatever its sequence. The timer repeats. */
    method Elapsed()
      requires timerEnabled
      modifies this`lastDecodedSequence
      ensures lastDecodedSequence == -1
      ensures forall s | s >= -1 :: Admits(lastDecodedSequence, s)
    {
      lastDecodedSequence := -1;
    }
  }
}
