/**
 * The header of an inbound voice packet, as both `VoiceService` revisions
 * read it after the type byte: the session, the sequence and the size as
 * varints, the size masked to 13 bits, then that many bytes of audio.
 * The varints are read against the `UdpPacketBuilder` scheme (`VarInt`).
 */
module VoiceHeader {
  import opened Common
  import opened VarInt

  /** The fields an inbound voice packet delivers. */
  datatype Header = Header(session: uint, sequence: int, data: seq<byte>)

  /** The size field keeps its low 13 bits: `size &= 0x1fff` on the `(int)` cast of the varint. */
  const SizeMask: int := 0x2000

  /** `ReadVarInt64`: the value and the bytes after it; a stream that ends inside the number is `EndOfStream`. */
  function ReadVarInt(s: seq<byte>): (r: Result<(int, seq<byte>)>)
    ensures r.Ok? <==> Decode(s).Some?
    ensures r.Ok? ==> IsLong(r.value.0) && r.value.1 == s[Decode(s).value.1..] && |r.value.1| < |s|
    ensures r.Err? ==> r.error == EndOfStream
  {
    match Decode(s)
    case None => Err(EndOfStream)
    case Some((v, n)) => Ok((v, s[n..]))
  }

  /** A varint written by `WriteVarLong` reads back as its value, leaving what follows it. */
  lemma ReadEncoded(v: int, rest: seq<byte>)
    requires IsLong(v)
    ensures ReadVarInt(Encode(v) + rest) == Ok((v, rest))
  {
    DecodeEncode(v, rest);
    assert (Encode(v) + rest)[|Encode(v)|..] == rest;
  }

  /**
   * The header of a packet body (the packet without its first byte):
   * `Ok(None)` when the masked size is zero or the body holds fewer bytes
   * than the size.
   */
  function ParseBody(body: seq<byte>): (r: Result<Option<Header>>)
    ensures r.Err? ==> r.error == EndOfStream
    ensures r.Ok? && r.value.Some? ==> IsLong(r.value.value.sequence) && 0 < |r.value.value.data| < SizeMask
  {
    match ReadVarInt(body)
    case Err(e) => Err(e)
    case Ok((session, afterSession)) => AfterSession(session % TWO_32, ReadVarInt(afterSession))
  }

  /** The rest of the parse once `(uint)` of the session varint is known. */
  function AfterSession(session: uint, read: Result<(int, seq<byte>)>): (r: Result<Option<Header>>)
    requires read.Ok? ==> IsLong(read.value.0)
    ensures r.Err? ==> (read.Err? && r.error == read.error) || r.error == EndOfStream
    ensures r.Ok? && r.value.Some? ==> read.Ok? && r.value.value.sequence == read.value.0 && r.value.value.session == session
    ensures r.Ok? && r.value.Some? ==> 0 < |r.value.value.data| < SizeMask
  {
    match read
    case Err(e) => Err(e)
    case Ok((sequence, afterSequence)) => AfterSequence(session, sequence, ReadVarInt(afterSequence))
  }

  /** The last step: the masked size and the payload read. */
  function AfterSequence(session: uint, sequence: int, read: Result<(int, seq<byte>)>): (r: Result<Option<Header>>)
    ensures r.Err? ==> read.Err? && r.error == read.error
    ensures r.Ok? ==> read.Ok?
    ensures r.Ok? ==> (r.value.None? <==> read.value.0 % SizeMask == 0 || |read.value.1| < read.value.0 % SizeMask)
    ensures r.Ok? && r.value.Some? ==>
      r.value.value == Header(session, sequence, read.value.1[..read.value.0 % SizeMask])
  {
    match read
    case Err(e) => Err(e)
    case Ok((size, rest)) =>
      var masked := size % SizeMask;
      if masked == 0 then Ok(None)
      else if |rest| < masked then Ok(None)
      else Ok(Some(Header(session, sequence, rest[..masked])))
  }

  /**
   * A body written as a session, a sequence, a size below 0x2000 and that
   * many bytes parses back to exactly those fields, whatever follows.
   */
  lemma ParseBodyRoundTrip(session: uint, sequence: int, data: seq<byte>, rest: seq<byte>)
    requires IsLong(sequence) && 0 < |data| < SizeMask
    ensures ParseBody(Encode(session) + Encode(sequence) + Encode(|data|) + data + rest)
            == Ok(Some(Header(session, sequence, data)))
  {
    var tail := data + rest;
    var afterSequence := Encode(|data|) + tail;
    var afterSession := Encode(sequence) + afterSequence;
    var body := Encode(session) + Encode(sequence) + Encode(|data|) + data + rest;
    assert body == Encode(session) + afterSession;
    ReadEncoded(session, afterSession);
    ReadEncoded(sequence, afterSequence);
    ReadEncoded(|data|, tail);
    ParseAfterReads(body, session, afterSession, sequence, afterSequence, data, tail);
  }

  /** Three successful reads of the fields and a payload in front of the rest give the header. */
  lemma ParseAfterReads(body: seq<byte>, session: uint, afterSession: seq<byte>, sequence: int, afterSequence: seq<byte>,
                        data: seq<byte>, tail: seq<byte>)
    requires IsLong(sequence) && 0 < |data| < SizeMask && |data| <= |tail| && tail[..|data|] == data
    requires ReadVarInt(body) == Ok((session as int, afterSession))
    requires ReadVarInt(afterSession) == Ok((sequence, afterSequence))
    requires ReadVarInt(afterSequence) == Ok((|data|, tail))
    ensures ParseBody(body) == Ok(Some(Header(session, sequence, data)))
  {
    assert |data| % SizeMask == |data|;
  }

  /** A size whose low 13 bits are zero drops the packet, whatever the payload. */
  lemma ZeroSizeDrops(session: uint, sequence: int, size: int, rest: seq<byte>)
    requires IsLong(sequence) && IsLong(size) && size % SizeMask == 0
    ensures ParseBody(Encode(session) + Encode(sequence) + Encode(size) + rest) == Ok(None)
  {
    var afterSequence := Encode(size) + rest;
    var afterSession := Encode(sequence) + afterSequence;
    assert Encode(session) + Encode(sequence) + Encode(size) + rest == Encode(session) + afterSession;
    ReadEncoded(session, afterSession);
    ReadEncoded(sequence, afterSequence);
    ReadEncoded(size, rest);
  }

  /**
   * The sequential reads over the body: session, sequence and size, each a
   * varint, then the payload.
   */
  method ReadHeader(body: seq<byte>) returns (r: Result<Option<Header>>)
    ensures r == ParseBody(body)
  {
    var read := ReadVarInt(body);
    if read.Err? {
      return Err(read.error);
    }
    var session: uint := read.value.0 % TWO_32;
    read := ReadVarInt(read.value.1);
    if read.Err? {
      return Err(read.error);
    }
    var sequence := read.value.0;
    read := ReadVarInt(read.value.1);
    if read.Err? {
      return Err(read.error);
    }
    var size := read.value.0 % SizeMask;
    if size == 0 {
      return Ok(None);
    }
    if |read.value.1| < size {
      return Ok(None);
    }
    r := Ok(Some(Header(session, sequence, read.value.1[..size])));
  }
}
