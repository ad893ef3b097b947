/**
 * The `VoiceService` of the `MumbleSharp.Voice.Services` namespace: it
 * keeps the transmission codec the server's `CodecVersion` asks for and
 * parses inbound voice packets, whose result it does not yet pass on.
 */
module VoiceServices {
  import opened Common
  import opened Packets
  import opened Connection
  import opened VoiceHeader
  import VarInt

  /** What `ProcessPackage` reads from a packet: the codec cast from the type, the speech target and the header. */
  datatype Received = Received(codec: SpeechCodec, target: int, header: Header)

  class VoiceService {
    var transmissionCodec: SpeechCodec

    /** The constructor registers its processor for `CodecVersion` only; the codec is the enum's zero, CELT alpha. */
    constructor(connection: MumbleConnection, processor: ProcessorId)
      requires connection.Valid()
      modifies connection`processors
      ensures transmissionCodec == CeltAlpha && connection.Valid()
      ensures connection.processors == old(connection.processors)[Packets.CodecVersion := old(connection.processors[Packets.CodecVersion]) + [processor]]
    {
      transmissionCodec := CeltAlpha;
      new;
      connection.RegisterPacketProcessor(Packets.CodecVersion, processor);
    }

    /** `ProcessCodecVersionPacket`: Opus when offered, else CELT alpha when preferred, else CELT beta. */
    method ProcessCodecVersionPacket(m: CodecVersionMsg)
      modifies this`transmissionCodec
      ensures transmissionCodec == ChooseCodec(m)
      ensures transmissionCodec == Opus <==> m.opus
      ensures transmissionCodec == CeltAlpha <==> !m.opus && m.preferAlpha
    {
      if m.opus {
        transmissionCodec := Opus;
      } else if m.preferAlpha {
        transmissionCodec := CeltAlpha;
      } else {
        transmissionCodec := CeltBeta;
      }
    }

    /**
     * `ProcessPackage`: the codec is the type, the target the low five bits
     * of the first byte (an empty packet has none: `IndexOutOfRange`), and
     * the header is read from the bytes after it.
     */
    method ProcessPackage(packet: seq<byte>, packetType: int) returns (r: Result<Option<Received>>)
      ensures |packet| == 0 <==> r == Err(IndexOutOfRange)
      ensures |packet| > 0 ==> match ParseBody(packet[1..])
        case Err(e) => r == Err(e)
        case Ok(None) => r == Ok(None)
        case Ok(Some(h)) => r == Ok(Some(Received(CodecOf(packetType), packet[0] % 32, h)))
    {
      if |packet| == 0 {
        return Err(IndexOutOfRange);
      }
      var codec := CodecOf(packetType);
      var target := packet[0] % 32;
      var header := ReadHeader(packet[1..]);
      match header
      case Err(e) => r := Err(e);
      case Ok(None) => r := Ok(None);
      case Ok(Some(h)) => r := Ok(Some(Received(codec, target, h)));
    }
  }

  /**
   * A packet laid out as a first byte, a session, a sequence, a size and
   * the payload is read back as exactly those header fields.
   */
  lemma PackageRoundTrip(first: byte, session: uint, sequence: int, data: seq<byte>, rest: seq<byte>)
    requires IsLong(sequence) && 0 < |data| < SizeMask
    ensures var body := VarInt.Encode(session) + VarInt.Encode(sequence) + VarInt.Encode(|data|) + data + rest;
      ParseBody(([first] + body)[1..]) == Ok(Some(Header(session, sequence, data)))
  {
    var body := VarInt.Encode(session) + VarInt.Encode(sequence) + VarInt.Encode(|data|) + data + rest;
    assert ([first] + body)[1..] == body;
    ParseBodyRoundTrip(session, sequence, data, rest);
  }
}
