/**
 * `TcpSocket`: the control channel's framing. Every frame is a 2-byte
 * big-endian packet type, a 4-byte big-endian payload length and the
 * payload. Typed messages go through the protobuf serializer with a fixed
 * 32-bit big-endian length prefix, which gives the same layout.
 *
 * The TLS stream is modelled as two byte sequences: everything written so
 * far, and everything the server has sent together with a read cursor.
 * The protobuf codec is a parameter of the socket.
 */
module TcpSocket {
  import opened Common
  import opened VarInt
  import opened Packets
  import Ping

  /** `IPAddress.HostToNetworkOrder` written by a `BinaryWriter`: the low n bytes, most significant first. */
  function NetworkOrder(x: nat, n: nat): (r: seq<byte>)
    ensures |r| == n
  {
    BigEndian(x, n)
  }

  /** One frame as the raw sends write it. */
  function Frame(t: PacketType, payload: seq<byte>): (r: seq<byte>)
    ensures |r| == 6 + |payload|
    ensures r[6..] == payload
  {
    NetworkOrder(Tag(t), 2) + NetworkOrder(|payload|, 4) + payload
  }

  /** A 16-bit two's-complement number from its bit pattern. */
  function Int16Of(u: nat): int
    requires u < 0x1_0000
  {
    if u < 0x8000 then u else u - 0x1_0000
  }

  /** A 32-bit two's-complement number from its bit pattern. */
  function Int32Of(u: nat): int
    requires u < TWO_32
  {
    if u < 0x8000_0000 then u else u - TWO_32
  }

  /** What reading one frame did: the packet on success, and how many bytes it consumed either way. */
  datatype Read = Read(outcome: Result<(PacketType, Packet)>, consumed: nat)

  /** Whether `Process` reads this packet type; every other type throws `NotImplementedException`. */
  predicate Accepted(t: PacketType)
  {
    t in {Version, CryptSetup, ChannelState, UserState, CodecVersion, ContextAction,
          ContextActionModify, PermissionQuery, ServerSync, ServerConfig, UDPTunnel,
          Ping, UserRemove, ChannelRemove, TextMessage, UserList, SuggestConfig}
  }

  /**
   * The frame at the front of the server's stream as `Process` reads it:
   * a tunnelled voice packet is a signed 32-bit length and up to that many
   * bytes (`BinaryReader.ReadBytes` stops at the end of the stream); every
   * other accepted type is a length-prefixed protobuf body.
   */
  function ReadFrame(s: seq<byte>, deserialize: (PacketType, seq<byte>) -> Message): (r: Read)
    ensures r.consumed <= |s|
  {
    if |s| < 2 then Read(Err(EndOfStream), |s|)
    else
      BeValueBound(s[..2]);
      PowValues();
      var tag := FromTag(Int16Of(BeValue(s[..2])));
      if tag.None? || !Accepted(tag.value) then Read(Err(NotImplemented), 2)
      else if |s| < 6 then Read(Err(EndOfStream), |s|)
      else ReadPayload(tag.value, s, deserialize)
  }

  /** The rest of `ReadFrame`, once the tag `t` and a complete length prefix have arrived. */
  function ReadPayload(t: PacketType, s: seq<byte>, deserialize: (PacketType, seq<byte>) -> Message): (r: Read)
    requires |s| >= 6
    ensures 6 <= r.consumed <= |s|
  {
    BeValueBound(s[2..6]);
    PowValues();
    if t == UDPTunnel then ReadTunnelled(s) else ReadMessage(t, s, deserialize)
  }

  /** A tunnelled voice packet: a signed 32-bit length, then at most that many raw bytes. */
  function ReadTunnelled(s: seq<byte>): (r: Read)
    requires |s| >= 6 && BeValue(s[2..6]) < TWO_32
    ensures 6 <= r.consumed <= |s|
  {
    var length := Int32Of(BeValue(s[2..6]));
    if length < 0 then Read(Err(ArgumentOutOfRange("count")), 6)
    else
      var n := if length <= |s| - 6 then length else |s| - 6;
      Read(Ok((UDPTunnel, Raw(s[6..6 + n]))), 6 + n)
  }

  /** A protobuf message: an unsigned 32-bit length, then exactly that many bytes. */
  function ReadMessage(t: PacketType, s: seq<byte>, deserialize: (PacketType, seq<byte>) -> Message): (r: Read)
    requires |s| >= 6
    ensures 6 <= r.consumed <= |s|
  {
    var length := BeValue(s[2..6]);
    if |s| - 6 < length then Read(Err(EndOfStream), |s|)
    else Read(Ok((t, Proto(deserialize(t, s[6..6 + length])))), 6 + length)
  }

  /** A raw frame is read back as its own type and payload, whatever the stream holds after it. */
  lemma ReadRawFrame(t: PacketType, payload: seq<byte>, rest: seq<byte>,
                     deserialize: (PacketType, seq<byte>) -> Message)
    requires Accepted(t) && |payload| < 0x8000_0000
    ensures t == UDPTunnel ==>
      ReadFrame(Frame(t, payload) + rest, deserialize) == Read(Ok((t, Raw(payload))), 6 + |payload|)
    ensures t != UDPTunnel ==>
      ReadFrame(Frame(t, payload) + rest, deserialize) == Read(Ok((t, Proto(deserialize(t, payload)))), 6 + |payload|)
  {
    var s := Frame(t, payload) + rest;
    assert s[..2] == NetworkOrder(Tag(t), 2);
    assert s[2..6] == NetworkOrder(|payload|, 4);
    assert s[6..6 + |payload|] == payload;
    ReadTag(t, s, deserialize);
    HighPartZero(|payload|, 4);
  }

  /** A typed message is read back exactly when the protobuf codec inverts itself on it. */
  lemma ReadMessageFrame(t: PacketType, m: Message, serialize: Message -> seq<byte>, rest: seq<byte>,
                         deserialize: (PacketType, seq<byte>) -> Message)
    requires Accepted(t) && t != UDPTunnel && |serialize(m)| < 0x8000_0000
    requires deserialize(t, serialize(m)) == m
    ensures ReadFrame(Frame(t, serialize(m)) + rest, deserialize).outcome == Ok((t, Proto(m)))
  {
    ReadRawFrame(t, serialize(m), rest, deserialize);
  }

  /** The types `Process` refuses, byte-exact: the frame's tag is consumed and nothing else. */
  lemma RejectedTypes(t: PacketType, rest: seq<byte>, deserialize: (PacketType, seq<byte>) -> Message)
    requires t in {Reject, Authenticate, PermissionDenied, ACL, QueryUsers, VoiceTarget, UserStats, RequestBlob, BanList}
    ensures ReadFrame(NetworkOrder(Tag(t), 2) + rest, deserialize) == Read(Err(NotImplemented), 2)
  {
    var s := NetworkOrder(Tag(t), 2) + rest;
    assert s[..2] == NetworkOrder(Tag(t), 2);
    assert !Accepted(t);
    ReadTag(t, s, deserialize);
  }

  /** A frame whose first two bytes are the wire number of `t` is read as a frame of type `t`. */
  lemma ReadTag(t: PacketType, s: seq<byte>, deserialize: (PacketType, seq<byte>) -> Message)
    requires |s| >= 2 && s[..2] == NetworkOrder(Tag(t), 2)
    ensures !Accepted(t) ==> ReadFrame(s, deserialize) == Read(Err(NotImplemented), 2)
    ensures Accepted(t) && |s| >= 6 ==> ReadFrame(s, deserialize) == ReadPayload(t, s, deserialize)
  {
    HighPartZero(Tag(t), 2);
    TagInjective(t, t);
    PowValues();
    assert Int16Of(BeValue(s[..2])) == Tag(t);
  }

  /** The `Version` and `Authenticate` messages of the handshake. */
  function HandshakeVersion(os: string, osVersion: string): (m: VersionMsg)
    ensures m.version == 0x01_02_00 && m.release == "MumbleSharp"
  {
    // (1 << 16) | (2 << 8) | (0 & 0xFF)
    VersionMsg("MumbleSharp", 1 * 0x1_0000 + 2 * 0x100 + 0, os, osVersion)
  }

  function HandshakeAuthenticate(username: string, password: string, tokens: Option<seq<string>>): (m: AuthenticateMsg)
    ensures m.opus && m.username == username && m.password == password
    ensures m.tokens == (if tokens.Some? then tokens.value else [])
    ensures m.celtVersions == [-0x7FFF_FFF5]
  {
    AuthenticateMsg(username, password, true, if tokens.None? then [] else tokens.value,
                    [UIntToInt(0x8000_000b)])
  }

  /** The bytes of the handshake: a `Version` frame, then an `Authenticate` frame. */
  function HandshakeFrames(serialize: Message -> seq<byte>, username: string, password: string,
                           tokens: Option<seq<string>>, os: string, osVersion: string): seq<byte>
  {
    Frame(Version, serialize(VersionMessage(HandshakeVersion(os, osVersion))))
    + Frame(Authenticate, serialize(AuthenticateMessage(HandshakeAuthenticate(username, password, tokens))))
  }

  class Socket {
    /** `_client.Connected`. */
    var connected: bool
    /** `_reader`, `_writer` and `_netStream` are set: `Connect` sets them and nothing clears them. */
    var streams: bool
    /** `_ssl` is set: `Connect` sets it and `Close` clears it. Every send locks on it. */
    var secure: bool
    /** Every byte written to the stream so far. */
    var output: seq<byte>
    /** Every byte the server has sent, and how far `Process` has read. */
    var input: seq<byte>
    var cursor: nat
    /** `PacketReceived` events raised, in order. */
    var received: seq<(PacketType, Packet)>
    /** The protobuf serializer, without its length prefix, and its reader. */
    const serialize: Message -> seq<byte>
    const deserialize: (PacketType, seq<byte>) -> Message

    ghost predicate Valid()
      reads this`cursor, this`input
    {
      cursor <= |input|
    }

    constructor(serialize: Message -> seq<byte>, deserialize: (PacketType, seq<byte>) -> Message)
      ensures Valid() && !connected && !streams && !secure && output == [] && input == [] && received == []
      ensures this.serialize == serialize && this.deserialize == deserialize
    {
      this.serialize := serialize;
      this.deserialize := deserialize;
      connected := false;
      streams := false;
      secure := false;
      output := [];
      input := [];
      cursor := 0;
      received := [];
    }

    /** The server appending bytes to the stream. */
    method Deliver(bytes: seq<byte>)
      requires Valid()
      modifies this`input
      ensures Valid() && input == old(input) + bytes
    {
      input := input + bytes;
    }

    /** `Connect` once the TLS session is up: mark the socket connected and send the handshake. */
    method Connect(username: string, password: string, tokens: Option<seq<string>>, os: string, osVersion: string)
      requires Valid()
      modifies this`connected, this`streams, this`secure, this`output
      ensures Valid() && connected && streams && secure
      ensures output == old(output) + HandshakeFrames(serialize, username, password, tokens, os, osVersion)
    {
      connected, streams, secure := true, true, true;
      Handshake(username, password, tokens, os, osVersion);
    }

    /**
     * `Close`: closes the reader, the writer, the network stream and the
     * client, and clears `_ssl`. Before any `Connect` the reader is null and
     * the first call throws; closing twice is harmless.
     */
    method Close() returns (r: Outcome)
      modifies this`connected, this`secure
      ensures !old(streams) ==> r == Threw(NullReference) && connected == old(connected) && secure == old(secure)
      ensures old(streams) ==> r == Done && !connected && !secure
    {
      if !streams {
        return Threw(NullReference);
      }
      secure := false;
      connected := false;
      r := Done;
    }

    /** `Handshake`: a `Version` message, then an `Authenticate` message. */
    method Handshake(username: string, password: string, tokens: Option<seq<string>>, os: string, osVersion: string)
      requires Valid() && secure
      modifies this`output
      ensures Valid()
      ensures output == old(output) + HandshakeFrames(serialize, username, password, tokens, os, osVersion)
    {
      var _ := Send(Version, VersionMessage(HandshakeVersion(os, osVersion)));
      var _ := Send(Authenticate, AuthenticateMessage(HandshakeAuthenticate(username, password, tokens)));
    }

    /** Writes the 2-byte packet type. */
    method WriteTag(t: PacketType)
      modifies this`output
      ensures output == old(output) + NetworkOrder(Tag(t), 2)
    {
      output := output + NetworkOrder(Tag(t), 2);
    }

    /**
     * `Send<T>`: the tag, then `SerializeWithLengthPrefix` in the fixed
     * 32-bit big-endian style. Like every send it locks on `_ssl`, which
     * throws when `_ssl` is null (before `Connect`, after `Close`).
     */
    method Send(t: PacketType, m: Message) returns (r: Outcome)
      modifies this`output
      ensures !secure ==> r == Threw(ArgumentNull) && output == old(output)
      ensures secure ==> r == Done && output == old(output) + Frame(t, serialize(m))
    {
      if !secure {
        return Threw(ArgumentNull);
      }
      r := Done;
      WriteTag(t);
      var body := serialize(m);
      output := output + NetworkOrder(|body|, 4) + body;
    }

    /** `Send(type, ArraySegment)`: the tag, the segment's count and the segment's bytes. */
    method SendSegment(t: PacketType, segment: seq<byte>, offset: nat, count: nat) returns (r: Outcome)
      requires offset + count <= |segment|
      modifies this`output
      ensures !secure ==> r == Threw(ArgumentNull) && output == old(output)
      ensures secure ==> r == Done && output == old(output) + Frame(t, segment[offset..offset + count])
    {
      if !secure {
        return Threw(ArgumentNull);
      }
      r := Done;
      WriteTag(t);
      output := output + NetworkOrder(count, 4) + segment[offset..offset + count];
    }

    /** `SendVoice`: the same layout as `SendSegment`. */
    method SendVoice(t: PacketType, segment: seq<byte>, offset: nat, count: nat) returns (r: Outcome)
      requires offset + count <= |segment|
      modifies this`output
      ensures !secure ==> r == Threw(ArgumentNull) && output == old(output)
      ensures secure ==> r == Done && output == old(output) + Frame(t, segment[offset..offset + count])
    {
      if !secure {
        return Threw(ArgumentNull);
      }
      r := Done;
      WriteTag(t);
      output := output + NetworkOrder(count, 4) + segment[offset..offset + count];
    }

    /** `SendBuffer`: the tag, the array's length and the whole array. */
    method SendBuffer(t: PacketType, packet: seq<byte>) returns (r: Outcome)
      modifies this`output
      ensures !secure ==> r == Threw(ArgumentNull) && output == old(output)
      ensures secure ==> r == Done && output == old(output) + Frame(t, packet)
    {
      if !secure {
        return Threw(ArgumentNull);
      }
      r := Done;
      WriteTag(t);
      output := output + NetworkOrder(|packet|, 4) + packet;
    }

    /** `SendPing`: a ping message built by the connection's ping processor. */
    method SendPing(pings: Ping.PingProcessor, now: int) returns (r: Outcome)
      requires IsLong(now)
      modifies this`output
      ensures !secure ==> r == Threw(ArgumentNull) && output == old(output)
      ensures secure ==> r == Done && output == old(output) + Frame(Packets.Ping, serialize(PingMessage(pings.CreateTcpPing(now))))
    {
      var ping := pings.CreateTcpPing(now);
      r := Send(Packets.Ping, PingMessage(ping));
    }

    /** Reads the next n bytes, or as many as the stream still holds. */
    method ReadBytes(n: nat) returns (r: seq<byte>)
      requires Valid()
      modifies this`cursor
      ensures Valid()
      ensures r == old(input[cursor..(if cursor + n <= |input| then cursor + n else |input|)])
      ensures cursor == old(cursor) + |r|
    {
      var end := if cursor + n <= |input| then cursor + n else |input|;
      r := input[cursor..end];
      cursor := end;
    }

    /**
     * `Process`: refuses when the socket is closed, does nothing when no
     * data is waiting, and otherwise reads one frame and raises
     * `PacketReceived` for it.
     */
    method Process() returns (r: Outcome)
      requires Valid()
      modifies this`cursor, this`received
      ensures Valid()
      ensures !old(connected) ==> r == Threw(InvalidOperation("Not connected")) && cursor == old(cursor) && received == old(received)
      ensures old(connected) && old(cursor) == |input| ==> r == Done && cursor == old(cursor) && received == old(received)
      ensures old(connected) && old(cursor) < |input| ==>
        var f := ReadFrame(old(input[cursor..]), deserialize);
        cursor == old(cursor) + f.consumed &&
        (f.outcome.Ok? ==> r == Done && received == old(received) + [f.outcome.value]) &&
        (f.outcome.Err? ==> r == Threw(f.outcome.error) && received == old(received))
    {
      if !connected {
        return Threw(InvalidOperation("Not connected"));
      }
      if cursor == |input| {
        return Done;
      }
      ghost var s := input[cursor..];
      ghost var start := cursor;
      var head := ReadBytes(2);
      if |head| < 2 {
        return Threw(EndOfStream);
      }
      assert head == s[..2];
      BeValueBound(head);
      PowValues();
      var tag := FromTag(Int16Of(BeValue(head)));
      if tag.None? || !Accepted(tag.value) {
        return Threw(NotImplemented);
      }
      r := ProcessPayload(tag.value, s);
    }

    /** The part of `Process` after the tag: the length prefix and the body. */
    method ProcessPayload(t: PacketType, ghost s: seq<byte>) returns (r: Outcome)
      requires Valid() && 2 <= cursor && s == input[cursor - 2..] && Accepted(t)
      modifies this`cursor, this`received
      ensures Valid()
      ensures |s| < 6 ==> r == Threw(EndOfStream) && received == old(received) && cursor == |input|
      ensures |s| >= 6 ==> Took(ReadPayload(t, s, deserialize), old(cursor) - 2, old(received), r)
    {
      var prefix := ReadBytes(4);
      if |prefix| < 4 {
        return Threw(EndOfStream);
      }
      assert prefix == s[2..6];
      BeValueBound(prefix);
      PowValues();
      if t == UDPTunnel {
        r := TakeTunnelled(prefix, s);
      } else {
        r := TakeMessage(t, prefix, s);
      }
    }

    /** The new state after a frame starting at `start` was read as `f`, with `r` what `Process` reports. */
    ghost predicate Took(f: Read, start: int, before: seq<(PacketType, Packet)>, r: Outcome)
      reads this
    {
      && cursor == start + f.consumed
      && (f.outcome.Ok? ==> r == Done && received == before + [f.outcome.value])
      && (f.outcome.Err? ==> r == Threw(f.outcome.error) && received == before)
    }

    method TakeTunnelled(prefix: seq<byte>, ghost s: seq<byte>) returns (r: Outcome)
      requires Valid() && 6 <= cursor && |s| >= 6 && s == input[cursor - 6..] && prefix == s[2..6]
      requires BeValue(prefix) < TWO_32
      modifies this`cursor, this`received
      ensures Valid() && Took(ReadTunnelled(s), old(cursor) - 6, old(received), r)
    {
      var length := Int32Of(BeValue(prefix));
      if length < 0 {
        return Threw(ArgumentOutOfRange("count"));
      }
      var bytes := ReadBytes(length);
      assert bytes == s[6..6 + |bytes|];
      received := received + [(UDPTunnel, Raw(bytes))];
      r := Done;
    }

    method TakeMessage(t: PacketType, prefix: seq<byte>, ghost s: seq<byte>) returns (r: Outcome)
      requires Valid() && 6 <= cursor && |s| >= 6 && s == input[cursor - 6..] && prefix == s[2..6]
      modifies this`cursor, this`received
      ensures Valid() && Took(ReadMessage(t, s, deserialize), old(cursor) - 6, old(received), r)
    {
      var length := BeValue(prefix);
      var body := ReadBytes(length);
      if |body| < length {
        return Threw(EndOfStream);
      }
      assert body == s[6..6 + length];
      received := received + [(t, Proto(deserialize(t, body)))];
      r := Done;
    }

  }
}
