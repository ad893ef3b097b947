/**
 * `MumbleConnection`: the connection state machine, the ping timer tied to
 * it, the per-type registry of packet processors, and the built-in handling
 * of crypt setup, tunnelled voice and pings.
 *
 * Registered processors are opaque callbacks: the model records each call
 * (which processor, which packet) in order. The UDP socket is reduced to
 * the facts the connection uses: whether it exists, whether it is
 * connected, and what was handed to it. `CryptState` is reduced to the
 * three byte strings it is given.
 */
module Connection {
  import opened Common
  import opened Packets
  import TcpSocket
  import Ping

  datatype ConnectionState = Disconnected | Connecting | Connected | Disconnecting

  /**
   * A call a client class makes on its `MumbleConnection`, recorded in
   * order by classes that hold one: `SendControl`, `SendVoice` and `Close`,
   * whose effects the `MumbleConnection` class itself models.
   */
  datatype Request = SendControlRequest(kind: PacketType, message: Message) | SendVoiceRequest(packet: seq<byte>) | CloseRequest

  /** A registered `Action<object>`. */
  type ProcessorId = nat

  /** The calls a dispatch makes: each processor of the list, in order, with the packet. */
  function Calls(processors: seq<ProcessorId>, packet: Packet): (r: seq<(ProcessorId, Packet)>)
    ensures |r| == |processors|
    ensures forall k | 0 <= k < |r| :: r[k] == (processors[k], packet)
    decreases |processors|
  {
    if processors == [] then []
    else Calls(processors[..|processors| - 1], packet) + [(processors[|processors| - 1], packet)]
  }

  /** The ping timer runs exactly while connecting or connected. */
  predicate TimerMatches(state: ConnectionState, enabled: bool)
  {
    enabled <==> state == Connecting || state == Connected
  }

  /** What the `State` setter does to the ping timer. */
  function TimerAfter(value: ConnectionState, enabled: bool): (r: bool)
    ensures value == Connecting ==> r
    ensures value == Disconnecting ==> !r
    ensures value != Connecting && value != Disconnecting ==> r == enabled
  {
    if value == Connecting then true else if value == Disconnecting then false else enabled
  }

  /** Along the transitions the connection makes, the setter keeps the timer running exactly while connecting or connected. */
  lemma TimerFollowsTransitions(from: ConnectionState, to: ConnectionState, enabled: bool)
    requires TimerMatches(from, enabled)
    requires (from, to) in {(Disconnected, Connecting), (Connecting, Connected), (Connected, Disconnecting),
                             (Connecting, Disconnecting), (Disconnected, Disconnecting), (Disconnecting, Disconnected)}
    ensures TimerMatches(to, TimerAfter(to, enabled))
  {
  }

  class MumbleConnection {
    var state: ConnectionState
    /** `_pingTimer.Enabled`. */
    var pingTimerEnabled: bool
    /** Every value assigned to `State`, oldest first. */
    ghost var history: seq<ConnectionState>
    var processors: map<PacketType, seq<ProcessorId>>
    var voicePacketProcessors: seq<ProcessorId>
    /** Calls made to registered processors, oldest first. */
    var invocations: seq<(ProcessorId, Packet)>
    var tcp: TcpSocket.Socket?
    /** Whether `_udp` has been created, whether it is connected, and what it was given. */
    var udpCreated: bool
    var udpConnected: bool
    var udpPings: seq<seq<byte>>
    var udpReceived: seq<seq<byte>>
    /** The crypt state: key, client nonce, server nonce. */
    var cryptKey: seq<byte>
    var cryptClientNonce: seq<byte>
    var cryptServerNonce: seq<byte>
    const pingProcessor: Ping.PingProcessor
    const serialize: Message -> seq<byte>
    const deserialize: (PacketType, seq<byte>) -> Message

    ghost predicate Valid()
      reads this, pingProcessor, tcp
    {
      && (forall t: PacketType :: t in processors)
      && pingProcessor.Valid()
      && (tcp != null ==> tcp.Valid() && tcp.serialize == serialize && tcp.deserialize == deserialize)
      && (tcp != null ==> (tcp.secure <==> tcp.connected))
      && (udpCreated ==> tcp != null)
      && (state == Connected ==> udpCreated && tcp.connected)
      && TimerMatches(state, pingTimerEnabled)
    }

    /** `MumbleConnection(host)`: disconnected, with an empty processor list for every packet type. */
    constructor(serialize: Message -> seq<byte>, deserialize: (PacketType, seq<byte>) -> Message)
      ensures Valid() && fresh(pingProcessor)
      ensures state == Disconnected && !pingTimerEnabled && history == [Disconnected]
      ensures forall t: PacketType :: t in processors && processors[t] == []
      ensures voicePacketProcessors == [] && invocations == [] && tcp == null && !udpCreated
      ensures this.serialize == serialize && this.deserialize == deserialize
    {
      this.serialize := serialize;
      this.deserialize := deserialize;
      pingProcessor := new Ping.PingProcessor();
      pingTimerEnabled := false;
      tcp := null;
      udpCreated := false;
      udpConnected := false;
      udpPings := [];
      udpReceived := [];
      cryptKey := [];
      cryptClientNonce := [];
      cryptServerNonce := [];
      voicePacketProcessors := [];
      invocations := [];
      new;
      state := Disconnected;
      history := [Disconnected];
      var table: map<PacketType, seq<ProcessorId>> := map[];
      var k := 0;
      while k < |AllPacketTypes|
        invariant 0 <= k <= |AllPacketTypes|
        invariant forall t: PacketType :: t in table <==> t in AllPacketTypes[..k]
        invariant forall t | t in table :: table[t] == []
      {
        table := table[AllPacketTypes[k] := []];
        k := k + 1;
      }
      processors := table;
      forall t: PacketType
        ensures t in processors
      {
        AllPacketTypesComplete(t);
        assert AllPacketTypes[..k] == AllPacketTypes;
      }
    }

    /** The `State` setter. */
    method SetState(value: ConnectionState)
      modifies this`state, this`pingTimerEnabled, this`history
      ensures state == value && history == old(history) + [value]
      ensures pingTimerEnabled == TimerAfter(value, old(pingTimerEnabled))
    {
      state := value;
      history := history + [value];
      if state == Connecting {
        pingTimerEnabled := true;
      } else if state == Disconnecting {
        pingTimerEnabled := false;
      }
    }

    /** `RegisterPacketProcessor`: appends to the type's list. */
    method RegisterPacketProcessor(t: PacketType, processor: ProcessorId)
      requires Valid()
      modifies this`processors
      ensures Valid()
      ensures processors == old(processors)[t := old(processors[t]) + [processor]]
    {
      processors := processors[t := processors[t] + [processor]];
    }

    /** `RegisterVoicePacketProcessor`: its body is empty. */
    method RegisterVoicePacketProcessor(processor: ProcessorId)
      ensures unchanged(this)
    {
    }

    /**
     * `Connect`: only from Disconnected. Passes through Connecting to
     * Connected; the UDP socket is created but not connected. When the
     * server cannot be reached the state stays Connecting.
     */
    method Connect(username: string, password: string, tokens: Option<seq<string>>,
                   os: string, osVersion: string, reachable: bool) returns (r: Outcome)
      requires Valid()
      modifies this`state, this`pingTimerEnabled, this`history, this`tcp, this`udpCreated, this`udpConnected
      ensures Valid()
      ensures old(state) != Disconnected ==> r.Threw? && r.error.InvalidOperation? && unchanged(this)
      ensures old(state) == Disconnected && !reachable ==>
        r == Threw(Transport) && state == Connecting && pingTimerEnabled && history == old(history) + [Connecting]
      ensures old(state) == Disconnected && reachable ==>
        && r == Done && state == Connected && pingTimerEnabled
        && history == old(history) + [Connecting, Connected]
        && tcp != null && fresh(tcp) && tcp.connected
        && tcp.output == TcpSocket.HandshakeFrames(serialize, username, password, tokens, os, osVersion)
        && udpCreated && !udpConnected
    {
      if state != Disconnected {
        return Threw(InvalidOperation("Cannot start connecting MumbleConnection when connection state is not Disconnected"));
      }
      SetState(Connecting);
      r := Establish(username, password, tokens, os, osVersion, reachable);
    }

    /** The part of `Connect` after entering Connecting: open the sockets, then enter Connected. */
    method Establish(username: string, password: string, tokens: Option<seq<string>>,
                     os: string, osVersion: string, reachable: bool) returns (r: Outcome)
      requires Valid() && state == Connecting
      modifies this`state, this`pingTimerEnabled, this`history, this`tcp, this`udpCreated, this`udpConnected
      ensures Valid()
      ensures !reachable ==> r == Threw(Transport) && state == Connecting && history == old(history)
      ensures reachable ==>
        && r == Done && state == Connected && history == old(history) + [Connected]
        && tcp != null && fresh(tcp) && tcp.connected
        && tcp.output == TcpSocket.HandshakeFrames(serialize, username, password, tokens, os, osVersion)
        && udpCreated && !udpConnected
      ensures pingTimerEnabled
    {
      var socket := new TcpSocket.Socket(serialize, deserialize);
      tcp := socket;
      if !reachable {
        return Threw(Transport);
      }
      OpenSockets(username, password, tokens, os, osVersion);
      r := Done;
    }

    /** Handshake over the new TCP socket, create the UDP socket, enter Connected. */
    method OpenSockets(username: string, password: string, tokens: Option<seq<string>>, os: string, osVersion: string)
      requires Valid() && state == Connecting && tcp != null
      modifies this`state, this`pingTimerEnabled, this`history, this`udpCreated, this`udpConnected, tcp
      ensures Valid() && state == Connected && history == old(history) + [Connected] && pingTimerEnabled
      ensures tcp.connected && udpCreated && !udpConnected
      ensures tcp.output == old(tcp.output) + TcpSocket.HandshakeFrames(serialize, username, password, tokens, os, osVersion)
    {
      tcp.Connect(username, password, tokens, os, osVersion);
      udpCreated := true;
      udpConnected := false;
      SetState(Connected);
    }

    /**
     * `Close`: Disconnecting, close both sockets, Disconnected. Before any
     * successful `Connect` there is no UDP socket and the call throws with
     * the state left at Disconnecting. After a `Connect` that failed to
     * reach the server following an earlier session, the old UDP socket
     * closes but the new TCP socket never opened its streams, so its
     * `Close` throws, again in Disconnecting.
     */
    method Close() returns (r: Outcome)
      requires Valid()
      modifies this`state, this`pingTimerEnabled, this`history, this`udpConnected, tcp
      ensures Valid() && !pingTimerEnabled
      ensures old(udpCreated) && old(tcp.streams) ==>
        r == Done && state == Disconnected && history == old(history) + [Disconnecting, Disconnected]
        && !udpConnected && !tcp.connected
      ensures old(udpCreated) && !old(tcp.streams) ==>
        r == Threw(NullReference) && state == Disconnecting && history == old(history) + [Disconnecting]
        && !udpConnected
      ensures !old(udpCreated) ==>
        r == Threw(NullReference) && state == Disconnecting && history == old(history) + [Disconnecting]
      ensures tcp != null ==>
        (tcp.output == old(tcp.output) && tcp.input == old(tcp.input)
         && tcp.cursor == old(tcp.cursor) && tcp.received == old(tcp.received))
    {
      SetState(Disconnecting);
      if !udpCreated {
        return Threw(NullReference);
      }
      udpConnected := false;
      r := tcp.Close();
      if r.Threw? {
        return;
      }
      SetState(Disconnected);
    }

    /**
     * `Process`: one read from the TCP stream, whose packet (if any) goes to
     * `TcpOnPacketReceived`, then the UDP socket, which never has data
     * because it is never connected. Before `Connect` there are no sockets.
     */
    method Process(now: int) returns (r: Outcome)
      requires Valid() && IsLong(now)
      modifies this, tcp, pingProcessor
      ensures Valid() && tcp == old(tcp)
      ensures old(tcp) == null ==> r == Threw(NullReference) && unchanged(this)
      ensures old(tcp) != null && |tcp.received| == |old(tcp.received)| && r == Done ==> udpCreated
      ensures old(tcp) != null ==>
        |old(tcp.received)| <= |tcp.received| <= |old(tcp.received)| + 1 && tcp.received[..|old(tcp.received)|] == old(tcp.received)
      ensures old(tcp) != null && |tcp.received| > |old(tcp.received)| && r == Done ==>
        var (t, packet) := tcp.received[|old(tcp.received)|];
        udpCreated && invocations == old(invocations) + Calls(old(processors[t]), packet)
      ensures old(tcp) != null && |tcp.received| == |old(tcp.received)| ==> invocations == old(invocations)
      ensures state == old(state) && pingTimerEnabled == old(pingTimerEnabled) && processors == old(processors)
    {
      if tcp == null {
        return Threw(NullReference);
      }
      var before := |tcp.received|;
      r := tcp.Process();
      if r.Threw? {
        return;
      }
      if |tcp.received| > before {
        var (t, packet) := tcp.received[before];
        r := TcpOnPacketReceived(t, packet, now);
        if r.Threw? {
          return;
        }
      }
      if !udpCreated {
        return Threw(NullReference);
      }
    }

    /** `SendControl<T>`: throws once the TCP socket is closed, as its `_ssl` is then null. */
    method SendControl(t: PacketType, m: Message) returns (r: Outcome)
      requires Valid() && tcp != null
      modifies tcp`output
      ensures Valid()
      ensures tcp.connected ==> r == Done && tcp.output == old(tcp.output) + TcpSocket.Frame(t, serialize(m))
      ensures !tcp.connected ==> r == Threw(ArgumentNull) && tcp.output == old(tcp.output)
    {
      r := tcp.Send(t, m);
    }

    /** `SendVoice`: an already packed voice packet, tunnelled over TCP; throws once the TCP socket is closed. */
    method SendVoice(packet: seq<byte>) returns (r: Outcome)
      requires Valid() && tcp != null
      modifies tcp`output
      ensures Valid()
      ensures tcp.connected ==> r == Done && tcp.output == old(tcp.output) + TcpSocket.Frame(UDPTunnel, packet)
      ensures !tcp.connected ==> r == Threw(ArgumentNull) && tcp.output == old(tcp.output)
    {
      r := tcp.SendVoice(UDPTunnel, packet, 0, |packet|);
      assert packet[0..|packet|] == packet;
    }

    /**
     * `ProcessCryptState`: a full key setup when key and both nonces are
     * present; otherwise a new server nonce when one is present; otherwise a
     * reply carrying the client nonce.
     */
    method ProcessCryptState(c: CryptSetupMsg)
      requires Valid() && tcp != null && tcp.connected
      modifies this`cryptKey, this`cryptClientNonce, this`cryptServerNonce, tcp`output
      ensures Valid()
      ensures c.key.Some? && c.clientNonce.Some? && c.serverNonce.Some? ==>
        cryptKey == c.key.value && cryptClientNonce == c.clientNonce.value && cryptServerNonce == c.serverNonce.value
        && tcp.output == old(tcp.output)
      ensures !(c.key.Some? && c.clientNonce.Some? && c.serverNonce.Some?) && c.serverNonce.Some? ==>
        cryptKey == old(cryptKey) && cryptClientNonce == old(cryptClientNonce) && cryptServerNonce == c.serverNonce.value
        && tcp.output == old(tcp.output)
      ensures c.serverNonce.None? ==>
        cryptKey == old(cryptKey) && cryptClientNonce == old(cryptClientNonce) && cryptServerNonce == old(cryptServerNonce)
        && tcp.output == old(tcp.output)
             + TcpSocket.Frame(CryptSetup, serialize(CryptSetupMessage(CryptSetupMsg(None, Some(old(cryptClientNonce)), None))))
    {
      if c.key.Some? && c.clientNonce.Some? && c.serverNonce.Some? {
        cryptKey, cryptClientNonce, cryptServerNonce := c.key.value, c.clientNonce.value, c.serverNonce.value;
      } else if c.serverNonce.Some? {
        cryptServerNonce := c.serverNonce.value;
      } else {
        var _ := SendControl(CryptSetup, CryptSetupMessage(CryptSetupMsg(None, Some(cryptClientNonce), None)));
      }
    }

    /** The ping timer's `Elapsed` handler: only while connected; a UDP ping only when UDP is connected. */
    method PingTimerOnElapsed(now: int)
      requires Valid() && pingTimerEnabled && IsLong(now)
      modifies this`udpPings, tcp
      ensures Valid()
      ensures old(state) != Connected ==> udpPings == old(udpPings) && (tcp != null ==> unchanged(tcp))
      ensures old(state) == Connected ==>
        tcp.output == old(tcp.output) + TcpSocket.Frame(Packets.Ping, serialize(PingMessage(pingProcessor.CreateTcpPing(now))))
        && tcp.connected == old(tcp.connected)
      ensures old(state) == Connected && udpConnected ==>
        |udpPings| == |old(udpPings)| + 1 && udpPings[..|old(udpPings)|] == old(udpPings)
        && |udpPings[|old(udpPings)|]| == 9 && udpPings[|old(udpPings)|][0] == 0x20
      ensures old(state) == Connected && !udpConnected ==> udpPings == old(udpPings)
      ensures tcp != null ==> tcp.received == old(tcp.received) && tcp.input == old(tcp.input) && tcp.cursor == old(tcp.cursor)
    {
      if state != Connected {
        return;
      }
      var _ := tcp.SendPing(pingProcessor, now);
      if udpConnected {
        var ping := pingProcessor.CreateUdpPing(now);
        udpPings := udpPings + [ping];
      }
    }

    /**
     * `TcpOnPacketReceived`: the built-in handling of crypt setup (followed
     * by a ping), tunnelled voice and pings, then every processor registered
     * for the packet's type, in registration order. A packet whose contents
     * do not match its type fails the cast before any processor runs. Only
     * `Process` of a connected TCP socket raises the event it handles.
     */
    method TcpOnPacketReceived(t: PacketType, packet: Packet, now: int) returns (r: Outcome)
      requires Valid() && tcp != null && tcp.connected && IsLong(now)
      modifies this`cryptKey, this`cryptClientNonce, this`cryptServerNonce, this`udpReceived, this`invocations
      modifies tcp`output, pingProcessor
      ensures Valid()
      ensures r == Done <==> BuiltInCastSucceeds(t, packet)
      ensures r == Done ==> invocations == old(invocations) + Calls(old(processors[t]), packet)
      ensures r != Done ==> r == Threw(InvalidCast) && invocations == old(invocations)
      ensures t == UDPTunnel && r == Done ==> udpReceived == old(udpReceived) + [packet.bytes]
      ensures t != UDPTunnel ==> udpReceived == old(udpReceived)
      ensures t == Packets.Ping && r == Done ==> pingProcessor.shouldSetTimestampWhenPinging
      ensures t != CryptSetup ==> tcp.output == old(tcp.output)
    {
      if !BuiltInCastSucceeds(t, packet) {
        return Threw(InvalidCast);
      }
      HandleBuiltIn(t, packet, now);
      Dispatch(t, packet);
      r := Done;
    }

    /** The `switch` of `TcpOnPacketReceived`. */
    method HandleBuiltIn(t: PacketType, packet: Packet, now: int)
      requires Valid() && tcp != null && tcp.connected && IsLong(now) && BuiltInCastSucceeds(t, packet)
      modifies this`cryptKey, this`cryptClientNonce, this`cryptServerNonce, this`udpReceived, tcp`output, pingProcessor
      ensures Valid()
      ensures t == UDPTunnel ==> udpReceived == old(udpReceived) + [packet.bytes]
      ensures t != UDPTunnel ==> udpReceived == old(udpReceived)
      ensures t == Packets.Ping ==> pingProcessor.shouldSetTimestampWhenPinging
      ensures t == CryptSetup ==> tcp.output == old(tcp.output) + CryptSetupReply(packet.message.cryptSetup, old(cryptClientNonce), now)
      ensures t != CryptSetup ==> tcp.output == old(tcp.output)
    {
      if t == CryptSetup {
        ProcessCryptSetup(packet.message.cryptSetup, now);
      } else if t == UDPTunnel {
        udpReceived := udpReceived + [packet.bytes];
      } else if t == Packets.Ping {
        pingProcessor.ReceivePing(packet.message.ping, now);
      }
    }

    /** What a `CryptSetup` makes the client send: the client nonce when no server nonce came, then a ping. */
    ghost function CryptSetupReply(c: CryptSetupMsg, clientNonce: seq<byte>, now: int): seq<byte>
      reads this, pingProcessor
      requires IsLong(now)
    {
      (if c.serverNonce.None?
       then TcpSocket.Frame(CryptSetup, serialize(CryptSetupMessage(CryptSetupMsg(None, Some(clientNonce), None))))
       else [])
      + TcpSocket.Frame(Packets.Ping, serialize(PingMessage(pingProcessor.CreateTcpPing(now))))
    }

    /** The `CryptSetup` case: update the crypt state, then send a TCP ping. */
    method ProcessCryptSetup(c: CryptSetupMsg, now: int)
      requires Valid() && tcp != null && tcp.connected && IsLong(now)
      modifies this`cryptKey, this`cryptClientNonce, this`cryptServerNonce, tcp`output
      ensures Valid()
      ensures tcp.output == old(tcp.output) + CryptSetupReply(c, old(cryptClientNonce), now)
    {
      ProcessCryptState(c);
      var _ := tcp.SendPing(pingProcessor, now);
    }

    /** The `foreach` of `TcpOnPacketReceived`: every processor registered for `t`, in order. */
    method Dispatch(t: PacketType, packet: Packet)
      requires Valid()
      modifies this`invocations
      ensures Valid() && invocations == old(invocations) + Calls(processors[t], packet)
    {
      var list := processors[t];
      var i := 0;
      while i < |list|
        invariant 0 <= i <= |list|
        invariant invocations == old(invocations) + Calls(list[..i], packet)
      {
        assert list[..i + 1][..i] == list[..i];
        invocations := invocations + [(list[i], packet)];
        i := i + 1;
      }
      assert list[..i] == list;
    }
  }

  /** The casts the built-in handlers make: `(CryptSetup)`, `(byte[])` and `(Ping)` on the packet. */
  predicate BuiltInCastSucceeds(t: PacketType, packet: Packet)
  {
    && (t == CryptSetup ==> packet.Proto? && packet.message.CryptSetupMessage?)
    && (t == UDPTunnel ==> packet.Raw?)
    && (t == Packets.Ping ==> packet.Proto? && packet.message.PingMessage?)
  }
}
