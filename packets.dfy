/**
 * The control-channel vocabulary of the Mumble client: packet types with
 * their wire numbers, the fields of the protobuf messages the client reads
 * or writes, and the speech codec identifiers.
 *
 * The numbering of packet types is the Mumble protocol's; the protobuf
 * encoding of message bodies stays abstract (see the TcpSocket module).
 */
module Packets {
  import opened Common

  datatype PacketType =
    | Version | UDPTunnel | Authenticate | Ping | Reject | ServerSync
    | ChannelRemove | ChannelState | UserRemove | UserState | BanList
    | TextMessage | PermissionDenied | ACL | QueryUsers | CryptSetup
    | ContextActionModify | ContextAction | UserList | VoiceTarget
    | PermissionQuery | CodecVersion | UserStats | RequestBlob
    | ServerConfig | SuggestConfig

  /** Every packet type, in wire-number order (what `Enum.GetValues` enumerates). */
  const AllPacketTypes: seq<PacketType> :=
    [ Version, UDPTunnel, Authenticate, Ping, Reject, ServerSync,
      ChannelRemove, ChannelState, UserRemove, UserState, BanList,
      TextMessage, PermissionDenied, ACL, QueryUsers, CryptSetup,
      ContextActionModify, ContextAction, UserList, VoiceTarget,
      PermissionQuery, CodecVersion, UserStats, RequestBlob,
      ServerConfig, SuggestConfig ]

  /** The wire number of a packet type: `(short)type`. */
  function Tag(t: PacketType): (n: nat)
    ensures n < |AllPacketTypes| && AllPacketTypes[n] == t
  {
    match t
    case Version => 0
    case UDPTunnel => 1
    case Authenticate => 2
    case Ping => 3
    case Reject => 4
    case ServerSync => 5
    case ChannelRemove => 6
    case ChannelState => 7
    case UserRemove => 8
    case UserState => 9
    case BanList => 10
    case TextMessage => 11
    case PermissionDenied => 12
    case ACL => 13
    case QueryUsers => 14
    case CryptSetup => 15
    case ContextActionModify => 16
    case ContextAction => 17
    case UserList => 18
    case VoiceTarget => 19
    case PermissionQuery => 20
    case CodecVersion => 21
    case UserStats => 22
    case RequestBlob => 23
    case ServerConfig => 24
    case SuggestConfig => 25
  }

  /** The packet type a wire number names, if any: the cast `(PacketType)n`. */
  function FromTag(n: int): (r: Option<PacketType>)
    ensures r.Some? <==> 0 <= n < |AllPacketTypes|
    ensures r.Some? ==> Tag(r.value) == n
  {
    if 0 <= n < |AllPacketTypes| then Some(AllPacketTypes[n]) else None
  }

  /** Distinct packet types have distinct wire numbers, and reading a number back gives the type. */
  lemma TagInjective(t: PacketType, u: PacketType)
    ensures Tag(t) == Tag(u) ==> t == u
    ensures FromTag(Tag(t)) == Some(t)
  {
  }

  lemma AllPacketTypesComplete(t: PacketType)
    ensures t in AllPacketTypes
  {
    assert AllPacketTypes[Tag(t)] == t;
  }

  // Message bodies. An `Option` field is one protobuf may leave unset
  // (`ShouldSerializeX()` is false); other fields read as their defaults.

  datatype VersionMsg = VersionMsg(release: string, version: int, os: string, osVersion: string)

  datatype AuthenticateMsg =
    AuthenticateMsg(username: string, password: string, opus: bool, tokens: seq<string>, celtVersions: seq<int>)

  datatype CryptSetupMsg =
    CryptSetupMsg(key: Option<seq<byte>>, clientNonce: Option<seq<byte>>, serverNonce: Option<seq<byte>>)

  datatype PingMsg =
    PingMsg(timestamp: Option<ulong>, tcpPingAvg: Option<real>, tcpPingVar: Option<real>, tcpPackets: Option<nat>)

  const EmptyPing := PingMsg(None, None, None, None)

  datatype UserStateMsg = UserStateMsg(
    session: Option<uint>, actor: Option<uint>, name: Option<string>, channelId: Option<uint>,
    mute: Option<bool>, deaf: Option<bool>, suppress: Option<bool>,
    selfMute: Option<bool>, selfDeaf: Option<bool>, comment: Option<string>)

  /** A user state naming only an actor and a target channel, as `MoveUser` sends it. */
  function MoveRequest(actor: uint, channel: uint): (m: UserStateMsg)
    ensures m.actor == Some(actor) && m.channelId == Some(channel) && m.session.None?
  {
    UserStateMsg(None, Some(actor), None, Some(channel), None, None, None, None, None, None)
  }

  /** A user state naming the local user as session and actor, and a target channel, as `JoinChannel` sends it. */
  function JoinRequest(local: uint, channel: uint): (m: UserStateMsg)
    ensures m.session == Some(local) && m.actor == Some(local) && m.channelId == Some(channel)
    ensures m.name.None? && m.comment.None? && m.mute.None? && m.deaf.None?
  {
    UserStateMsg(Some(local), Some(local), None, Some(channel), None, None, None, None, None, None)
  }

  /** The user fields a `UserState` message may overwrite. */
  datatype Profile = Profile(
    deaf: bool, muted: bool, selfDeaf: bool, selfMuted: bool, suppress: bool,
    name: Option<string>, comment: Option<string>)

  /** A freshly constructed user: flags false, name and comment null. */
  const NewProfile := Profile(false, false, false, false, false, None, None)

  /** The `ShouldSerializeX()` guarded copies: a field present in the message overwrites, an absent one is kept. */
  function ApplyUserState(m: UserStateMsg, p: Profile): (r: Profile)
  {
    Profile(
      if m.deaf.Some? then m.deaf.value else p.deaf,
      if m.mute.Some? then m.mute.value else p.muted,
      if m.selfDeaf.Some? then m.selfDeaf.value else p.selfDeaf,
      if m.selfMute.Some? then m.selfMute.value else p.selfMuted,
      if m.suppress.Some? then m.suppress.value else p.suppress,
      if m.name.Some? then m.name else p.name,
      if m.comment.Some? then m.comment else p.comment)
  }

  /**
   * Only present fields change: a message with none of them leaves the user
   * as it was, a repeated message changes nothing more, and the second of two
   * messages wins on every field it carries.
   */
  lemma ApplyUserStateFrame(m: UserStateMsg, n: UserStateMsg, p: Profile)
    ensures (m.deaf.None? && m.mute.None? && m.selfDeaf.None? && m.selfMute.None? && m.suppress.None?
             && m.name.None? && m.comment.None?) ==> ApplyUserState(m, p) == p
    ensures ApplyUserState(m, ApplyUserState(m, p)) == ApplyUserState(m, p)
    ensures var q := ApplyUserState(n, ApplyUserState(m, p));
      && (n.deaf.Some? ==> q.deaf == n.deaf.value) && (n.deaf.None? && m.deaf.Some? ==> q.deaf == m.deaf.value)
      && (n.name.Some? ==> q.name == n.name) && (n.name.None? && m.name.Some? ==> q.name == m.name)
      && (n.name.None? && m.name.None? ==> q.name == p.name)
  {
  }

  datatype UserRemoveMsg = UserRemoveMsg(session: uint)

  datatype ChannelStateMsg = ChannelStateMsg(channelId: uint, parent: uint, name: Option<string>, temporary: bool)

  datatype ChannelRemoveMsg = ChannelRemoveMsg(channelId: uint)

  datatype ServerSyncMsg = ServerSyncMsg(session: uint, welcomeText: Option<string>)

  /** A text message; an unset id list reads as empty. */
  datatype TextMessageMsg =
    TextMessageMsg(actor: uint, sessions: seq<uint>, channelIds: seq<uint>, treeIds: seq<uint>, message: string)

  datatype CodecVersionMsg = CodecVersionMsg(alpha: int, beta: int, preferAlpha: bool, opus: bool)

  /** A deserialised control message; `Other` stands for the types the client never inspects. */
  datatype Message =
    | VersionMessage(version: VersionMsg)
    | AuthenticateMessage(authenticate: AuthenticateMsg)
    | PingMessage(ping: PingMsg)
    | CryptSetupMessage(cryptSetup: CryptSetupMsg)
    | UserStateMessage(userState: UserStateMsg)
    | UserRemoveMessage(userRemove: UserRemoveMsg)
    | ChannelStateMessage(channelState: ChannelStateMsg)
    | ChannelRemoveMessage(channelRemove: ChannelRemoveMsg)
    | ServerSyncMessage(serverSync: ServerSyncMsg)
    | TextMessageMessage(textMessage: TextMessageMsg)
    | CodecVersionMessage(codecVersion: CodecVersionMsg)
    | Other(kind: PacketType, body: seq<byte>)

  /** What a received frame carries: raw bytes for a tunnelled voice packet, a message otherwise. */
  datatype Packet = Raw(bytes: seq<byte>) | Proto(message: Message)

  /** `SpeechCodec`; a cast from a number outside the enum keeps the number. */
  datatype SpeechCodec = CeltAlpha | Speex | CeltBeta | Opus | Undefined(value: int)

  function CodecOf(n: int): (c: SpeechCodec)
    ensures c.Undefined? <==> n !in {0, 2, 3, 4}
  {
    if n == 0 then CeltAlpha
    else if n == 2 then Speex
    else if n == 3 then CeltBeta
    else if n == 4 then Opus
    else Undefined(n)
  }

  function CodecValue(c: SpeechCodec): int
  {
    match c
    case CeltAlpha => 0
    case Speex => 2
    case CeltBeta => 3
    case Opus => 4
    case Undefined(n) => n
  }

  /** The cast back and forth between codec and number loses nothing. */
  lemma CodecRoundTrip(n: int)
    ensures CodecValue(CodecOf(n)) == n
  {
  }

  /** Codec choice on a `CodecVersion` message: Opus when offered, else the preferred CELT. */
  function ChooseCodec(m: CodecVersionMsg): (c: SpeechCodec)
    ensures c == Opus <==> m.opus
    ensures c == CeltAlpha <==> !m.opus && m.preferAlpha
    ensures c == CeltBeta <==> !m.opus && !m.preferAlpha
  {
    if m.opus then Opus else if m.preferAlpha then CeltAlpha else CeltBeta
  }
}
