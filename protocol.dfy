/**
 * `BasicMumbleProtocol`: the client's view of the server's roster (users
 * and channels by id, the root channel, the local user), the codec chosen
 * for sending, and the outbound voice path that cuts an encoded packet into
 * sequence-numbered blocks.
 *
 * The calls the protocol makes on its connection are recorded as
 * `Connection.Request`s in order; the overridable hooks (`UserJoined`,
 * `ChannelLeft`, `PersonalMessageReceived`, ...) as `Event`s. The
 * connection reference is cleared by `Close`, after which every call on it
 * throws.
 */
module Protocol {
  import opened Common
  import opened Packets
  import opened VoiceFrames
  import opened Model
  import opened TextMessages
  import opened Connection

  /** The overridable hooks, in the order they are called. */
  datatype Event =
    | ChannelJoined(channel: Channel)
    | ChannelLeft(channel: Channel)
    | UserJoined(user: User)
    | UserLeft(user: User)
    | PersonalMessageReceived(sender: User, text: string)
    | ChannelMessageReceived(sender: User, text: string, channel: Channel, recursive: bool)

  /** The `SendVoice` calls for a sequence of voice packets, in order. */
  function Voices(packets: seq<seq<byte>>): (r: seq<Request>)
    ensures |r| == |packets|
    ensures forall k | 0 <= k < |r| :: r[k] == SendVoiceRequest(packets[k])
    decreases |packets|
  {
    if packets == [] then [] else [SendVoiceRequest(packets[0])] + Voices(packets[1..])
  }

  /** The message events of a routing, from the sender, the text and the channel table. */
  function MessageEvents(r: Routing, sender: User, text: string, channels: map<uint, Channel>): seq<Event>
    requires r.ToTree? ==> r.root in channels
    requires r.ToChannels? ==> forall k | 0 <= k < |r.ids| :: r.ids[k] in channels
  {
    match r
    case Ignored => []
    case Personal => [PersonalMessageReceived(sender, text)]
    case ToTree(root) => [ChannelMessageReceived(sender, text, channels[root], true)]
    case ToChannels(ids) => ChannelEvents(sender, text, ids, channels)
  }

  /** One non-recursive channel message per id, in order. */
  function ChannelEvents(sender: User, text: string, ids: seq<uint>, channels: map<uint, Channel>): (r: seq<Event>)
    requires forall k | 0 <= k < |ids| :: ids[k] in channels
    ensures |r| == |ids|
    ensures forall k | 0 <= k < |ids| :: r[k] == ChannelMessageReceived(sender, text, channels[ids[k]], false)
    decreases |ids|
  {
    if ids == [] then []
    else ChannelEvents(sender, text, ids[..|ids| - 1], channels)
         + [ChannelMessageReceived(sender, text, channels[ids[|ids| - 1]], false)]
  }

  /** The routing's channel ids are in the table. */
  lemma RouteTargetsKnown(m: TextMessageMsg, actorKnown: bool, channels: map<uint, Channel>)
    ensures var r := Route(m, actorKnown, channels.Keys);
      && (r.ToTree? ==> r.root in channels)
      && (r.ToChannels? ==> forall k | 0 <= k < |r.ids| :: r.ids[k] in channels)
  {
    KnownMembers(m.channelIds, channels.Keys);
  }

  class BasicMumbleProtocol {
    /** `UserDictionary`. */
    var users: map<uint, User>
    /** `ChannelDictionary`. */
    var channels: map<uint, Channel>
    var rootChannel: Channel?
    var receivedServerSync: bool
    var transmissionCodec: SpeechCodec
    var localUser: User?
    var sequenceIndex: uint
    /** The encoding buffer exists and the encoding thread was started (both happen in `ServerSync`). */
    var encoding: bool
    /** `_connection` is not null. */
    var attached: bool
    /** `Environment.NewLine`. */
    const newline: string
    var requests: seq<Request>
    var events: seq<Event>
    /** Every user and channel object the protocol ever created. */
    ghost var allUsers: set<User>
    ghost var allChannels: set<Channel>

    /**
     * The tables are keyed by id; the root channel has id 0; membership
     * between users and channels is consistent, and a user that is in a
     * channel is the table's user for its id.
     */
    ghost predicate Valid()
      reads this`users, this`channels, this`rootChannel, this`localUser, this`allUsers, this`allChannels
      reads allUsers`channel, allChannels`users
    {
      Tables() && Membership(allUsers, allChannels) && Anchored()
    }

    /** The tables hold created objects under their ids; the root channel, if any, is channel 0. */
    ghost predicate Tables()
      reads this`users, this`channels, this`rootChannel, this`localUser, this`allUsers, this`allChannels
    {
      && (forall k | k in users :: users[k] in allUsers && users[k].id == k)
      && (forall k | k in channels :: channels[k] in allChannels && channels[k].id == k)
      && (rootChannel != null ==> rootChannel in allChannels && rootChannel.id == 0)
      && (localUser != null ==> localUser in allUsers)
    }

    /** A user that is in a channel is the table's user for its id. */
    ghost predicate Anchored()
      reads this`users, this`allUsers, allUsers`channel
    {
      forall u | u in allUsers && u.channel != null :: u.id in users && users[u.id] == u
    }

    constructor(newline: string)
      ensures Valid()
      ensures users == map[] && channels == map[] && rootChannel == null && localUser == null
      ensures !receivedServerSync && transmissionCodec == CeltAlpha && sequenceIndex == 0
      ensures !encoding && attached && requests == [] && events == [] && this.newline == newline
    {
      users, channels := map[], map[];
      rootChannel, localUser := null, null;
      receivedServerSync := false;
      transmissionCodec := CeltAlpha;
      sequenceIndex := 0;
      encoding := false;
      attached := true;
      this.newline := newline;
      requests, events := [], [];
      allUsers, allChannels := {}, {};
    }

    /** A call on `_connection`: recorded, or a null dereference once the protocol is closed. */
    method Call(q: Request) returns (r: Outcome)
      modifies this`requests
      ensures attached ==> r == Done && requests == old(requests) + [q]
      ensures !attached ==> r == Threw(NullReference) && requests == old(requests)
    {
      if !attached {
        return Threw(NullReference);
      }
      requests := requests + [q];
      r := Done;
    }

    // ---- Channels ----

    /**
     * `ChannelState`: the first state for an id creates the channel with
     * name, parent and temporary flag; a later one only replaces its name.
     * Channel 0 becomes the root channel; `ChannelJoined` is called either way.
     */
    method ChannelState(m: ChannelStateMsg)
      requires Valid()
      modifies this`channels, this`allChannels, this`rootChannel, this`events, allChannels`name
      ensures Valid()
      ensures m.channelId in channels && channels.Keys == old(channels).Keys + {m.channelId}
      ensures forall k | k in old(channels) :: channels[k] == old(channels)[k]
      ensures m.channelId !in old(channels) ==>
        var c := channels[m.channelId];
        fresh(c) && c.name == m.name && c.parent == m.parent && c.temporary == m.temporary && c.users == map[]
      ensures m.channelId in old(channels) ==>
        channels[m.channelId].name == m.name && channels[m.channelId].temporary == old(channels[m.channelId].temporary)
      ensures forall k | k in old(channels) && k != m.channelId :: channels[k].name == old(channels[k].name)
      ensures rootChannel == if m.channelId == 0 then channels[0] else old(rootChannel)
      ensures events == old(events) + [ChannelJoined(channels[m.channelId])]
    {
      var channel: Channel;
      if m.channelId in channels {
        channel := channels[m.channelId];
        channel.name := m.name;
      } else {
        channel := AddChannel(m);
      }
      if channel.id == 0 {
        rootChannel := channel;
      }
      events := events + [ChannelJoined(channel)];
    }

    /** The `AddOrUpdate` factory: a new channel from the state, entered under its id. */
    method AddChannel(m: ChannelStateMsg) returns (c: Channel)
      requires Valid() && m.channelId !in channels
      modifies this`channels, this`allChannels
      ensures Valid() && fresh(c) && channels == old(channels)[m.channelId := c] && allChannels == old(allChannels) + {c}
      ensures c.id == m.channelId && c.name == m.name && c.parent == m.parent && c.temporary == m.temporary && c.users == map[]
    {
      c := new Channel(m.channelId, m.name, m.parent);
      c.temporary := m.temporary;
      MembershipAddChannel(allUsers, allChannels, c);
      channels := channels[m.channelId := c];
      allChannels := allChannels + {c};
    }

    /** `ChannelRemove`: the id leaves the table; `ChannelLeft` is called only if it was there. */
    method ChannelRemove(m: ChannelRemoveMsg)
      requires Valid()
      modifies this`channels, this`events
      ensures Valid()
      ensures channels == old(channels) - {m.channelId}
      ensures m.channelId in old(channels) ==> events == old(events) + [ChannelLeft(old(channels)[m.channelId])]
      ensures m.channelId !in old(channels) ==> events == old(events)
    {
      if m.channelId in channels {
        var c := channels[m.channelId];
        channels := channels - {m.channelId};
        events := events + [ChannelLeft(c)];
      }
    }

    // ---- Users ----

    /**
     * `UserState`: ignored without a session. Otherwise the user for the
     * session is fetched or created, the fields present in the message are
     * copied, and the user is moved into `ChannelDictionary[ChannelId]` if a
     * channel id is present (which throws when the id is unknown, after the
     * copies), else into the root channel; then `UserJoined` is called.
     */
    method UserState(m: UserStateMsg) returns (r: Outcome)
      requires Valid()
      modifies this`users, this`allUsers, this`events, allChannels`users
      modifies allUsers`deaf, allUsers`muted, allUsers`selfDeaf, allUsers`selfMuted, allUsers`suppress, allUsers`name,
        allUsers`comment, (if m.session.Some? && m.session.value in users then {users[m.session.value]} else {})`channel
      ensures Valid()
      ensures m.session.None? ==> r == Done && users == old(users) && events == old(events)
      ensures m.session.None? ==> forall u | u in old(allUsers) :: u.channel == old(u.channel) && u.Profile() == old(u.Profile())
      ensures m.session.None? ==> forall c | c in old(allChannels) :: c.users == old(c.users)
      ensures m.session.Some? ==>
        var id := m.session.value;
        && id in users && users == old(users)[id := users[id]]
        && (id in old(users) ==> users[id] == old(users)[id])
        && (id !in old(users) ==> fresh(users[id]))
        && users[id].Profile() == ApplyUserState(m, if id in old(users) then old(users[id].Profile()) else NewProfile)
      ensures m.session.Some? && m.channelId.Some? && m.channelId.value !in channels ==>
        var id := m.session.value;
        && r == Threw(KeyNotFound) && events == old(events)
        && users[id].channel == (if id in old(users) then old(users[id].channel) else null)
      ensures m.session.Some? && (m.channelId.None? || m.channelId.value in channels) ==>
        var id := m.session.value;
        && r == Done
        && users[id].channel == (if m.channelId.Some? then channels[m.channelId.value] else rootChannel)
        && events == old(events) + [UserJoined(users[id])]
      ensures m.session.Some? ==>
        forall k | k in old(users) && k != m.session.value :: users[k].Profile() == old(users[k].Profile())
      ensures m.session.Some? ==>
        forall u | u in old(allUsers) && u != users[m.session.value] :: u.Profile() == old(u.Profile())
      ensures m.session.Some? ==> unchanged((old(allUsers) - {users[m.session.value]})`channel)
      ensures m.session.Some? ==>
        var id := m.session.value;
        forall c | c in old(allChannels) && c != users[id].channel
                   && (id in old(users) ==> c != old(users[id].channel)) :: c.users == old(c.users)
    {
      if m.session.None? {
        return Done;
      }
      var user;
      r, user := UpdateUser(m.session.value, m);
      assert forall k | k in old(users) && k != m.session.value :: old(users)[k] in old(allUsers) && old(users)[k] != user;
    }

    /** `UserState` for a message with a session; `user` is the table's user for that session afterwards. */
    method UpdateUser(id: uint, m: UserStateMsg) returns (r: Outcome, user: User)
      requires Valid()
      modifies this`users, this`allUsers, this`events, allChannels`users
      modifies allUsers`deaf, allUsers`muted, allUsers`selfDeaf, allUsers`selfMuted, allUsers`suppress, allUsers`name,
        allUsers`comment, (if id in users then {users[id]} else {})`channel
      ensures Valid() && users == old(users)[id := user]
      ensures id in old(users) ==> user == old(users)[id]
      ensures id !in old(users) ==> fresh(user)
      ensures user.Profile() == ApplyUserState(m, if id in old(users) then old(users[id].Profile()) else NewProfile)
      ensures m.channelId.Some? && m.channelId.value !in channels ==>
        && r == Threw(KeyNotFound) && events == old(events)
        && user.channel == (if id in old(users) then old(users[id].channel) else null)
      ensures m.channelId.None? || m.channelId.value in channels ==>
        && r == Done
        && user.channel == (if m.channelId.Some? then channels[m.channelId.value] else rootChannel)
        && events == old(events) + [UserJoined(user)]
      ensures forall u | u in old(allUsers) && u != user :: u.Profile() == old(u.Profile())
      ensures forall c | c in old(allChannels) && c != user.channel && (id in old(users) ==> c != old(users[id].channel)) ::
        c.users == old(c.users)
    {
      user := AdmitUser(id, m);
      r := EnterChannel(user, m.channelId);
    }

    /** The `AddOrUpdate` of `UserState` followed by the copy of the fields the message carries. */
    method AdmitUser(id: uint, m: UserStateMsg) returns (user: User)
      requires Valid()
      modifies this`users, this`allUsers, allUsers`deaf, allUsers`muted, allUsers`selfDeaf, allUsers`selfMuted,
        allUsers`suppress, allUsers`name, allUsers`comment
      ensures Valid() && users == old(users)[id := user] && user.id == id
      ensures id in old(users) ==> user == old(users)[id] && user.channel == old(user.channel)
      ensures id !in old(users) ==> fresh(user) && user.channel == null
      ensures user.Profile() == ApplyUserState(m, if id in old(users) then old(users[id].Profile()) else NewProfile)
      ensures forall k | k in old(users) && k != id :: users[k].Profile() == old(users[k].Profile())
      ensures forall u | u in old(allUsers) && u != user :: u.Profile() == old(u.Profile())
    {
      user := FetchUser(id);
      CopyPresentFields(user, m);
    }

    /**
     * The end of `UserState`: `ChannelDictionary[channelId]` (throwing when
     * the id is unknown) or the root channel becomes the user's channel, and
     * `UserJoined` is called.
     */
    method EnterChannel(user: User, channelId: Option<uint>) returns (r: Outcome)
      requires Valid() && user.id in users && users[user.id] == user
      modifies user`channel, allChannels`users, this`events
      ensures Valid() && user.Profile() == old(user.Profile())
      ensures forall c | c in old(allChannels) && c != old(user.channel) && c != user.channel :: c.users == old(c.users)
      ensures channelId.Some? && channelId.value !in channels ==>
        r == Threw(KeyNotFound) && events == old(events) && user.channel == old(user.channel)
      ensures channelId.None? || channelId.value in channels ==>
        && r == Done && events == old(events) + [UserJoined(user)]
        && user.channel == (if channelId.Some? then channels[channelId.value] else rootChannel)
    {
      var target: Channel?;
      if channelId.Some? {
        if channelId.value !in channels {
          return Threw(KeyNotFound);
        }
        target := channels[channelId.value];
      } else {
        target := rootChannel;
      }
      Place(user, target);
      events := events + [UserJoined(user)];
      r := Done;
    }

    /** The `AddOrUpdate` of `UserState`: the table's user for the id, created (in no channel) if there is none. */
    method FetchUser(id: uint) returns (user: User)
      requires Valid()
      modifies this`users, this`allUsers
      ensures Valid() && users == old(users)[id := user] && user.id == id
      ensures id in old(users) ==> user == old(users)[id] && allUsers == old(allUsers)
      ensures id !in old(users) ==> fresh(user) && user.Profile() == NewProfile && user.channel == null
    {
      if id in users {
        return users[id];
      }
      user := new User(id);
      MembershipAddUser(allUsers, allChannels, user);
      users := users[id := user];
      allUsers := allUsers + {user};
    }

    /** The `Channel` setter on a user of the table: membership stays consistent. */
    method Place(user: User, target: Channel?)
      requires Valid() && user.id in users && users[user.id] == user && (target != null ==> target in allChannels)
      modifies user`channel, {user.channel, target}`users
      ensures Valid() && user.channel == target && user.Profile() == old(user.Profile())
    {
      user.SetChannel(target, allUsers, allChannels);
    }

    /**
     * `UserRemove` as evidently intended: a known user leaves the table and
     * its channel and `UserLeft` is called; the connection is closed when
     * that user is the local user. An unknown session changes nothing.
     */
    method UserRemove(m: UserRemoveMsg) returns (r: Outcome)
      requires Valid()
      modifies this`users, this`events, this`requests, allUsers`channel, allChannels`users
      ensures Valid()
      ensures users == old(users) - {m.session}
      ensures forall u | u in old(allUsers) && (m.session in old(users) ==> u != old(users)[m.session]) :: u.channel == old(u.channel)
      ensures forall c | c in old(allChannels) && (m.session in old(users) ==> c != old(users[m.session].channel)) ::
        c.users == old(c.users)
      ensures m.session !in old(users) ==> r == Done && events == old(events) && requests == old(requests)
      ensures m.session in old(users) ==>
        && old(users)[m.session].channel == null
        && events == old(events) + [UserLeft(old(users)[m.session])]
      ensures m.session in old(users) && localUser != null && localUser.id == m.session ==>
        (attached ==> r == Done && requests == old(requests) + [CloseRequest])
        && (!attached ==> r == Threw(NullReference) && requests == old(requests))
      ensures m.session in old(users) && (localUser == null || localUser.id != m.session) ==>
        r == Done && requests == old(requests)
    {
      r := Done;
      if m.session in users {
        var user := Evict(m.session);
        events := events + [UserLeft(user)];
        if localUser != null && localUser.id == user.id {
          r := Call(CloseRequest);
        }
      }
    }

    /** The `TryRemove` of `UserRemove` and the user's leaving its channel. */
    method Evict(id: uint) returns (user: User)
      requires Valid() && id in users
      modifies this`users, allUsers`channel, allChannels`users
      ensures Valid() && users == old(users) - {id} && user == old(users)[id] && user.channel == null
      ensures forall u | u in old(allUsers) && u != user :: u.channel == old(u.channel)
      ensures forall c | c in old(allChannels) && c != old(user.channel) :: c.users == old(c.users)
    {
      user := users[id];
      users := users - {id};
      user.SetChannel(null, allUsers, allChannels);
    }

    /**
     * `UserRemove` as written: after the removal it calls
     * `user.Equals(LocalUser)` even when nothing was removed (`user` is then
     * null), and `Equals(User)` dereferences `LocalUser`, null until the
     * server sync.
     */
    method UserRemoveAsWritten(m: UserRemoveMsg) returns (r: Outcome)
      requires Valid()
      modifies this`users, this`events, this`requests, allUsers`channel, allChannels`users
      ensures Valid()
      ensures users == old(users) - {m.session}
      ensures forall u | u in old(allUsers) && (m.session in old(users) ==> u != old(users)[m.session]) :: u.channel == old(u.channel)
      ensures forall c | c in old(allChannels) && (m.session in old(users) ==> c != old(users[m.session].channel)) ::
        c.users == old(c.users)
      ensures m.session !in old(users) ==> r == Threw(NullReference) && events == old(events) && requests == old(requests)
      ensures m.session in old(users) ==>
        && old(users)[m.session].channel == null
        && events == old(events) + [UserLeft(old(users)[m.session])]
      ensures m.session in old(users) && localUser == null ==> r == Threw(NullReference) && requests == old(requests)
      ensures m.session in old(users) && localUser != null && localUser.id == m.session ==>
        (attached ==> r == Done && requests == old(requests) + [CloseRequest])
        && (!attached ==> r == Threw(NullReference) && requests == old(requests))
      ensures m.session in old(users) && localUser != null && localUser.id != m.session ==>
        r == Done && requests == old(requests)
    {
      var user: User? := null;
      if m.session in users {
        user := Evict(m.session);
        events := events + [UserLeft(user)];
      }
      if user == null || localUser == null {
        return Threw(NullReference);
      }
      r := Done;
      if user.id == localUser.id {
        r := Call(CloseRequest);
      }
    }

    // ---- Server setup ----

    /**
     * `ServerSync`: a second one throws. Otherwise the local user is looked
     * up by session (throwing if unknown), the encoding thread is started
     * (throwing if it already was) and the sync is recorded.
     */
    method ServerSync(m: ServerSyncMsg) returns (r: Outcome)
      requires Valid()
      modifies this`localUser, this`encoding, this`receivedServerSync
      ensures Valid()
      ensures old(localUser) != null ==>
        && r == Threw(InvalidOperation("Second ServerSync Received"))
        && localUser == old(localUser) && encoding == old(encoding) && receivedServerSync == old(receivedServerSync)
      ensures old(localUser) == null && m.session !in users ==>
        r == Threw(KeyNotFound) && localUser == null && encoding == old(encoding) && receivedServerSync == old(receivedServerSync)
      ensures old(localUser) == null && m.session in users ==> localUser == users[m.session] && encoding
      ensures old(localUser) == null && m.session in users && old(encoding) ==>
        r == Threw(ThreadState) && receivedServerSync == old(receivedServerSync)
      ensures old(localUser) == null && m.session in users && !old(encoding) ==> r == Done && receivedServerSync
    {
      if localUser != null {
        return Threw(InvalidOperation("Second ServerSync Received"));
      }
      if m.session !in users {
        return Threw(KeyNotFound);
      }
      localUser := users[m.session];
      if encoding {
        return Threw(ThreadState);
      }
      encoding := true;
      receivedServerSync := true;
      r := Done;
    }

    /** `CodecVersion`: Opus if offered, else the CELT version the server prefers. */
    method CodecVersion(m: CodecVersionMsg)
      modifies this`transmissionCodec
      ensures transmissionCodec == ChooseCodec(m)
    {
      transmissionCodec := ChooseCodec(m);
    }

    /** `Close`: the connection reference and the local user are cleared. */
    method Close()
      requires Valid()
      modifies this`attached, this`localUser
      ensures Valid() && !attached && localUser == null
    {
      attached := false;
      localUser := null;
    }

    // ---- Voice ----

    /**
     * One pass of `EncodingThreadEntry` over an encoded packet: each block of
     * at most 480 bytes is sent as a voice packet under the next sequence
     * number. Once closed, the first send throws.
     */
    method SendEncodedPacket(packet: seq<byte>) returns (r: Outcome)
      requires |packet| < TWO_32
      modifies this`requests, this`sequenceIndex
      ensures BlocksAreSmallFor(packet)
      ensures !attached && |packet| > 0 ==>
        r == Threw(NullReference) && requests == old(requests) && sequenceIndex == old(sequenceIndex)
      ensures attached || |packet| == 0 ==>
        && r == Done
        && requests == old(requests) + Voices(VoicePackets(transmissionCodec, old(sequenceIndex), Blocks(packet)))
        && sequenceIndex == (old(sequenceIndex) + |Blocks(packet)|) % TWO_32
    {
      BlocksAreSmall(packet);
      if !attached && |packet| > 0 {
        return Threw(NullReference);
      }
      var sends, index := CutAndSend(transmissionCodec, sequenceIndex, packet);
      VoiceSendsAreVoices(transmissionCodec, old(sequenceIndex), packet);
      requests := requests + sends;
      sequenceIndex := index;
      r := Done;
    }

    /** `SendVoiceStop`: the encoding buffer is stopped (a null dereference before the server sync) and the sequence restarts at 0. */
    method SendVoiceStop() returns (r: Outcome)
      modifies this`sequenceIndex
      ensures encoding ==> r == Done && sequenceIndex == 0
      ensures !encoding ==> r == Threw(NullReference) && sequenceIndex == old(sequenceIndex)
    {
      if !encoding {
        return Threw(NullReference);
      }
      sequenceIndex := 0;
      r := Done;
    }

    // ---- Text messages ----

    /**
     * `TextMessage`: routed by sender and channel ids; the `foreach` over the
     * channel ids raises one message per known id.
     */
    method TextMessage(m: TextMessageMsg)
      requires Valid()
      modifies this`events
      ensures Valid()
      ensures m.actor !in users ==> events == old(events)
      ensures m.actor in users ==>
        events == old(events) + MessageEvents(Route(m, true, channels.Keys), users[m.actor], m.message, channels)
    {
      RouteTargetsKnown(m, m.actor in users, channels);
      if m.actor !in users {
        return;
      }
      var user := users[m.actor];
      if |m.channelIds| == 0 {
        if |m.treeIds| == 0 {
          events := events + [PersonalMessageReceived(user, m.message)];
        } else if m.treeIds[0] in channels {
          events := events + [ChannelMessageReceived(user, m.message, channels[m.treeIds[0]], true)];
        }
      } else {
        var raised := RaiseChannelMessages(user, m.message, m.channelIds, channels);
        events := events + raised;
      }
    }

    /** `SendMessage(User, string[])`, addressed to the user (see `UserTextMessageAsWritten` for the code as written). */
    method SendUserMessage(user: User, lines: seq<string>) returns (r: Outcome)
      modifies this`requests
      ensures Sent(r, if localUser == null then None
        else Some(SendControlRequest(Packets.TextMessage,
          TextMessageMessage(UserTextMessage(localUser.id, user.id, JoinLines(lines, newline))))))
    {
      if localUser == null {
        return Threw(NullReference);
      }
      r := Call(SendControlRequest(Packets.TextMessage,
        TextMessageMessage(UserTextMessage(localUser.id, user.id, JoinLines(lines, newline)))));
    }

    /** `SendMessage(User, string)`: the text is split into lines, which the overload above joins again. */
    method SendUserText(user: User, text: string) returns (r: Outcome)
      modifies this`requests
      ensures Sent(r, if localUser == null then None
        else Some(SendControlRequest(Packets.TextMessage,
          TextMessageMessage(UserTextMessage(localUser.id, user.id, JoinLines(SplitLines(text), newline))))))
    {
      r := SendUserMessage(user, SplitLines(text));
    }

    /** `SendMessage(Channel, string[], recursive)`. */
    method SendChannelMessage(channel: Channel, lines: seq<string>, recursive: bool) returns (r: Outcome)
      modifies this`requests
      ensures Sent(r, if localUser == null then None
        else Some(SendControlRequest(Packets.TextMessage,
          TextMessageMessage(ChannelTextMessage(localUser.id, channel.id, JoinLines(lines, newline), recursive)))))
    {
      if localUser == null {
        return Threw(NullReference);
      }
      r := Call(SendControlRequest(Packets.TextMessage,
        TextMessageMessage(ChannelTextMessage(localUser.id, channel.id, JoinLines(lines, newline), recursive))));
    }

    /** `SendMessage(Channel, string, recursive)`. */
    method SendChannelText(channel: Channel, text: string, recursive: bool) returns (r: Outcome)
      modifies this`requests
      ensures Sent(r, if localUser == null then None
        else Some(SendControlRequest(Packets.TextMessage,
          TextMessageMessage(ChannelTextMessage(localUser.id, channel.id, JoinLines(SplitLines(text), newline), recursive)))))
    {
      r := SendChannelMessage(channel, SplitLines(text), recursive);
    }

    /**
     * `SendMessage(IEnumerable<Channel>, string[], recursive)`: one message
     * per owning protocol, here this one, naming every channel; no channels,
     * no message.
     */
    method SendChannelsMessage(cs: seq<Channel>, lines: seq<string>, recursive: bool) returns (r: Outcome)
      modifies this`requests
      ensures |cs| == 0 ==> r == Done && requests == old(requests)
      ensures |cs| > 0 ==> Sent(r, if localUser == null then None
        else Some(SendControlRequest(Packets.TextMessage,
          TextMessageMessage(ChannelsTextMessage(localUser.id, Ids(cs), JoinLines(lines, newline), recursive)))))
    {
      if |cs| == 0 {
        return Done;
      }
      if localUser == null {
        return Threw(NullReference);
      }
      r := Call(SendControlRequest(Packets.TextMessage,
        TextMessageMessage(ChannelsTextMessage(localUser.id, Ids(cs), JoinLines(lines, newline), recursive))));
    }

    /** `MoveUser`: nothing is sent when the user already is in the channel; otherwise a user state with the user as actor and the channel. */
    method MoveUser(user: User, channel: Channel) returns (r: Outcome)
      modifies this`requests
      ensures user.channel == channel ==> r == Done && requests == old(requests)
      ensures user.channel != channel ==>
        Sent(r, Some(SendControlRequest(Packets.UserState, UserStateMessage(MoveRequest(user.id, channel.id)))))
    {
      if user.channel == channel {
        return Done;
      }
      r := Call(SendControlRequest(Packets.UserState, UserStateMessage(MoveRequest(user.id, channel.id))));
    }

    /** `JoinChannel`: a user state naming the local user as session and actor, and the channel. */
    method JoinChannel(channel: Channel) returns (r: Outcome)
      modifies this`requests
      ensures Sent(r, if localUser == null then None
        else Some(SendControlRequest(Packets.UserState, UserStateMessage(JoinRequest(localUser.id, channel.id)))))
    {
      if localUser == null {
        return Threw(NullReference);
      }
      r := Call(SendControlRequest(Packets.UserState, UserStateMessage(JoinRequest(localUser.id, channel.id))));
    }

    /**
     * The effect of a send: `None` means the local user was null, a null
     * dereference before anything is sent; otherwise the request is
     * recorded, or the call throws once the protocol is closed.
     */
    twostate predicate Sent(r: Outcome, q: Option<Request>)
      reads this
    {
      if q.Some? && attached then r == Done && requests == old(requests) + [q.value]
      else r == Threw(NullReference) && requests == old(requests)
    }
  }

  /**
   * The guarded copies of `UserState`: each field present in the message
   * overwrites the user's, the others stay.
   */
  method CopyPresentFields(user: User, m: UserStateMsg)
    modifies user`deaf, user`muted, user`selfDeaf, user`selfMuted, user`suppress, user`name, user`comment
    ensures user.Profile() == ApplyUserState(m, old(user.Profile()))
  {
    user.selfDeaf := if m.selfDeaf.Some? then m.selfDeaf.value else user.selfDeaf;
    user.selfMuted := if m.selfMute.Some? then m.selfMute.value else user.selfMuted;
    user.muted := if m.mute.Some? then m.mute.value else user.muted;
    user.deaf := if m.deaf.Some? then m.deaf.value else user.deaf;
    user.suppress := if m.suppress.Some? then m.suppress.value else user.suppress;
    user.name := if m.name.Some? then m.name else user.name;
    user.comment := if m.comment.Some? then m.comment else user.comment;
  }

  /** `channels.Select(c => c.Id)`. */
  function Ids(cs: seq<Channel>): (r: seq<uint>)
    ensures |r| == |cs| && forall k | 0 <= k < |cs| :: r[k] == cs[k].id
    decreases |cs|
  {
    if cs == [] then [] else [cs[0].id] + Ids(cs[1..])
  }

  /** Every block of a packet fits a voice packet. */
  ghost predicate BlocksAreSmallFor(packet: seq<byte>)
  {
    SmallBlocks(Blocks(packet))
  }

  /** The `SendVoice` calls for a first packet and the rest. */
  lemma VoicesCons(p: seq<byte>, ps: seq<seq<byte>>)
    ensures Voices([p] + ps) == [SendVoiceRequest(p)] + Voices(ps)
  {
    assert ([p] + ps)[1..] == ps;
  }

  /**
   * The `SendVoice` calls of `EncodingThreadEntry` for one encoded packet,
   * block by block from the given sequence number.
   */
  function VoiceSends(codec: SpeechCodec, sequence: uint, p: seq<byte>): seq<Request>
    decreases |p|
  {
    if |p| == 0 then []
    else
      var n := if |p| < MaxBlock then |p| else MaxBlock;
      [SendVoiceRequest(VoicePacket(codec, sequence, p[..n]))] + VoiceSends(codec, (sequence + 1) % TWO_32, p[n..])
  }

  /**
   * The loop of `EncodingThreadEntry` over one encoded packet: the blocks are
   * cut front to back and each is sent under the next sequence number.
   */
  method CutAndSend(codec: SpeechCodec, start: uint, packet: seq<byte>) returns (sends: seq<Request>, index: uint)
    ensures sends == VoiceSends(codec, start, packet)
    ensures index == (start + |sends|) % TWO_32
  {
    index := start;
    sends := [];
    var offset := 0;
    assert packet[offset..] == packet;
    while offset < |packet|
      invariant 0 <= offset <= |packet|
      invariant index == (start + |sends|) % TWO_32
      invariant sends + VoiceSends(codec, index, packet[offset..]) == VoiceSends(codec, start, packet)
      decreases |packet| - offset
    {
      var size := if |packet| - offset < MaxBlock then |packet| - offset else MaxBlock;
      VoiceSendsStep(sends, VoiceSends(codec, start, packet), codec, index, packet, offset, size);
      SuccessorWraps(start, |sends|, index);
      sends := sends + [SendVoiceRequest(VoicePacket(codec, index, packet[offset..offset + size]))];
      index := (index + 1) % TWO_32;
      offset := offset + size;
    }
    assert packet[offset..] == [];
    assert VoiceSends(codec, index, []) == [];
    assert sends + [] == sends;
  }

  /** The `foreach` of `TextMessage` over the channel ids: one message per id the table knows, in order. */
  method RaiseChannelMessages(sender: User, text: string, ids: seq<uint>, channels: map<uint, Channel>) returns (raised: seq<Event>)
    ensures raised == ChannelEvents(sender, text, Known(ids, channels.Keys), channels)
  {
    raised := [];
    for i := 0 to |ids|
      invariant raised == ChannelEvents(sender, text, Known(ids[..i], channels.Keys), channels)
    {
      RaiseStep(sender, text, ids, i, channels);
      if ids[i] in channels {
        raised := raised + [ChannelMessageReceived(sender, text, channels[ids[i]], false)];
      }
    }
    assert ids[..|ids|] == ids;
  }

  /** One more id of the `foreach`: a known id adds its message at the end, an unknown one nothing. */
  lemma RaiseStep(sender: User, text: string, ids: seq<uint>, i: nat, channels: map<uint, Channel>)
    requires i < |ids|
    ensures ids[i] in channels ==>
      ChannelEvents(sender, text, Known(ids[..i + 1], channels.Keys), channels)
      == ChannelEvents(sender, text, Known(ids[..i], channels.Keys), channels)
         + [ChannelMessageReceived(sender, text, channels[ids[i]], false)]
    ensures ids[i] !in channels ==>
      ChannelEvents(sender, text, Known(ids[..i + 1], channels.Keys), channels)
      == ChannelEvents(sender, text, Known(ids[..i], channels.Keys), channels)
  {
    assert ids[..i + 1][..i] == ids[..i];
    var before := Known(ids[..i], channels.Keys);
    if ids[i] in channels {
      var after := before + [ids[i]];
      assert after[..|after| - 1] == before;
    } else {
      assert before + [] == before;
    }
  }

  /** The loop of `SendEncodedPacket` keeps its invariant: sent so far, then still to send, is the whole. */
  lemma VoiceSendsStep(sent: seq<Request>, goal: seq<Request>, codec: SpeechCodec, sequence: uint,
                       packet: seq<byte>, offset: nat, size: nat)
    requires offset < |packet| && size == (if |packet| - offset < MaxBlock then |packet| - offset else MaxBlock)
    requires sent + VoiceSends(codec, sequence, packet[offset..]) == goal
    ensures (sent + [SendVoiceRequest(VoicePacket(codec, sequence, packet[offset..offset + size]))])
            + VoiceSends(codec, (sequence + 1) % TWO_32, packet[offset + size..]) == goal
  {
    VoiceSendsFrom(codec, sequence, packet, offset, size);
    var head := [SendVoiceRequest(VoicePacket(codec, sequence, packet[offset..offset + size]))];
    var tail := VoiceSends(codec, (sequence + 1) % TWO_32, packet[offset + size..]);
    assert (sent + head) + tail == sent + (head + tail);
  }

  /** What is sent from `offset` on: the block there, then the rest under the next sequence number. */
  lemma VoiceSendsFrom(codec: SpeechCodec, sequence: uint, packet: seq<byte>, offset: nat, size: nat)
    requires offset < |packet| && size == (if |packet| - offset < MaxBlock then |packet| - offset else MaxBlock)
    ensures VoiceSends(codec, sequence, packet[offset..])
         == [SendVoiceRequest(VoicePacket(codec, sequence, packet[offset..offset + size]))]
            + VoiceSends(codec, (sequence + 1) % TWO_32, packet[offset + size..])
  {
    var rest := packet[offset..];
    assert rest[..size] == packet[offset..offset + size];
    assert rest[size..] == packet[offset + size..];
  }

  /** Sending block by block is sending the voice packets of the packet's blocks. */
  lemma {:induction false} VoiceSendsAreVoices(codec: SpeechCodec, sequence: uint, p: seq<byte>)
    ensures SmallBlocks(Blocks(p))
    ensures VoiceSends(codec, sequence, p) == Voices(VoicePackets(codec, sequence, Blocks(p)))
    ensures |VoiceSends(codec, sequence, p)| == |Blocks(p)|
    decreases |p|
  {
    BlocksAreSmall(p);
    if |p| > 0 {
      var n := if |p| < MaxBlock then |p| else MaxBlock;
      VoiceSendsAreVoices(codec, (sequence + 1) % TWO_32, p[n..]);
      VoicePacketsCons(codec, sequence, p[..n], Blocks(p[n..]));
      VoicesCons(VoicePacket(codec, sequence, p[..n]), VoicePackets(codec, (sequence + 1) % TWO_32, Blocks(p[n..])));
    }
  }

  /** One more increment modulo 2^32 counts one more block. */
  lemma SuccessorWraps(start: uint, sent: nat, current: uint)
    requires current == (start + sent) % TWO_32
    ensures (current + 1) % TWO_32 == (start + sent + 1) % TWO_32
  {
  }
}
