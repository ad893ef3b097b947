/**
 * `UsersManagementService`: the client's user and channel tables, kept up
 * to date by the `UserState`, `UserRemove`, `ChannelState` and
 * `ChannelRemove` processors it registers, plus the local user, which is
 * looked up when the server has synchronised.
 */
module Roster {
  import opened Common
  import opened Packets
  import opened Connection
  import opened UsersManagement
  import ServerSyncState

  /**
   * Where a `UserState` puts its user: the channel it names, which must be
   * known (the lookup throws otherwise, shown as `None`), or channel 0 when
   * it names none, or no channel when channel 0 is unknown too.
   */
  function Assigned(channelId: Option<uint>, channels: map<uint, Channel>): (r: Option<Channel?>)
    ensures channelId.Some? ==> (r.Some? <==> channelId.value in channels)
    ensures r.Some? && r.value != null ==> r.value in channels.Values
    ensures channelId.None? ==> r.Some? && (r.value == null <==> 0 !in channels)
  {
    if channelId.Some? then
      if channelId.value in channels then Some(channels[channelId.value]) else None
    else if 0 in channels then Some(channels[0]) else Some(null)
  }

  /** When ids are keys, the channel assigned has the id asked for, or id 0 by default. */
  lemma AssignedHasId(channelId: Option<uint>, channels: map<uint, Channel>)
    requires forall k | k in channels :: channels[k].id == k
    ensures var r := Assigned(channelId, channels);
      r.Some? && r.value != null ==> r.value.id == (if channelId.Some? then channelId.value else 0)
  {
  }

  class UsersManagementService {
    var users: map<uint, User>
    var channels: map<uint, Channel>
    var localUser: User?
    /** The calls made on `_connection`, in order. */
    var requests: seq<Request>
    const serverSync: ServerSyncState.ServerSyncStateService

    /** Both tables hold every entry under its own id. */
    ghost predicate Valid()
      reads this`users, this`channels
    {
      && (forall k | k in users :: users[k].id == k)
      && (forall k | k in channels :: channels[k].id == k)
    }

    /**
     * The constructor registers its four processors, in this order, for
     * `UserState`, `UserRemove`, `ChannelState` and `ChannelRemove`.
     */
    constructor(connection: MumbleConnection, serverSync: ServerSyncState.ServerSyncStateService,
                userState: ProcessorId, userRemove: ProcessorId, channelState: ProcessorId, channelRemove: ProcessorId)
      requires connection.Valid()
      modifies connection`processors
      ensures Valid() && users == map[] && channels == map[] && localUser == null && requests == []
      ensures this.serverSync == serverSync && connection.Valid()
      ensures connection.processors == old(connection.processors)
        [Packets.UserState := old(connection.processors[Packets.UserState]) + [userState]]
        [Packets.UserRemove := old(connection.processors[Packets.UserRemove]) + [userRemove]]
        [Packets.ChannelState := old(connection.processors[Packets.ChannelState]) + [channelState]]
        [Packets.ChannelRemove := old(connection.processors[Packets.ChannelRemove]) + [channelRemove]]
    {
      users, channels := map[], map[];
      localUser := null;
      requests := [];
      this.serverSync := serverSync;
      new;
      connection.RegisterPacketProcessor(Packets.UserState, userState);
      connection.RegisterPacketProcessor(Packets.UserRemove, userRemove);
      connection.RegisterPacketProcessor(Packets.ChannelState, channelState);
      connection.RegisterPacketProcessor(Packets.ChannelRemove, channelRemove);
    }

    /** `TryGetUser`: the user under the session id, which has that id. */
    function TryGetUser(session: uint): (r: Option<User>)
      requires Valid()
      reads this`users, this`channels
      ensures r.Some? <==> session in users
      ensures r.Some? ==> r.value.id == session && r.value in users.Values
    {
      if session in users then Some(users[session]) else None
    }

    /** `TryGetChannel`: the channel under the id, which has that id. */
    function TryGetChannel(id: uint): (r: Option<Channel>)
      requires Valid()
      reads this`users, this`channels
      ensures r.Some? <==> id in channels
      ensures r.Some? ==> r.value.id == id && r.value in channels.Values
    {
      if id in channels then Some(channels[id]) else None
    }

    /** `MoveUser`: nothing is sent when the user's channel `==` the target; otherwise a user state with the user as actor. */
    method MoveUser(user: User, channel: Channel)
      modifies this`requests
      ensures Same(user.channel, channel) ==> requests == old(requests)
      ensures !Same(user.channel, channel) ==>
        requests == old(requests) + [SendControlRequest(Packets.UserState, UserStateMessage(MoveRequest(user.id, channel.id)))]
    {
      if Same(user.channel, channel) {
        return;
      }
      requests := requests + [SendControlRequest(Packets.UserState, UserStateMessage(MoveRequest(user.id, channel.id)))];
    }

    /** `JoinChannel`: a user state naming the local user as session and actor; a null dereference without a local user. */
    method JoinChannel(channel: Channel) returns (r: Outcome)
      modifies this`requests
      ensures localUser == null ==> r == Threw(NullReference) && requests == old(requests)
      ensures localUser != null ==>
        && r == Done
        && requests == old(requests) + [SendControlRequest(Packets.UserState, UserStateMessage(JoinRequest(localUser.id, channel.id)))]
    {
      if localUser == null {
        return Threw(NullReference);
      }
      requests := requests + [SendControlRequest(Packets.UserState, UserStateMessage(JoinRequest(localUser.id, channel.id)))];
      r := Done;
    }

    /**
     * `ProcessUserStatePacket`: ignored without a session. Otherwise the
     * user under the session is reused or created, each field present in
     * the message is copied, and then the user is placed as `Assigned`
     * says; when the named channel is unknown the lookup throws after the
     * copies, leaving the user's channel as it was.
     */
    method ProcessUserStatePacket(m: UserStateMsg) returns (r: Outcome)
      requires Valid()
      modifies this`users, users.Values
      ensures Valid() && channels == old(channels)
      ensures m.session.None? ==> r == Done && users == old(users) && unchanged(old(users).Values)
      ensures m.session.Some? ==>
        var id := m.session.value;
        && id in users && users == old(users)[id := users[id]]
        && (id in old(users) ==> users[id] == old(users)[id])
        && (id !in old(users) ==> fresh(users[id]))
        && users[id].Profile() == ApplyUserState(m, if id in old(users) then old(users[id].Profile()) else NewProfile)
        && (forall k | k in old(users) && k != id :: unchanged(old(users)[k]))
      ensures m.session.Some? ==>
        var id := m.session.value;
        match Assigned(m.channelId, channels)
        case None => r == Threw(KeyNotFound) && users[id].channel == (if id in old(users) then old(users[id].channel) else null)
        case Some(c) => r == Done && users[id].channel == c
    {
      if m.session.None? {
        return Done;
      }
      var user;
      r, user := UpdateUser(m.session.value, m);
    }

    /** `ProcessUserStatePacket` for a message with a session; `user` is the table's user for it afterwards. */
    method UpdateUser(id: uint, m: UserStateMsg) returns (r: Outcome, user: User)
      requires Valid()
      modifies this`users, users.Values
      ensures Valid() && users == old(users)[id := user] && user.id == id
      ensures id in old(users) ==> user == old(users)[id]
      ensures id !in old(users) ==> fresh(user)
      ensures user.Profile() == ApplyUserState(m, if id in old(users) then old(users[id].Profile()) else NewProfile)
      ensures forall k | k in old(users) && k != id :: unchanged(old(users)[k])
      ensures match Assigned(m.channelId, channels)
        case None => r == Threw(KeyNotFound) && user.channel == (if id in old(users) then old(users[id].channel) else null)
        case Some(c) => r == Done && user.channel == c
    {
      if id in users {
        user := users[id];
      } else {
        user := new User(id);
        users := users[id := user];
      }
      CopyPresentFields(user, m);
      var target := Assigned(m.channelId, channels);
      if target.None? {
        r := Threw(KeyNotFound);
        return;
      }
      user.channel := target.value;
      r := Done;
    }

    /** `ProcessUserRemovePacket`: a known user leaves the table and its channel is cleared; an unknown one changes nothing. */
    method ProcessUserRemovePacket(m: UserRemoveMsg)
      requires Valid()
      modifies this`users, users.Values`channel
      ensures Valid() && users == old(users) - {m.session}
      ensures m.session in old(users) ==> old(users)[m.session].channel == null
      ensures forall k | k in old(users) && k != m.session :: unchanged(old(users)[k])
    {
      if m.session in users {
        var user := users[m.session];
        users := users - {m.session};
        user.channel := null;
      }
    }

    /**
     * `ProcessChannelStatePacket`: the first state for an id creates the
     * channel with its name, parent and temporary flag; a later one only
     * replaces the name.
     */
    method ProcessChannelStatePacket(m: ChannelStateMsg)
      requires Valid()
      modifies this`channels, channels.Values`name
      ensures Valid() && users == old(users)
      ensures m.channelId in channels && channels.Keys == old(channels).Keys + {m.channelId}
      ensures forall k | k in old(channels) :: channels[k] == old(channels)[k]
      ensures m.channelId !in old(channels) ==>
        var c := channels[m.channelId];
        fresh(c) && c.name == m.name && c.parent == m.parent && c.temporary == m.temporary
      ensures m.channelId in old(channels) ==>
        channels[m.channelId].name == m.name && channels[m.channelId].temporary == old(channels[m.channelId].temporary)
      ensures forall k | k in old(channels) && k != m.channelId :: channels[k].name == old(channels[k].name)
    {
      if m.channelId in channels {
        channels[m.channelId].name := m.name;
      } else {
        var c := new Channel(m.channelId, m.name, m.parent);
        c.temporary := m.temporary;
        channels := channels[m.channelId := c];
      }
    }

    /** `ProcessChannelRemovePacket`: only the given id leaves the table; users keep their channel references. */
    method ProcessChannelRemovePacket(m: ChannelRemoveMsg)
      requires Valid()
      modifies this`channels
      ensures Valid() && channels == old(channels) - {m.channelId}
    {
      channels := channels - {m.channelId};
    }

    /** `ServerSyncStateServiceOnSyncReceived`: the local user is the user under the synced session; an unknown session throws. */
    method OnSyncReceived() returns (r: Outcome)
      requires Valid()
      modifies this`localUser
      ensures serverSync.session in users ==> r == Done && localUser == users[serverSync.session] && localUser.id == serverSync.session
      ensures serverSync.session !in users ==> r == Threw(KeyNotFound) && localUser == old(localUser)
    {
      if serverSync.session !in users {
        return Threw(KeyNotFound);
      }
      localUser := users[serverSync.session];
      r := Done;
    }
  }

  /** The guarded copies of `ProcessUserStatePacket`: each field present in the message overwrites the user's. */
  method CopyPresentFields(user: User, m: UserStateMsg)
    modifies user`deaf, user`muted, user`selfDeaf, user`selfMuted, user`suppress, user`name, user`comment
    ensures user.Profile() == ApplyUserState(m, old(user.Profile()))
  {
    user.selfDeaf := if m.selfDeaf.Some? then m.selfDeaf.value else user.selfDeaf;
    user.selfMuted := if m.selfMute.Some? then m.selfMute.value else user.selfMuted;
    user.muted := if m.mute.Some? then m.mute.value else user.muted;
    user.deaf := if m.deaf.Some? then m.deaf.value else user.deaf;
    user.suppress := if m.suppress.Some? then m.suppress.value else user.suppress;
    user.name := if m.name.Some? then m.name else user.name;
    user.comment := if m.comment.Some? then m.comment else user.comment;
  }
}
