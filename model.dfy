/**
 * The roster entities of `BasicMumbleProtocol`: `User` and `Channel` from
 * the `Model` namespace. A channel keeps its members in a dictionary whose
 * keys compare users by id, so it is modelled as a map from user id to the
 * user object that was stored first. Setting a user's channel moves it out
 * of the old channel's dictionary and into the new one's.
 */
module Model {
  import opened Common
  import opened Packets

  class Channel {
    var temporary: bool
    var name: Option<string>
    /** `Id` and `Parent` have private setters that only the constructor uses. */
    const id: uint
    const parent: uint
    /** `_users`: a concurrent dictionary used as a set, keyed by `User` equality (user id). */
    var users: map<uint, User>

    constructor(id: uint, name: Option<string>, parent: uint)
      ensures this.id == id && this.name == name && this.parent == parent
      ensures users == map[] && !temporary
    {
      this.id := id;
      this.name := name;
      this.parent := parent;
      temporary := false;
      users := map[];
    }

    /** `Users`: the members. */
    function Users(): (r: set<User>)
      reads this
      ensures forall k | k in users :: users[k] in r
      ensures forall u | u in r :: exists k | k in users :: users[k] == u
    {
      users.Values
    }

    /** `Equals(Channel)`: null is never equal, the same object is, otherwise ids decide. */
    function Equals(other: Channel?): (r: bool)
      ensures r <==> other != null && other.id == id
    {
      if other == null then false else if other == this then true else id == other.id
    }

    /** `Equals(object)`: false for null and for an object of another runtime type. */
    function EqualsObject(obj: object?): (r: bool)
      ensures r <==> obj is Channel && (obj as Channel).id == id
    {
      if obj == null then false
      else if obj == this then true
      else if !(obj is Channel) then false
      else Equals(obj as Channel)
    }

    /** `GetHashCode`: `(int)Id`. */
    function Hash(): (r: int)
      ensures -0x8000_0000 <= r < 0x8000_0000 && r % TWO_32 == id
    {
      UIntToInt(id)
    }

    /** `AddUser`: a `GetOrAdd`, so a member with the same id is kept. */
    method AddUser(user: User)
      modifies this`users
      ensures users == WithMember(old(users), user)
      ensures name == old(name) && temporary == old(temporary)
    {
      if user.id !in users {
        users := users[user.id := user];
      }
    }

    /** `RemoveUser`: a `TryRemove` of the member with the user's id. */
    method RemoveUser(user: User)
      modifies this`users
      ensures users == old(users) - {user.id}
      ensures name == old(name) && temporary == old(temporary)
    {
      users := users - {user.id};
    }
  }

  /** The member dictionary after `GetOrAdd(user)`. */
  function WithMember(users: map<uint, User>, user: User): (r: map<uint, User>)
    ensures user.id in r && r.Keys == users.Keys + {user.id}
    ensures user.id in users ==> r == users
    ensures forall k | k in users :: r[k] == users[k]
  {
    if user.id in users then users else users[user.id := user]
  }

  /** Adding a member twice gives the same dictionary as adding it once. */
  lemma AddUserIdempotent(users: map<uint, User>, user: User)
    ensures WithMember(WithMember(users, user), user) == WithMember(users, user)
  {
  }

  /** Removing a user that is not a member changes nothing; removing one leaves it out. */
  lemma RemoveUserEffect(users: map<uint, User>, user: User)
    ensures user.id !in users ==> users - {user.id} == users
    ensures user.id !in (users - {user.id})
    ensures forall k | k in users && k != user.id :: k in users - {user.id} && (users - {user.id})[k] == users[k]
  {
  }

  class User {
    const id: uint
    var deaf: bool
    var muted: bool
    var selfDeaf: bool
    var selfMuted: bool
    var suppress: bool
    var channel: Channel?
    var name: Option<string>
    var comment: Option<string>

    constructor(id: uint)
      ensures this.id == id && channel == null && name == None && comment == None
      ensures !deaf && !muted && !selfDeaf && !selfMuted && !suppress
    {
      this.id := id;
      deaf, muted, selfDeaf, selfMuted, suppress := false, false, false, false, false;
      channel := null;
      name, comment := None, None;
    }

    /**
     * The `Channel` setter: leave the old channel, then join the new one.
     * Moving to the same channel replaces the member entry with this user.
     * Over any users `us` and channels `cs` whose membership is consistent,
     * where no other user with this id is in a channel, it stays consistent.
     */
    method SetChannel(value: Channel?, ghost us: set<User>, ghost cs: set<Channel>)
      requires Membership(us, cs) && this in us && (value != null ==> value in cs)
      requires forall w | w in us && w.id == id && w.channel != null :: w == this
      modifies this`channel, {channel, value}`users
      ensures Membership(us, cs)
      ensures channel == value
      ensures old(channel) != null ==> old(channel).name == old(channel.name) && old(channel).temporary == old(channel.temporary)
      ensures value != null ==> value.name == old(value.name) && value.temporary == old(value.temporary)
      ensures old(channel) != null && old(channel) != value ==> old(channel).users == old(channel.users) - {id}
      ensures value != null && old(channel) == value ==> value.users == old(value.users)[id := this]
      ensures value != null && old(channel) != value ==> value.users == WithMember(old(value.users), this)
      ensures name == old(name) && comment == old(comment)
      ensures deaf == old(deaf) && muted == old(muted) && selfDeaf == old(selfDeaf)
      ensures selfMuted == old(selfMuted) && suppress == old(suppress)
    {
      ghost var previous := channel;
      Leave(us, cs);
      Join(value, us, cs);
      if previous != null && previous == value {
        assert value.users == (old(value.users) - {id})[id := this];
      }
    }

    /** The first half of the setter: leave the current channel. */
    method Leave(ghost us: set<User>, ghost cs: set<Channel>)
      requires Membership(us, cs) && this in us
      modifies this`channel, {channel}`users
      ensures Membership(us, cs) && channel == null
      ensures old(channel) != null ==> old(channel).name == old(channel.name) && old(channel).temporary == old(channel.temporary)
      ensures old(channel) != null ==> old(channel).users == old(channel.users) - {id}
      ensures name == old(name) && comment == old(comment)
      ensures deaf == old(deaf) && muted == old(muted) && selfDeaf == old(selfDeaf)
      ensures selfMuted == old(selfMuted) && suppress == old(suppress)
    {
      if channel != null {
        channel.RemoveUser(this);
      }
      channel := null;
    }

    /** The second half of the setter: join the new channel, if any. */
    method Join(value: Channel?, ghost us: set<User>, ghost cs: set<Channel>)
      requires Membership(us, cs) && this in us && channel == null && (value != null ==> value in cs)
      requires forall w | w in us && w.id == id && w.channel != null :: w == this
      modifies this`channel, {value}`users
      ensures Membership(us, cs) && channel == value
      ensures value != null ==> value.name == old(value.name) && value.temporary == old(value.temporary)
      ensures value != null ==> value.users == WithMember(old(value.users), this)
      ensures name == old(name) && comment == old(comment)
      ensures deaf == old(deaf) && muted == old(muted) && selfDeaf == old(selfDeaf)
      ensures selfMuted == old(selfMuted) && suppress == old(suppress)
    {
      channel := value;
      if value != null {
        value.AddUser(this);
      }
    }

    /** The fields a `UserState` message may overwrite. */
    function Profile(): Profile
      reads this`deaf, this`muted, this`selfDeaf, this`selfMuted, this`suppress, this`name, this`comment
    {
      Packets.Profile(deaf, muted, selfDeaf, selfMuted, suppress, name, comment)
    }

    /** `Equals(User)`: compares ids, and dereferences its argument. */
    function Equals(other: User?): (r: Result<bool>)
      ensures other == null <==> r == Err(NullReference)
      ensures other != null ==> r == Ok(other.id == id)
    {
      if other == null then Err(NullReference) else Ok(other.id == id)
    }

    /** `Equals(object)`: another user is compared by id; anything else only by reference, so never equal. */
    function EqualsObject(obj: object?): (r: bool)
      ensures r <==> obj is User && (obj as User).id == id
    {
      if obj is User then Equals(obj as User) == Ok(true) else obj == this
    }

    /** `GetHashCode`: the hash of the `uint` id, which is the id reinterpreted as `int`. */
    function Hash(): (r: int)
      ensures -0x8000_0000 <= r < 0x8000_0000 && r % TWO_32 == id
    {
      UIntToInt(id)
    }
  }

  /** Users with equal ids are equal and hash alike; equal hashes mean equal ids. */
  lemma {:induction false} UserEqualityMatchesHash(u: User, v: User)
    ensures u.Equals(v) == Ok(true) <==> u.Hash() == v.Hash()
    ensures u.Equals(u) == Ok(true)
    ensures u.Equals(v) == v.Equals(u)
  {
    if u.Hash() == v.Hash() {
      assert u.id == u.Hash() % TWO_32 == v.Hash() % TWO_32 == v.id;
    }
  }

  /** The same for channels. */
  lemma {:induction false} ChannelEqualityMatchesHash(c: Channel, d: Channel)
    ensures c.Equals(d) <==> c.Hash() == d.Hash()
    ensures c.Equals(c) && (c.Equals(d) == d.Equals(c))
  {
    if c.Hash() == d.Hash() {
      assert c.id == c.Hash() % TWO_32 == d.Hash() % TWO_32 == d.id;
    }
  }

  /**
   * Membership is consistent: a user with a channel is that channel's member
   * under its id; each member of a channel refers back to it; and no two
   * users with a channel share an id. So a user belongs to at most one
   * channel, the one it refers to.
   */
  ghost predicate Membership(us: set<User>, cs: set<Channel>)
    reads us`channel, cs`users
  {
    && (forall u | u in us && u.channel != null ::
          u.channel in cs && u.id in u.channel.users && u.channel.users[u.id] == u)
    && (forall c, k | c in cs && k in c.users ::
          c.users[k] in us && c.users[k].id == k && c.users[k].channel == c)
    && (forall u, v | u in us && v in us && u.channel != null && v.channel != null && u.id == v.id :: u == v)
  }

  /** A channel with no members can join a consistent membership. */
  lemma MembershipAddChannel(us: set<User>, cs: set<Channel>, c: Channel)
    requires Membership(us, cs) && c.users == map[]
    ensures Membership(us, cs + {c})
  {
  }

  /** A user in no channel can join a consistent membership. */
  lemma MembershipAddUser(us: set<User>, cs: set<Channel>, u: User)
    requires Membership(us, cs) && u.channel == null
    ensures Membership(us + {u}, cs)
  {
  }

  /** Under consistent membership a user is a member of exactly the channel it refers to. */
  lemma MemberOfOneChannel(us: set<User>, cs: set<Channel>, u: User, c: Channel)
    requires Membership(us, cs) && u in us && c in cs
    ensures (u.id in c.users && c.users[u.id] == u) <==> u.channel == c
  {
  }
}
