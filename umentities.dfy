/**
 * The roster entities of the `UsersManagement` namespace, used by the
 * services: plain records whose identity for equality and hashing is the
 * id. Unlike the `Model` entities they keep no membership sets; a user
 * only refers to its channel.
 */
module UsersManagement {
  import opened Common
  import Packets

  class Channel {
    /** `Id` and `Parent` are get-only, fixed by the constructor. */
    const id: uint
    const parent: uint
    var temporary: bool
    var name: Option<string>

    constructor(id: uint, name: Option<string>, parent: uint)
      ensures this.id == id && this.name == name && this.parent == parent && !temporary
    {
      this.id := id;
      this.parent := parent;
      this.name := name;
      temporary := false;
    }

    /** `Equals(Channel)`: null is never equal, the same object always, otherwise the ids decide. */
    function Equals(other: Channel?): (r: bool)
      ensures r <==> other != null && other.id == id
    {
      if other == null then false else if other == this then true else id == other.id
    }

    /** `Equals(object)`: false for null and for an object of another runtime type. */
    function EqualsObject(obj: object?): (r: bool)
      ensures r <==> obj is Channel && (obj as Channel).id == id
    {
      if obj == null then false
      else if obj == this then true
      else if !(obj is Channel) then false
      else Equals(obj as Channel)
    }

    /** `GetHashCode`: `(int)Id`, the id reinterpreted as a 32-bit signed value. */
    function Hash(): (r: int)
      ensures -0x8000_0000 <= r < 0x8000_0000 && r % TWO_32 == id
    {
      UIntToInt(id)
    }
  }

  /**
   * `operator ==`: the static `object.Equals(left, right)` — the same
   * reference is equal (so null equals null), a null on one side is not,
   * and otherwise `left.Equals(right)` decides.
   */
  function Same(left: Channel?, right: Channel?): (r: bool)
    ensures left == null && right == null ==> r
    ensures (left == null) != (right == null) ==> !r
    ensures left != null && right != null ==> (r <==> left.id == right.id)
  {
    if left == right then true
    else if left == null || right == null then false
    else left.EqualsObject(right)
  }

  /** `operator !=`: the negation of `==`. */
  function Differ(left: Channel?, right: Channel?): (r: bool)
    ensures r <==> !Same(left, right)
  {
    !Same(left, right)
  }

  /** Channel `==` is an equivalence, and equal channels hash alike while different hashes mean different channels. */
  lemma {:induction false} SameIsEquivalence(a: Channel?, b: Channel?, c: Channel?)
    ensures Same(a, a)
    ensures Same(a, b) == Same(b, a)
    ensures Same(a, b) && Same(b, c) ==> Same(a, c)
    ensures a != null && b != null ==> (Same(a, b) <==> a.Hash() == b.Hash())
  {
    if a != null && b != null && a.Hash() == b.Hash() {
      assert a.id == a.Hash() % TWO_32 == b.Hash() % TWO_32 == b.id;
    }
  }

  class User {
    /** `Id` is get-only, fixed by the constructor. */
    const id: uint
    var deaf: bool
    var muted: bool
    var selfDeaf: bool
    var selfMuted: bool
    var suppress: bool
    var channel: Channel?
    var name: Option<string>
    var comment: Option<string>

    constructor(id: uint)
      ensures this.id == id && channel == null && name == None && comment == None
      ensures !deaf && !muted && !selfDeaf && !selfMuted && !suppress
    {
      this.id := id;
      deaf, muted, selfDeaf, selfMuted, suppress := false, false, false, false, false;
      channel := null;
      name, comment := None, None;
    }

    /** `Equals(User)`: null is never equal, the same object always, otherwise the ids decide. */
    function Equals(other: User?): (r: bool)
      ensures r <==> other != null && other.id == id
    {
      if other == null then false else if other == this then true else id == other.id
    }

    /** `Equals(object)`: false for null and for an object of another runtime type. */
    function EqualsObject(obj: object?): (r: bool)
      ensures r <==> obj is User && (obj as User).id == id
    {
      if obj == null then false
      else if obj == this then true
      else if !(obj is User) then false
      else Equals(obj as User)
    }

    /** `GetHashCode`: `(int)Id`. */
    function Hash(): (r: int)
      ensures -0x8000_0000 <= r < 0x8000_0000 && r % TWO_32 == id
    {
      UIntToInt(id)
    }

    /** The fields a `UserState` message may overwrite. */
    function Profile(): (p: Packets.Profile)
      reads this
    {
      Packets.Profile(deaf, muted, selfDeaf, selfMuted, suppress, name, comment)
    }
  }

  /** User equality is by id, agrees with the hash, and is symmetric; a channel is never equal to a user. */
  lemma {:induction false} UserEqualityMatchesHash(u: User, v: User, c: Channel)
    ensures u.Equals(v) <==> u.Hash() == v.Hash()
    ensures u.Equals(u) && u.Equals(v) == v.Equals(u)
    ensures !u.EqualsObject(c) && !c.EqualsObject(u)
  {
    if u.Hash() == v.Hash() {
      assert u.id == u.Hash() % TWO_32 == v.Hash() % TWO_32 == v.id;
    }
  }
}
