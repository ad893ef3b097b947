/**
 * Text messages as both the protocol class and the messaging service treat
 * them: splitting a string into lines and joining lines back, building the
 * `TextMessage` a send puts on the wire, and routing a received one to a
 * personal message, a tree message or per-channel messages.
 */
module TextMessages {
  import opened Common
  import opened Packets

  /**
   * `Split(new[] {"\r\n", "\n"}, StringSplitOptions.None)`: scanning from
   * the left, "\r\n" or else "\n" ends a line; a lone '\r' stays in its line.
   */
  function SplitLines(s: string): (r: seq<string>)
    ensures |r| >= 1
    decreases |s|
  {
    if |s| == 0 then [""]
    else if s[0] == '\n' then [""] + SplitLines(s[1..])
    else if |s| >= 2 && s[0] == '\r' && s[1] == '\n' then [""] + SplitLines(s[2..])
    else
      var rest := SplitLines(s[1..]);
      [[s[0]] + rest[0]] + rest[1..]
  }

  /** `string.Join(separator, lines)`. */
  function JoinLines(lines: seq<string>, separator: string): string
    decreases |lines|
  {
    if |lines| == 0 then ""
    else if |lines| == 1 then lines[0]
    else lines[0] + separator + JoinLines(lines[1..], separator)
  }

  /** The string with every "\r\n" read as a single "\n", scanning from the left. */
  function Normalize(s: string): string
    decreases |s|
  {
    if |s| == 0 then ""
    else if |s| >= 2 && s[0] == '\r' && s[1] == '\n' then "\n" + Normalize(s[2..])
    else [s[0]] + Normalize(s[1..])
  }

  /** No line of a split holds a line feed. */
  lemma {:induction false} SplitLinesHaveNoFeed(s: string)
    ensures forall k | 0 <= k < |SplitLines(s)| :: '\n' !in SplitLines(s)[k]
    decreases |s|
  {
    if |s| == 0 {
    } else if s[0] == '\n' {
      SplitLinesHaveNoFeed(s[1..]);
    } else if |s| >= 2 && s[0] == '\r' && s[1] == '\n' {
      SplitLinesHaveNoFeed(s[2..]);
    } else {
      SplitLinesHaveNoFeed(s[1..]);
      var rest := SplitLines(s[1..]);
      var r := SplitLines(s);
      assert r == [[s[0]] + rest[0]] + rest[1..];
      forall k | 0 <= k < |r|
        ensures '\n' !in r[k]
      {
        if k > 0 {
          assert r[k] == rest[k];
        }
      }
    }
  }

  /**
   * Splitting a string and joining the lines with "\n" gives the string back,
   * with each "\r\n" turned into "\n" (what the string overloads send when
   * the newline is "\n").
   */
  lemma {:induction false} JoinSplit(s: string)
    ensures JoinLines(SplitLines(s), "\n") == Normalize(s)
    decreases |s|
  {
    if |s| == 0 {
    } else if s[0] == '\n' {
      JoinSplit(s[1..]);
      assert SplitLines(s) == [""] + SplitLines(s[1..]);
      JoinAfterEmpty(SplitLines(s[1..]), "\n");
    } else if |s| >= 2 && s[0] == '\r' && s[1] == '\n' {
      JoinSplit(s[2..]);
      JoinAfterEmpty(SplitLines(s[2..]), "\n");
    } else {
      JoinSplit(s[1..]);
      JoinPrepend(s[0], SplitLines(s[1..]), "\n");
    }
  }

  /** Joining an empty first line in front of others puts the separator first. */
  lemma JoinAfterEmpty(lines: seq<string>, separator: string)
    requires |lines| >= 1
    ensures JoinLines([""] + lines, separator) == separator + JoinLines(lines, separator)
  {
    assert ([""] + lines)[1..] == lines;
  }

  /** A character put in front of the first line comes first in the join. */
  lemma JoinPrepend(c: char, lines: seq<string>, separator: string)
    requires |lines| >= 1
    ensures JoinLines([[c] + lines[0]] + lines[1..], separator) == [c] + JoinLines(lines, separator)
  {
    var ls := [[c] + lines[0]] + lines[1..];
    if |lines| > 1 {
      assert ls[1..] == lines[1..];
    }
  }

  /** The lines a join of `lines` with "\n" splits back into: none holds "\n", and none but the last ends with '\r'. */
  predicate Splittable(lines: seq<string>)
  {
    && |lines| >= 1
    && (forall k | 0 <= k < |lines| :: '\n' !in lines[k])
    && (forall k | 0 <= k < |lines| - 1 :: |lines[k]| == 0 || lines[k][|lines[k]| - 1] != '\r')
  }

  /** Joining such lines with "\n" and splitting again gives the same lines. */
  lemma {:induction false} SplitJoin(lines: seq<string>)
    requires Splittable(lines)
    ensures SplitLines(JoinLines(lines, "\n")) == lines
    decreases |lines|
  {
    if |lines| == 1 {
      SplitSingle(lines[0]);
    } else {
      var rest := lines[1..];
      assert Splittable(rest) by {
        forall k | 0 <= k < |rest| - 1
          ensures |rest[k]| == 0 || rest[k][|rest[k]| - 1] != '\r'
        {
          assert rest[k] == lines[k + 1];
        }
      }
      SplitJoin(rest);
      SplitBeforeFeed(lines[0], JoinLines(rest, "\n"));
      assert JoinLines(lines, "\n") == lines[0] + "\n" + JoinLines(rest, "\n");
    }
  }

  /** A line without "\n" splits into itself. */
  lemma {:induction false} SplitSingle(w: string)
    requires '\n' !in w
    ensures SplitLines(w) == [w]
    decreases |w|
  {
    if |w| > 0 {
      assert w[0] != '\n';
      assert '\n' !in w[1..];
      SplitSingle(w[1..]);
      assert [w[0]] + w[1..] == w;
    }
  }

  /** A line without "\n" that does not end with '\r', followed by "\n", ends exactly there. */
  lemma {:induction false} SplitBeforeFeed(w: string, t: string)
    requires '\n' !in w && (|w| == 0 || w[|w| - 1] != '\r')
    ensures SplitLines(w + "\n" + t) == [w] + SplitLines(t)
    decreases |w|
  {
    var s := w + "\n" + t;
    if |w| == 0 {
      assert s == "\n" + t;
      assert s[1..] == t;
    } else {
      var v := w[1..];
      assert w[0] != '\n';
      assert '\n' !in v;
      assert s[1..] == v + "\n" + t;
      assert !(s[0] == '\r' && s[1] == '\n') by {
        if |v| == 0 {
          assert w[|w| - 1] == w[0];
        } else {
          assert s[1] == v[0];
        }
      }
      assert |v| > 0 ==> v[|v| - 1] == w[|w| - 1];
      SplitBeforeFeed(v, t);
      assert [w[0]] + v == w;
    }
  }

  // ---- Outgoing messages ----

  /** `SendMessage(Channel, string[], recursive)`: the channel id goes in the tree ids when recursive, else in the channel ids. */
  function ChannelTextMessage(actor: uint, channel: uint, text: string, recursive: bool): TextMessageMsg
  {
    if recursive then TextMessageMsg(actor, [], [], [channel], text)
    else TextMessageMsg(actor, [], [channel], [], text)
  }

  /** `SendMessage(IEnumerable<Channel>, string[], recursive)` for one group of channels: all their ids in one list. */
  function ChannelsTextMessage(actor: uint, channels: seq<uint>, text: string, recursive: bool): TextMessageMsg
  {
    if recursive then TextMessageMsg(actor, [], [], channels, text)
    else TextMessageMsg(actor, [], channels, [], text)
  }

  /** `SendMessage(User, string[])` as written: only the actor and the text are set; the user is not used. */
  function UserTextMessageAsWritten(actor: uint, user: uint, text: string): TextMessageMsg
  {
    TextMessageMsg(actor, [], [], [], text)
  }

  /** `SendMessage(User, string[])` as evidently intended: addressed to the user's session. */
  function UserTextMessage(actor: uint, user: uint, text: string): TextMessageMsg
  {
    TextMessageMsg(actor, [user], [], [], text)
  }

  /** The sessions, channels and trees a text message is addressed to. */
  function Addressees(m: TextMessageMsg): (r: set<uint>)
    ensures forall x :: x in r <==> x in m.sessions || x in m.channelIds || x in m.treeIds
  {
    (set x | x in m.sessions) + (set x | x in m.channelIds) + (set x | x in m.treeIds)
  }

  /**
   * The user overload as written addresses nobody, whatever the user, so
   * the user never receives the message; the corrected one addresses
   * exactly the user's session.
   */
  lemma UserMessageAddressees(actor: uint, user: uint, text: string)
    ensures Addressees(UserTextMessageAsWritten(actor, user, text)) == {}
    ensures user !in UserTextMessageAsWritten(actor, user, text).sessions
    ensures Addressees(UserTextMessage(actor, user, text)) == {user}
    ensures UserTextMessage(actor, user, text).sessions == [user]
  {
    assert Addressees(UserTextMessage(actor, user, text)) == {user} by {
      var m := UserTextMessage(actor, user, text);
      forall x ensures x in Addressees(m) <==> x == user {
        assert x in m.sessions <==> x == user;
      }
    }
  }

  // ---- Incoming messages ----

  /** Where a received text message goes. */
  datatype Routing =
    | Ignored
    | Personal
    | ToTree(root: uint)
    | ToChannels(ids: seq<uint>)

  /** The ids of `ids` that are known, in list order: the `foreach` that skips unknown channels. */
  function Known(ids: seq<uint>, known: set<uint>): (r: seq<uint>)
    ensures |r| <= |ids|
    ensures forall k | 0 <= k < |r| :: r[k] in known
    decreases |ids|
  {
    if ids == [] then []
    else
      var last := ids[|ids| - 1];
      Known(ids[..|ids| - 1], known) + (if last in known then [last] else [])
  }

  /** An id is kept exactly when it is listed and known; and a list of known ids is kept whole. */
  lemma {:induction false} KnownMembers(ids: seq<uint>, known: set<uint>)
    ensures forall x :: x in Known(ids, known) <==> x in ids && x in known
    ensures (forall k | 0 <= k < |ids| :: ids[k] in known) ==> Known(ids, known) == ids
    ensures (forall k | 0 <= k < |ids| :: ids[k] !in known) ==> Known(ids, known) == []
    decreases |ids|
  {
    if ids != [] {
      var init := ids[..|ids| - 1];
      KnownMembers(init, known);
      assert ids == init + [ids[|ids| - 1]];
      if forall k | 0 <= k < |ids| :: ids[k] in known {
        assert forall k | 0 <= k < |init| :: init[k] == ids[k];
      }
      if forall k | 0 <= k < |ids| :: ids[k] !in known {
        assert forall k | 0 <= k < |init| :: init[k] == ids[k];
      }
    }
  }

  /**
   * `TextMessage` / `ProcessTextMessagePacket`: an unknown actor is ignored;
   * no channel ids and no tree ids make a personal message; no channel ids
   * but tree ids go to the first tree id, if that channel is known; channel
   * ids go to each known one.
   */
  function Route(m: TextMessageMsg, actorKnown: bool, known: set<uint>): Routing
  {
    if !actorKnown then Ignored
    else if |m.channelIds| == 0 then
      if |m.treeIds| == 0 then Personal
      else if m.treeIds[0] in known then ToTree(m.treeIds[0])
      else Ignored
    else ToChannels(Known(m.channelIds, known))
  }

  /** How many message events a routing raises. */
  function EventCount(r: Routing): nat
  {
    match r
    case Ignored => 0
    case Personal => 1
    case ToTree(_) => 1
    case ToChannels(ids) => |ids|
  }

  /**
   * The routing rules: an unknown actor raises nothing; with no ids at all
   * exactly one personal message; with tree ids only, at most one message,
   * for the first tree id and only if it is known; with channel ids, one
   * message per known listed id, the tree ids ignored.
   */
  lemma RouteRules(m: TextMessageMsg, actorKnown: bool, known: set<uint>, trees: seq<uint>)
    ensures !actorKnown ==> EventCount(Route(m, actorKnown, known)) == 0
    ensures actorKnown && m.channelIds == [] && m.treeIds == [] ==> Route(m, actorKnown, known) == Personal
    ensures actorKnown && m.channelIds == [] && m.treeIds != [] ==>
      EventCount(Route(m, actorKnown, known)) <= 1
      && (Route(m, actorKnown, known).ToTree? <==> m.treeIds[0] in known)
      && (Route(m, actorKnown, known).ToTree? ==> Route(m, actorKnown, known).root == m.treeIds[0])
    ensures actorKnown && m.channelIds != [] ==>
      && Route(m, actorKnown, known).ToChannels?
      && (forall x :: x in Route(m, actorKnown, known).ids <==> x in m.channelIds && x in known)
      && Route(m.(treeIds := trees), actorKnown, known) == Route(m, actorKnown, known)
  {
    KnownMembers(m.channelIds, known);
  }

  /**
   * What a channel send is routed to by a client that knows the sender and
   * the channel: a recursive send reaches the tree rooted at the channel,
   * another one exactly that channel.
   */
  lemma ChannelMessageRoundTrip(actor: uint, channel: uint, text: string, recursive: bool, known: set<uint>)
    requires channel in known
    ensures recursive ==> Route(ChannelTextMessage(actor, channel, text, recursive), true, known) == ToTree(channel)
    ensures !recursive ==> Route(ChannelTextMessage(actor, channel, text, recursive), true, known) == ToChannels([channel])
    ensures ChannelTextMessage(actor, channel, text, recursive).message == text
  {
    assert Known([channel], known) == Known([], known) + [channel];
  }
}
