/**
 * `TextMessagingService`: sends text messages through the connection and
 * raises `PersonalMessageReceived` / `ChannelMessageReceived` for received
 * ones, resolving senders and channels through the `UsersManagementService`.
 */
module TextMessaging {
  import opened Common
  import opened Packets
  import opened Connection
  import opened UsersManagement
  import opened TextMessages
  import Roster

  /** The message classes carried by the two event argument types. */
  datatype PersonalMessage = PersonalMessage(sender: User, text: string)
  datatype ChannelMessage = ChannelMessage(sender: User, text: string, channel: Channel, isRecursive: bool)

  /** A raised event. */
  datatype MessageEvent =
    | PersonalMessageReceived(personal: PersonalMessage)
    | ChannelMessageReceived(message: ChannelMessage)

  /** The events of a routing, from the sender, the text and the channel table. */
  function RoutedEvents(r: Routing, sender: User, text: string, channels: map<uint, Channel>): (es: seq<MessageEvent>)
    requires r.ToTree? ==> r.root in channels
    requires r.ToChannels? ==> forall k | 0 <= k < |r.ids| :: r.ids[k] in channels
    ensures |es| == EventCount(r)
    ensures forall k | 0 <= k < |es| :: (es[k].PersonalMessageReceived? <==> r.Personal?)
  {
    match r
    case Ignored => []
    case Personal => [PersonalMessageReceived(PersonalMessage(sender, text))]
    case ToTree(root) => [ChannelMessageReceived(ChannelMessage(sender, text, channels[root], true))]
    case ToChannels(ids) => ChannelEvents(sender, text, ids, channels)
  }

  /** One non-recursive channel message per id, in order. */
  function ChannelEvents(sender: User, text: string, ids: seq<uint>, channels: map<uint, Channel>): (r: seq<MessageEvent>)
    requires forall k | 0 <= k < |ids| :: ids[k] in channels
    ensures |r| == |ids|
    ensures forall k | 0 <= k < |ids| :: r[k] == ChannelMessageReceived(ChannelMessage(sender, text, channels[ids[k]], false))
    decreases |ids|
  {
    if ids == [] then []
    else ChannelEvents(sender, text, ids[..|ids| - 1], channels)
         + [ChannelMessageReceived(ChannelMessage(sender, text, channels[ids[|ids| - 1]], false))]
  }

  /** The routing's channel ids are in the table. */
  lemma RouteTargetsKnown(m: TextMessageMsg, channels: map<uint, Channel>)
    ensures var r := Route(m, true, channels.Keys);
      && (r.ToTree? ==> r.root in channels)
      && (r.ToChannels? ==> forall k | 0 <= k < |r.ids| :: r.ids[k] in channels)
  {
    KnownMembers(m.channelIds, channels.Keys);
  }

  class TextMessagingService {
    const usersManagement: Roster.UsersManagementService
    /** `Environment.NewLine`. */
    const newline: string
    /** The calls made on `_connection`, in order. */
    var requests: seq<Request>
    /** The raised events, in order. */
    var events: seq<MessageEvent>

    /** The constructor registers its processor for `TextMessage` only. */
    constructor(connection: MumbleConnection, usersManagement: Roster.UsersManagementService, newline: string, processor: ProcessorId)
      requires connection.Valid()
      modifies connection`processors
      ensures this.usersManagement == usersManagement && this.newline == newline && requests == [] && events == []
      ensures connection.Valid()
      ensures connection.processors == old(connection.processors)[Packets.TextMessage := old(connection.processors[Packets.TextMessage]) + [processor]]
    {
      this.usersManagement := usersManagement;
      this.newline := newline;
      requests, events := [], [];
      new;
      connection.RegisterPacketProcessor(Packets.TextMessage, processor);
    }

    /**
     * `ProcessTextMessagePacket`: an unknown sender raises nothing;
     * otherwise the message is routed by its channel and tree ids against
     * the known channels.
     */
    method ProcessTextMessagePacket(m: TextMessageMsg)
      requires usersManagement.Valid()
      modifies this`events
      ensures m.actor !in usersManagement.users ==> events == old(events)
      ensures m.actor in usersManagement.users ==>
        var channels := usersManagement.channels;
        events == old(events) + RoutedEvents(Route(m, true, channels.Keys), usersManagement.users[m.actor], m.message, channels)
    {
      var found := usersManagement.TryGetUser(m.actor);
      if found.None? {
        return;
      }
      var user := found.value;
      var channels := usersManagement.channels;
      RouteTargetsKnown(m, channels);
      if |m.channelIds| == 0 {
        if |m.treeIds| == 0 {
          events := events + [PersonalMessageReceived(PersonalMessage(user, m.message))];
        } else {
          var channel := usersManagement.TryGetChannel(m.treeIds[0]);
          if channel.Some? {
            events := events + [ChannelMessageReceived(ChannelMessage(user, m.message, channel.value, true))];
          }
        }
      } else {
        var raised := RaiseChannelMessages(user, m.message, m.channelIds, channels);
        events := events + raised;
      }
    }

    /** `SendMessage(User, string[])`, addressed to the user (see `UserTextMessageAsWritten` for the code as written). */
    method SendUserMessage(user: User, lines: seq<string>) returns (r: Outcome)
      modifies this`requests
      ensures Sent(r, if usersManagement.localUser == null then None
        else Some(SendControlRequest(Packets.TextMessage,
          TextMessageMessage(UserTextMessage(usersManagement.localUser.id, user.id, JoinLines(lines, newline))))))
    {
      var local := usersManagement.localUser;
      if local == null {
        return Threw(NullReference);
      }
      requests := requests + [SendControlRequest(Packets.TextMessage,
        TextMessageMessage(UserTextMessage(local.id, user.id, JoinLines(lines, newline))))];
      r := Done;
    }

    /** `SendMessage(User, string)`: the text is split into lines, which the overload above joins again. */
    method SendUserText(user: User, text: string) returns (r: Outcome)
      modifies this`requests
      ensures Sent(r, if usersManagement.localUser == null then None
        else Some(SendControlRequest(Packets.TextMessage,
          TextMessageMessage(UserTextMessage(usersManagement.localUser.id, user.id, JoinLines(SplitLines(text), newline))))))
    {
      r := SendUserMessage(user, SplitLines(text));
    }

    /** `SendMessage(Channel, string[], recursive)`: the channel id as the only tree id when recursive, else as the only channel id. */
    method SendChannelMessage(channel: Channel, lines: seq<string>, recursive: bool) returns (r: Outcome)
      modifies this`requests
      ensures Sent(r, if usersManagement.localUser == null then None
        else Some(SendControlRequest(Packets.TextMessage,
          TextMessageMessage(ChannelTextMessage(usersManagement.localUser.id, channel.id, JoinLines(lines, newline), recursive)))))
    {
      var local := usersManagement.localUser;
      if local == null {
        return Threw(NullReference);
      }
      requests := requests + [SendControlRequest(Packets.TextMessage,
        TextMessageMessage(ChannelTextMessage(local.id, channel.id, JoinLines(lines, newline), recursive)))];
      r := Done;
    }

    /** `SendMessage(Channel, string, recursive)`. */
    method SendChannelText(channel: Channel, text: string, recursive: bool) returns (r: Outcome)
      modifies this`requests
      ensures Sent(r, if usersManagement.localUser == null then None
        else Some(SendControlRequest(Packets.TextMessage,
          TextMessageMessage(ChannelTextMessage(usersManagement.localUser.id, channel.id, JoinLines(SplitLines(text), newline), recursive)))))
    {
      r := SendChannelMessage(channel, SplitLines(text), recursive);
    }

    /** The effect of a send: `None` is the null dereference of a missing local user, before anything is sent. */
    twostate predicate Sent(r: Outcome, q: Option<Request>)
      reads this
    {
      if q.Some? then r == Done && requests == old(requests) + [q.value]
      else r == Threw(NullReference) && requests == old(requests)
    }
  }

  /** The `foreach` of `ProcessTextMessagePacket` over the channel ids: one message per known id, in order. */
  method RaiseChannelMessages(sender: User, text: string, ids: seq<uint>, channels: map<uint, Channel>) returns (raised: seq<MessageEvent>)
    ensures raised == ChannelEvents(sender, text, Known(ids, channels.Keys), channels)
  {
    raised := [];
    for i := 0 to |ids|
      invariant raised == ChannelEvents(sender, text, Known(ids[..i], channels.Keys), channels)
    {
      RaiseStep(sender, text, ids, i, channels);
      if ids[i] in channels {
        raised := raised + [ChannelMessageReceived(ChannelMessage(sender, text, channels[ids[i]], false))];
      }
    }
    assert ids[..|ids|] == ids;
  }

  /** One more id of the `foreach`: a known id adds its message at the end, an unknown one nothing. */
  lemma RaiseStep(sender: User, text: string, ids: seq<uint>, i: nat, channels: map<uint, Channel>)
    requires i < |ids|
    ensures ids[i] in channels ==>
      ChannelEvents(sender, text, Known(ids[..i + 1], channels.Keys), channels)
      == ChannelEvents(sender, text, Known(ids[..i], channels.Keys), channels)
         + [ChannelMessageReceived(ChannelMessage(sender, text, channels[ids[i]], false))]
    ensures ids[i] !in channels ==>
      ChannelEvents(sender, text, Known(ids[..i + 1], channels.Keys), channels)
      == ChannelEvents(sender, text, Known(ids[..i], channels.Keys), channels)
  {
    assert ids[..i + 1][..i] == ids[..i];
    var before := Known(ids[..i], channels.Keys);
    if ids[i] in channels {
      var after := before + [ids[i]];
      assert after[..|after| - 1] == before;
    } else {
      assert before + [] == before;
    }
  }

  /**
   * A channel message sent by this client, received by a client that
   * knows the sender and the channel, raises exactly one channel event for
   * that channel, recursive as sent, with the joined text.
   */
  lemma ChannelSendIsReceived(sender: User, channel: Channel, lines: seq<string>, newline: string,
                              recursive: bool, channels: map<uint, Channel>)
    requires channel.id in channels && channels[channel.id] == channel
    ensures var m := ChannelTextMessage(sender.id, channel.id, JoinLines(lines, newline), recursive);
      RoutedEvents(Route(m, true, channels.Keys), sender, m.message, channels)
      == [ChannelMessageReceived(ChannelMessage(sender, JoinLines(lines, newline), channel, recursive))]
  {
    var m := ChannelTextMessage(sender.id, channel.id, JoinLines(lines, newline), recursive);
    ChannelMessageRoundTrip(sender.id, channel.id, JoinLines(lines, newline), recursive, channels.Keys);
    RouteTargetsKnown(m, channels);
  }
}
