/**
 * The `VoiceService` of `MumbleSharp.Voice`: one `UserAudioPlayer` per
 * user in the roster, inbound voice packets delivered to the player of
 * their session, and outbound PCM passed to the `BufferedEncoder` while
 * the service is sending to the server.
 */
module Voice {
  import opened Common
  import opened Packets
  import opened Connection
  import opened Players
  import opened VoiceHeader
  import Encoding

  class VoiceService {
    /** `_players`, by user id. */
    var players: map<uint, UserAudioPlayer>
    var isSendingToServer: bool
    /** How many times `UsersStateChanged` has been raised. */
    var usersStateChanged: nat
    const encoder: Encoding.BufferedEncoder
    /** The decoder each new player is given. */
    const decode: seq<byte> -> seq<byte>

    /** Every player is filed under its own user id, and the encoder keeps its bytes. */
    ghost predicate Valid()
      reads this`players, players.Values, encoder
    {
      && (forall k | k in players :: players[k].userId == k && players[k].decode == decode)
      && encoder.Valid()
    }

    /** Every player in the map is live: not disposed and watched for state changes. */
    ghost predicate Attached()
      reads this`players, players.Values
    {
      forall k | k in players :: !players[k].disposed && players[k].observed
    }

    /**
     * The constructor registers `ProcessCodecVersionPacket` for
     * `CodecVersion` and the voice processor, whose registration keeps
     * nothing, and creates the encoder.
     */
    constructor(connection: MumbleConnection, decode: seq<byte> -> seq<byte>,
                largestFrameSize: nat, encode: seq<byte> -> seq<byte>,
                codecVersion: ProcessorId, voice: ProcessorId)
      requires connection.Valid() && largestFrameSize > 0
      modifies connection`processors
      ensures Valid() && Attached() && fresh(encoder)
      ensures players == map[] && !isSendingToServer && usersStateChanged == 0 && this.decode == decode
      ensures encoder.blockSize == largestFrameSize * 2 && encoder.incoming == [] && encoder.added == []
      ensures connection.Valid()
      ensures connection.processors == old(connection.processors)[Packets.CodecVersion := old(connection.processors[Packets.CodecVersion]) + [codecVersion]]
    {
      encoder := new Encoding.BufferedEncoder(largestFrameSize, encode);
      this.decode := decode;
      players := map[];
      isSendingToServer := false;
      usersStateChanged := 0;
      new;
      connection.RegisterPacketProcessor(Packets.CodecVersion, codecVersion);
      connection.RegisterVoicePacketProcessor(voice);
    }

    /** `StartSendingVoice`: sending, whether or not it was before. */
    method StartSendingVoice()
      modifies this`isSendingToServer
      ensures isSendingToServer
    {
      if !isSendingToServer {
        isSendingToServer := true;
      }
    }

    /** `StopSendingVoice`: not sending, whether or not it was before. */
    method StopSendingVoice()
      modifies this`isSendingToServer
      ensures !isSendingToServer
    {
      if isSendingToServer {
        isSendingToServer := false;
      }
    }

    /** `GetUsersState`: a snapshot with one state per player. */
    function UsersState(): (r: map<uint, UserVoiceState>)
      reads this`players, players.Values
      ensures r.Keys == players.Keys
      ensures forall k | k in r :: r[k] == players[k].state
    {
      map k | k in players :: players[k].state
    }

    /** `AddVoiceFramesToSendBuffer`: the PCM reaches the encoder only while sending. */
    method AddVoiceFramesToSendBuffer(pcm: seq<byte>)
      requires Valid()
      modifies encoder`incoming, encoder`added
      ensures Valid()
      ensures isSendingToServer ==> encoder.incoming == old(encoder.incoming) + [pcm] && encoder.added == old(encoder.added) + pcm
      ensures !isSendingToServer ==> encoder.incoming == old(encoder.incoming) && encoder.added == old(encoder.added)
    {
      if isSendingToServer {
        encoder.AddPcm(pcm);
      }
    }

    /** `UsersManagementServiceOnUserLeft`: a present player leaves the map, is unwatched and disposed. */
    method UserLeft(id: uint)
      requires Valid()
      modifies this`players, players.Values`observed, players.Values`disposed, players.Values`timerEnabled
      ensures Valid() && players == old(players) - {id}
      ensures id in old(players) ==> !old(players)[id].observed && old(players)[id].disposed
      ensures forall k | k in players :: unchanged(players[k])
      ensures old(Attached()) ==> Attached()
    {
      if id in players {
        var player := players[id];
        players := players - {id};
        player.observed := false;
        player.Dispose();
      }
    }

    /**
     * `UsersManagementServiceOnUserJoined` as written: a new player is
     * created and watched, and once `TryAdd` has put it in the map it is
     * unwatched and disposed, so the map then holds a dead player.
     */
    method UserJoinedAsWritten(id: uint) returns (player: UserAudioPlayer?)
      requires Valid()
      modifies this`players
      ensures Valid()
      ensures id in old(players) ==> players == old(players) && player == null
      ensures id !in old(players) ==>
        && player != null && fresh(player) && players == old(players)[id := player]
        && player.disposed && !player.observed && !Attached()
    {
      if id in players {
        return null;
      }
      player := new UserAudioPlayer(id, decode);
      player.observed := true;
      players := players[id := player];
      player.observed := false;
      player.Dispose();
      assert id in players && players[id].disposed;
    }

    /** `UsersManagementServiceOnUserJoined` as evidently intended: the new player stays in the map, watched. */
    method UserJoined(id: uint) returns (player: UserAudioPlayer?)
      requires Valid()
      modifies this`players
      ensures Valid()
      ensures id in old(players) ==> players == old(players) && player == null
      ensures id !in old(players) ==>
        && player != null && fresh(player) && players == old(players)[id := player]
        && player.observed && !player.disposed && player.Snapshot() == Fresh
      ensures old(Attached()) ==> Attached()
    {
      if id in players {
        return null;
      }
      player := new UserAudioPlayer(id, decode);
      player.observed := true;
      players := players[id := player];
    }

    /** `ProcessCodecVersionPacket`: only Opus is supported. */
    method ProcessCodecVersionPacket(m: CodecVersionMsg) returns (r: Outcome)
      ensures m.opus <==> r == Done
      ensures !m.opus ==> r == Threw(NotImplemented)
    {
      if !m.opus {
        return Threw(NotImplemented);
      }
      r := Done;
    }

    /**
     * `ProcessIncomingVoicePackage`: the header is read after the first
     * byte (an empty packet cannot be read from offset 1); a packet with a
     * header goes to the player of its session, if there is one, and a
     * state change of a watched player raises `UsersStateChanged`. The
     * player handles the frame as the code is written (`AcceptAsWritten`).
     */
    method ProcessIncomingVoicePackage(packet: seq<byte>, packetType: int) returns (r: Outcome)
      requires Valid()
      modifies this`usersStateChanged, players.Values`lastDecodedSequence, players.Values`state,
        players.Values`timerEnabled, players.Values`changes, players.Values`samples
      ensures Valid()
      ensures |packet| == 0 ==> r == Threw(ArgumentOutOfRange("count"))
      ensures |packet| > 0 ==> match ParseBody(packet[1..])
        case Err(e) => r == Threw(e)
        case Ok(_) => r == Done
      ensures forall k | k in players && !(|packet| > 0 && Delivered(ParseBody(packet[1..]), k)) :: unchanged(players[k])
      ensures !(|packet| > 0 && Delivered(ParseBody(packet[1..]), -1)) ==> usersStateChanged == old(usersStateChanged)
      ensures |packet| > 0 && ParseBody(packet[1..]).Ok? && ParseBody(packet[1..]).value.Some? ==>
        var h := ParseBody(packet[1..]).value.value;
        h.session in players ==>
          var p := players[h.session];
          && p.Snapshot() == AcceptAsWritten(old(p.Snapshot()), h.sequence)
          && (old(p.lastDecodedSequence) > h.sequence ==> p.samples == old(p.samples) && p.changes == old(p.changes))
          && (old(p.lastDecodedSequence) <= h.sequence ==>
                p.samples == old(p.samples) + decode(h.data) && p.changes == old(p.changes) + Changes(old(p.state), Tx))
          && usersStateChanged == old(usersStateChanged) + (if p.observed then |p.changes| - |old(p.changes)| else 0)
    {
      if |packet| == 0 {
        return Threw(ArgumentOutOfRange("count"));
      }
      var header := ReadHeader(packet[1..]);
      if header.Err? {
        return Threw(header.error);
      }
      r := Done;
      if header.value.Some? && header.value.value.session in players {
        var h := header.value.value;
        var player := players[h.session];
        var before := |player.changes|;
        player.ProcessEncodedVoiceAsWritten(h.data, h.sequence);
        if player.observed && |player.changes| > before {
          OnPlayerStateChanged();
        }
      }
    }

    /**
     * `ProcessIncomingVoicePackage` over the corrected player, which
     * restarts its transmission timer after every accepted frame
     * (`Accept`), so a talking user returns to `Idle` once frames stop.
     */
    method ProcessIncomingVoicePackageCorrected(packet: seq<byte>, packetType: int) returns (r: Outcome)
      requires Valid()
      modifies this`usersStateChanged, players.Values`lastDecodedSequence, players.Values`state,
        players.Values`timerEnabled, players.Values`changes, players.Values`samples
      ensures Valid()
      ensures |packet| == 0 ==> r == Threw(ArgumentOutOfRange("count"))
      ensures |packet| > 0 ==> match ParseBody(packet[1..])
        case Err(e) => r == Threw(e)
        case Ok(_) => r == Done
      ensures forall k | k in players && !(|packet| > 0 && Delivered(ParseBody(packet[1..]), k)) :: unchanged(players[k])
      ensures !(|packet| > 0 && Delivered(ParseBody(packet[1..]), -1)) ==> usersStateChanged == old(usersStateChanged)
      ensures |packet| > 0 && ParseBody(packet[1..]).Ok? && ParseBody(packet[1..]).value.Some? ==>
        var h := ParseBody(packet[1..]).value.value;
        h.session in players ==>
          var p := players[h.session];
          && p.Snapshot() == Accept(old(p.Snapshot()), h.sequence)
          && (old(p.lastDecodedSequence) > h.sequence ==> p.samples == old(p.samples) && p.changes == old(p.changes))
          && (old(p.lastDecodedSequence) <= h.sequence ==>
                p.samples == old(p.samples) + decode(h.data) && p.changes == old(p.changes) + Changes(old(p.state), Tx))
          && usersStateChanged == old(usersStateChanged) + (if p.observed then |p.changes| - |old(p.changes)| else 0)
    {
      if |packet| == 0 {
        return Threw(ArgumentOutOfRange("count"));
      }
      var header := ReadHeader(packet[1..]);
      if header.Err? {
        return Threw(header.error);
      }
      r := Done;
      if header.value.Some? && header.value.value.session in players {
        var h := header.value.value;
        var player := players[h.session];
        var before := |player.changes|;
        player.ProcessEncodedVoice(h.data, h.sequence);
        if player.observed && |player.changes| > before {
          OnPlayerStateChanged();
        }
      }
    }

    /** A packet with this header reaches the player under `session` (`session` -1: any player). */
    predicate Delivered(header: Result<Option<Header>>, session: int)
      reads this`players
    {
      header.Ok? && header.value.Some? && header.value.value.session in players
      && (session == -1 || session == header.value.value.session)
    }

    /** The elapsed transmission timer of a player: it turns `Idle`, which a watched player reports. */
    method PlayerTimerElapsed(id: uint)
      requires Valid() && id in players && players[id].timerEnabled
      modifies this`usersStateChanged, players.Values`lastDecodedSequence, players.Values`state,
        players.Values`timerEnabled, players.Values`changes
      ensures forall k | k in players && k != id :: unchanged(players[k])
      ensures Valid() && players[id].state == Idle
      ensures players[id].changes == old(players[id].changes) + Changes(old(players[id].state), Idle)
      ensures usersStateChanged == old(usersStateChanged) + (if players[id].observed && old(players[id].state) != Idle then 1 else 0)
    {
      var player := players[id];
      var before := |player.changes|;
      player.Elapsed();
      if player.observed && |player.changes| > before {
        OnPlayerStateChanged();
      }
    }

    /** `PlayerOnStateChanged`: raises `UsersStateChanged`. */
    method OnPlayerStateChanged()
      modifies this`usersStateChanged
      ensures usersStateChanged == old(usersStateChanged) + 1
    {
      usersStateChanged := usersStateChanged + 1;
    }
  }
}
