/**
 * `ServerSyncStateService`: records the one `ServerSync` a server sends
 * once it has accepted the client, and raises `SyncReceived` for it.
 * A second `ServerSync` is an error.
 */
module ServerSyncState {
  import opened Common
  import opened Packets
  import opened Connection

  class ServerSyncStateService {
    var receivedServerSync: bool
    var session: uint
    /** How many times `SyncReceived` has been raised. */
    var raised: nat

    /** `SyncReceived` is raised once, exactly when the sync has been received. */
    ghost predicate Valid()
      reads this
    {
      raised == (if receivedServerSync then 1 else 0)
    }

    /** The constructor registers `ProcessServerSyncPacket` (as `processor`) for `ServerSync` and nothing else. */
    constructor(connection: MumbleConnection, processor: ProcessorId)
      requires connection.Valid()
      modifies connection`processors
      ensures Valid() && !receivedServerSync && session == 0 && raised == 0
      ensures connection.Valid()
      ensures connection.processors == old(connection.processors)[ServerSync := old(connection.processors[ServerSync]) + [processor]]
    {
      receivedServerSync := false;
      session := 0;
      raised := 0;
      new;
      connection.RegisterPacketProcessor(ServerSync, processor);
    }

    /**
     * `ProcessServerSyncPacket`: a second sync throws before anything
     * changes; the first records the session and raises `SyncReceived`.
     */
    method ProcessServerSyncPacket(m: ServerSyncMsg) returns (r: Outcome)
      requires Valid()
      modifies this
      ensures Valid()
      ensures old(receivedServerSync) ==>
        r == Threw(InvalidOperation("Second ServerSync Received")) && unchanged(this)
      ensures !old(receivedServerSync) ==>
        r == Done && receivedServerSync && session == m.session && raised == old(raised) + 1
    {
      if receivedServerSync {
        return Threw(InvalidOperation("Second ServerSync Received"));
      }
      receivedServerSync := true;
      session := m.session;
      raised := raised + 1;
      r := Done;
    }
  }

  /** The state of the service after a run of `ServerSync` messages, or the error that ends the run. */
  function SyncRun(received: bool, session: uint, raised: nat, ms: seq<ServerSyncMsg>): (r: Result<(bool, uint, nat)>)
    decreases |ms|
  {
    if ms == [] then Ok((received, session, raised))
    else if received then Err(InvalidOperation("Second ServerSync Received"))
    else SyncRun(true, ms[0].session, raised + 1, ms[1..])
  }

  /**
   * From a fresh service, one message syncs to its session and two or more
   * always fail: the event is raised at most once over any run.
   */
  lemma {:induction false} SyncOnce(ms: seq<ServerSyncMsg>)
    ensures |ms| == 1 ==> SyncRun(false, 0, 0, ms) == Ok((true, ms[0].session, 1))
    ensures |ms| >= 2 ==> SyncRun(false, 0, 0, ms) == Err(InvalidOperation("Second ServerSync Received"))
    ensures SyncRun(false, 0, 0, ms).Ok? ==> SyncRun(false, 0, 0, ms).value.2 <= 1
  {
    if |ms| >= 1 {
      assert SyncRun(false, 0, 0, ms) == SyncRun(true, ms[0].session, 1, ms[1..]);
      if |ms| >= 2 {
        assert ms[1..] != [];
      } else {
        assert ms[1..] == [];
      }
    }
  }
}
