/**
 * `RadioStation`: the gateway's radio, idle, receiving (`Rx`) or
 * transmitting (`Tx`), raising `StateChanged` on every real change.
 */
module Radio {
  /** `RadioState`; the first member is the default value of a fresh field. */
  datatype RadioState = Idle | Rx | Tx

  /** The arguments of one `StateChanged`. */
  datatype RadioStateChanged = RadioStateChanged(oldState: RadioState, newState: RadioState)

  /** The events of assigning `to` over `from`: none for the same state, one carrying both otherwise. */
  function Transition(from: RadioState, to: RadioState): (r: seq<RadioStateChanged>)
    ensures |r| <= 1 && (r == [] <==> from == to)
    ensures forall k | 0 <= k < |r| :: r[k].oldState == from && r[k].newState == to
  {
    if from == to then [] else [RadioStateChanged(from, to)]
  }

  class RadioStation {
    var state: RadioState
    /** The raised `StateChanged` events, in order. */
    var changes: seq<RadioStateChanged>

    /** Every event is a real change, the events chain from the initial `Idle`, and the last one ends in the current state. */
    ghost predicate Valid()
      reads this
    {
      && (forall k | 0 <= k < |changes| :: changes[k].oldState != changes[k].newState)
      && (forall k | 0 < k < |changes| :: changes[k].oldState == changes[k - 1].newState)
      && (if changes == [] then state == Idle else changes[0].oldState == Idle && changes[|changes| - 1].newState == state)
    }

    /** The radio has never been receiving. */
    ghost predicate NeverReceived()
      reads this
    {
      state != Rx && forall k | 0 <= k < |changes| :: changes[k].newState != Rx && changes[k].oldState != Rx
    }

    constructor()
      ensures Valid() && NeverReceived() && state == Idle && changes == []
    {
      state := Idle;
      changes := [];
    }

    /** The private `State` setter: assigning the current state raises nothing; a change raises one event with both values. */
    method SetState(value: RadioState)
      requires Valid()
      modifies this
      ensures Valid() && state == value
      ensures changes == old(changes) + Transition(old(state), value)
    {
      if state == value {
        return;
      }
      var oldState := state;
      state := value;
      changes := changes + [RadioStateChanged(oldState, value)];
    }

    /** `StartTransceiving`: the radio transmits; a radio that never received still has not. */
    method StartTransceiving()
      requires Valid()
      modifies this
      ensures Valid() && state == Tx
      ensures changes == old(changes) + Transition(old(state), Tx)
      ensures old(NeverReceived()) ==> NeverReceived()
    {
      SetState(Tx);
    }

    /** `StopTransceiving`: the radio is idle; a radio that never received still has not. */
    method StopTransceiving()
      requires Valid()
      modifies this
      ensures Valid() && state == Idle
      ensures changes == old(changes) + Transition(old(state), Idle)
      ensures old(NeverReceived()) ==> NeverReceived()
    {
      SetState(Idle);
    }
  }

  /** The state after a run of public calls: `true` for `StartTransceiving`, `false` for `StopTransceiving`. */
  function Run(state: RadioState, calls: seq<bool>): RadioState
    decreases |calls|
  {
    if calls == [] then state else Run(if calls[0] then Tx else Idle, calls[1..])
  }

  /** The events raised by such a run. */
  function RunChanges(state: RadioState, calls: seq<bool>): seq<RadioStateChanged>
    decreases |calls|
  {
    if calls == [] then []
    else
      var next := if calls[0] then Tx else Idle;
      Transition(state, next) + RunChanges(next, calls[1..])
  }

  /**
   * Repeating a call raises nothing more, and no run of public calls
   * enters `Rx`: from a state other than `Rx` no event names it.
   */
  lemma {:induction false} PublicCallsNeverReceive(state: RadioState, calls: seq<bool>, c: bool)
    ensures RunChanges(state, [c, c]) == RunChanges(state, [c])
    ensures state != Rx ==> Run(state, calls) != Rx
    ensures state != Rx ==> forall k | 0 <= k < |RunChanges(state, calls)| ::
      RunChanges(state, calls)[k].newState != Rx && RunChanges(state, calls)[k].oldState != Rx
    decreases |calls|
  {
    var next := if c then Tx else Idle;
    assert RunChanges(state, [c, c]) == Transition(state, next) + RunChanges(next, [c]);
    assert [c, c][1..] == [c] && [c][1..] == [];
    if calls != [] {
      var first := if calls[0] then Tx else Idle;
      PublicCallsNeverReceive(first, calls[1..], c);
    }
  }
}
