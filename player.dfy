/**
 * `UserAudioPlayer`: plays one remote user's voice. It drops frames older
 * than the last decoded one, is `Tx` while frames arrive and goes back to
 * `Idle` when its 100 ms transmission timer elapses.
 */
module Players {
  import opened Common

  /** `UserVoiceState`; the first member is the default value of a fresh field. */
  datatype UserVoiceState = Idle | Tx

  /** The arguments of one `StateChanged`. */
  datatype VoiceStateChanged = VoiceStateChanged(oldState: UserVoiceState, newState: UserVoiceState)

  /** The fields that decide what the player does next: the last decoded sequence, the state, the timer. */
  datatype Control = Control(last: int, state: UserVoiceState, timer: bool)

  /** A fresh player. */
  const Fresh := Control(-1, Idle, false)

  /**
   * The `State` setter: a change into `Idle` forgets the last sequence, a
   * change into `Tx` starts the timer unless it runs; assigning the
   * current state does nothing.
   */
  function Assign(c: Control, value: UserVoiceState): (d: Control)
    ensures d.state == value
    ensures c.state == value ==> d == c
    ensures c.state != value && value == Idle ==> d == Control(-1, Idle, c.timer)
    ensures c.state != value && value == Tx ==> d == Control(c.last, Tx, true)
  {
    if c.state == value then c
    else
      var last := if value == Idle then -1 else c.last;
      var timer := if value == Tx && !c.timer then true else c.timer;
      Control(last, value, timer)
  }

  /** The events of the `State` setter: one, carrying both states, on a change only. */
  function Changes(from: UserVoiceState, to: UserVoiceState): seq<VoiceStateChanged>
  {
    if from == to then [] else [VoiceStateChanged(from, to)]
  }

  /** `ProcessEncodedVoice` as written: an accepted frame stops the timer, records its sequence and assigns `Tx`. */
  function AcceptAsWritten(c: Control, sequence: int): (d: Control)
  {
    if c.last > sequence then c else Assign(Control(sequence, c.state, false), Tx)
  }

  /** `ProcessEncodedVoice` as evidently intended: the timer is restarted after every accepted frame. */
  function Accept(c: Control, sequence: int): (d: Control)
  {
    if c.last > sequence then c else Assign(Control(sequence, c.state, false), Tx).(timer := true)
  }

  /** A transmitting player has its timer running, so it returns to `Idle` once frames stop. */
  predicate Live(c: Control)
  {
    c.state == Tx ==> c.timer
  }

  /**
   * As written, a second frame while `Tx` stops the timer and nothing
   * restarts it: after two frames from a fresh player the player is `Tx`
   * with no timer, so it never returns to `Idle`.
   */
  lemma AsWrittenStopsTimer()
    ensures Live(Fresh)
    ensures var c := AcceptAsWritten(AcceptAsWritten(Fresh, 0), 1); c.state == Tx && !c.timer && !Live(c)
  {
  }

  /**
   * The corrected frame handling keeps every player live, drops exactly
   * the frames older than the last decoded one and, on an accepted frame,
   * records its sequence and leaves the player `Tx`.
   */
  lemma AcceptKeepsLive(c: Control, sequence: int)
    requires Live(c)
    ensures Live(Accept(c, sequence))
    ensures c.last > sequence ==> Accept(c, sequence) == c
    ensures c.last <= sequence ==> Accept(c, sequence) == Control(sequence, Tx, true)
    ensures Accept(c, sequence).state == AcceptAsWritten(c, sequence).state
    ensures Accept(c, sequence).last == AcceptAsWritten(c, sequence).last
  {
  }

  class UserAudioPlayer {
    const userId: uint
    var lastDecodedSequence: int
    var state: UserVoiceState
    var timerEnabled: bool
    /** The samples added to the player's wave provider, in order. */
    var samples: seq<byte>
    /** The raised `StateChanged` events, in order. */
    var changes: seq<VoiceStateChanged>
    /** The `VoiceService`'s handler is attached to `StateChanged`. */
    var observed: bool
    var disposed: bool
    /** `MumbleOpusDecoder.Decode`. */
    const decode: seq<byte> -> seq<byte>

    function Snapshot(): Control
      reads this`lastDecodedSequence, this`state, this`timerEnabled
    {
      Control(lastDecodedSequence, state, timerEnabled)
    }

    constructor(userId: uint, decode: seq<byte> -> seq<byte>)
      ensures this.userId == userId && this.decode == decode && Snapshot() == Fresh && Live(Snapshot())
      ensures samples == [] && changes == [] && !observed && !disposed
    {
      this.userId := userId;
      this.decode := decode;
      lastDecodedSequence := -1;
      state := Idle;
      timerEnabled := false;
      samples, changes := [], [];
      observed, disposed := false, false;
    }

    /** The private `State` setter. */
    method SetState(value: UserVoiceState)
      modifies this`lastDecodedSequence, this`state, this`timerEnabled, this`changes
      ensures Snapshot() == Assign(old(Snapshot()), value)
      ensures changes == old(changes) + Changes(old(state), value)
    {
      if state != value {
        var oldState := state;
        state := value;
        changes := changes + [VoiceStateChanged(oldState, value)];
        if value == Idle {
          lastDecodedSequence := -1;
        }
        if value == Tx {
          if !timerEnabled {
            timerEnabled := true;
          }
        }
      }
    }

    /** `ProcessEncodedVoice` as written (see `AcceptAsWritten`). */
    method ProcessEncodedVoiceAsWritten(data: seq<byte>, sequence: int)
      modifies this`lastDecodedSequence, this`state, this`timerEnabled, this`changes, this`samples
      ensures Snapshot() == AcceptAsWritten(old(Snapshot()), sequence)
      ensures old(lastDecodedSequence) > sequence ==> samples == old(samples) && changes == old(changes)
      ensures old(lastDecodedSequence) <= sequence ==>
        samples == old(samples) + decode(data) && changes == old(changes) + Changes(old(state), Tx)
    {
      if lastDecodedSequence > sequence {
        return;
      }
      timerEnabled := false;
      lastDecodedSequence := sequence;
      samples := samples + decode(data);
      SetState(Tx);
    }

    /** `ProcessEncodedVoice`, with the timer restarted after every accepted frame (see `Accept`). */
    method ProcessEncodedVoice(data: seq<byte>, sequence: int)
      modifies this`lastDecodedSequence, this`state, this`timerEnabled, this`changes, this`samples
      ensures Snapshot() == Accept(old(Snapshot()), sequence)
      ensures old(lastDecodedSequence) > sequence ==> samples == old(samples) && changes == old(changes)
      ensures old(lastDecodedSequence) <= sequence ==>
        samples == old(samples) + decode(data) && changes == old(changes) + Changes(old(state), Tx)
    {
      if lastDecodedSequence > sequence {
        return;
      }
      timerEnabled := false;
      lastDecodedSequence := sequence;
      samples := samples + decode(data);
      SetState(Tx);
      timerEnabled := true;
    }

    /** `TransmissionTimerOnElapsed`: the player is `Idle`, with no last sequence. The timer repeats. */
    method Elapsed()
      requires timerEnabled
      modifies this`lastDecodedSequence, this`state, this`timerEnabled, this`changes
      ensures Snapshot() == Control(if old(state) == Idle then old(lastDecodedSequence) else -1, Idle, true)
      ensures changes == old(changes) + Changes(old(state), Idle)
    {
      SetState(Idle);
    }

    /** `Dispose`: the timer, codec and output device are released. */
    method Dispose()
      modifies this`disposed, this`timerEnabled
      ensures disposed && !timerEnabled
    {
      timerEnabled := false;
      disposed := true;
    }
  }
}
