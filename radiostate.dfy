/**
 * `RadioStateService` of the radio emulator: the emulated radio's
 * transmit and receive states, with a callback run on every transmit
 * state assignment.
 */
module RadioEmulator {
  /** `TxState` and `RxState`; the first member is the default value of a fresh property. */
  datatype TxState = TxIdle | Tx
  datatype RxState = RxIdle | Rx

  class RadioStateService {
    var txState: TxState
    var rxState: RxState
    /** `OnStateChangedAction` is set (not null). */
    var hasAction: bool
    /** How many times the action has been invoked. */
    var invocations: nat

    constructor()
      ensures txState == TxIdle && rxState == RxIdle && !hasAction && invocations == 0
    {
      txState, rxState := TxIdle, RxIdle;
      hasAction := false;
      invocations := 0;
    }

    /** Setting the `OnStateChangedAction` property (to null when `present` is false). */
    method SetAction(present: bool)
      modifies this`hasAction
      ensures hasAction == present
    {
      hasAction := present;
    }

    /** `StartTx`: transmit, then notify, even when already transmitting. */
    method StartTx()
      modifies this`txState, this`invocations
      ensures txState == Tx && rxState == old(rxState)
      ensures invocations == old(invocations) + (if hasAction then 1 else 0)
    {
      txState := Tx;
      OnStateChanged();
    }

    /** `StopTx`: idle, then notify, even when already idle. */
    method StopTx()
      modifies this`txState, this`invocations
      ensures txState == TxIdle && rxState == old(rxState)
      ensures invocations == old(invocations) + (if hasAction then 1 else 0)
    {
      txState := TxIdle;
      OnStateChanged();
    }

    /** `OnStateChanged`: `OnStateChangedAction?.Invoke()`, nothing when there is no action. */
    method OnStateChanged()
      modifies this`invocations
      ensures invocations == old(invocations) + (if hasAction then 1 else 0)
    {
      if hasAction {
        invocations := invocations + 1;
      }
    }
  }

  /** The transmit state and the number of notifications after a run of `StartTx` (`true`) and `StopTx` (`false`) calls. */
  function Run(tx: TxState, calls: seq<bool>, hasAction: bool): (r: (TxState, nat))
    ensures r.1 == (if hasAction then |calls| else 0)
    ensures calls != [] ==> r.0 == (if calls[|calls| - 1] then Tx else TxIdle)
    ensures calls == [] ==> r.0 == tx
    decreases |calls|
  {
    if calls == [] then (tx, 0)
    else
      var rest := Run(if calls[0] then Tx else TxIdle, calls[1..], hasAction);
      (rest.0, rest.1 + (if hasAction then 1 else 0))
  }
}
