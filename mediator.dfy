/**
 * `GateMediator`: couples the radio with the voice service. While the
 * radio receives, the gateway sends to the server; otherwise the radio
 * transmits exactly when some user on the server is talking.
 */
module Mediation {
  import opened Common
  import opened Radio
  import Players
  import Voice

  /** `GetUsersState().Any(s => s.State == UserVoiceState.Tx)`. */
  predicate AnyTx(states: map<uint, Players.UserVoiceState>)
  {
    exists k | k in states :: states[k] == Players.Tx
  }

  /**
   * What `CalculateTx` asks of the radio: nothing while it receives
   * (`None`), else to transmit (`Some(true)`) or to stop (`Some(false)`).
   */
  function TxDecision(radioState: RadioState, states: map<uint, Players.UserVoiceState>): (r: Option<bool>)
    ensures r.None? <==> radioState == Rx
    ensures r == Some(true) <==> radioState != Rx && AnyTx(states)
    ensures r == Some(false) <==> radioState != Rx && forall k | k in states :: states[k] == Players.Idle
  {
    if radioState == Rx then None else Some(AnyTx(states))
  }

  class GateMediator {
    const radioStation: RadioStation
    const voiceService: Voice.VoiceService

    /** The subscriptions of the constructor are the handlers below, called by whoever raises the events. */
    constructor(radioStation: RadioStation, voiceService: Voice.VoiceService)
      ensures this.radioStation == radioStation && this.voiceService == voiceService
    {
      this.radioStation := radioStation;
      this.voiceService := voiceService;
    }

    /**
     * `CalculateTx`: a receiving radio is left alone; otherwise it
     * transmits if and only if some user is in `Tx`, raising the events of
     * that change.
     */
    method CalculateTx()
      requires radioStation.Valid()
      modifies radioStation
      ensures radioStation.Valid()
      ensures old(radioStation.state) == Rx ==> radioStation.state == Rx && radioStation.changes == old(radioStation.changes)
      ensures old(radioStation.state) != Rx ==>
        && (radioStation.state == Tx <==> AnyTx(voiceService.UsersState()))
        && (radioStation.state == Idle <==> !AnyTx(voiceService.UsersState()))
        && radioStation.changes == old(radioStation.changes) + Transition(old(radioStation.state), radioStation.state)
    {
      var decision := TxDecision(radioStation.state, voiceService.UsersState());
      if decision.None? {
        return;
      }
      if decision.value {
        radioStation.StartTransceiving();
      } else {
        radioStation.StopTransceiving();
      }
    }

    /** `VoiceServiceOnUsersStateChanged`: every change of the users' states recalculates the radio. */
    method OnUsersStateChanged()
      requires radioStation.Valid()
      modifies radioStation
      ensures radioStation.Valid()
      ensures old(radioStation.state) == Rx ==> radioStation.state == Rx && radioStation.changes == old(radioStation.changes)
      ensures old(radioStation.state) != Rx ==>
        && (radioStation.state == Tx <==> AnyTx(voiceService.UsersState()))
        && radioStation.changes == old(radioStation.changes) + Transition(old(radioStation.state), radioStation.state)
    {
      CalculateTx();
    }

    /**
     * `RadioStationOnStateChanged`: entering `Rx` starts sending to the
     * server; leaving it stops sending and recalculates the radio; any
     * other change leaves both alone.
     */
    method OnRadioStateChanged(e: RadioStateChanged)
      requires radioStation.Valid()
      modifies radioStation, voiceService`isSendingToServer
      ensures radioStation.Valid()
      ensures e.newState == Rx && e.oldState != Rx ==>
        voiceService.isSendingToServer && radioStation.state == old(radioStation.state) && radioStation.changes == old(radioStation.changes)
      ensures e.newState != Rx && e.oldState == Rx ==>
        && !voiceService.isSendingToServer
        && (old(radioStation.state) == Rx ==> radioStation.state == Rx && radioStation.changes == old(radioStation.changes))
        && (old(radioStation.state) != Rx ==>
              && (radioStation.state == Tx <==> AnyTx(voiceService.UsersState()))
              && radioStation.changes == old(radioStation.changes) + Transition(old(radioStation.state), radioStation.state))
      ensures (e.newState == Rx) == (e.oldState == Rx) ==>
        voiceService.isSendingToServer == old(voiceService.isSendingToServer)
        && radioStation.state == old(radioStation.state) && radioStation.changes == old(radioStation.changes)
    {
      if e.newState == Rx && e.oldState != Rx {
        voiceService.StartSendingVoice();
      }
      if e.newState != Rx && e.oldState == Rx {
        voiceService.StopSendingVoice();
        CalculateTx();
      }
    }
  }
}
