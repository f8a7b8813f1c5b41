/** Small types shared by every module. */
module Common {
  datatype Option<+T> = None | Some(value: T)

  function Abs(x: real): (r: real)
    ensures r >= 0.0 && (r == x || r == -x)
  {
    if x < 0.0 then -x else x
  }

  /** A term to mention where the verifier is to look into a predicate that is folded behind it. */
  predicate Recall(n: nat) { true }

  /** Abstract events that drive the high-level charger (IECStateMachine.hpp). */
  datatype CPEvent =
    | CarPluggedIn
    | CarRequestedPower
    | PowerOn
    | PowerOff
    | CarRequestedStopPower
    | CarUnplugged
    | EFtoBCD
    | BCDtoEF
    | BCDtoE
    | EvseReplugStarted
    | EvseReplugFinished

  /** How severely the set of active errors stops charging (ErrorHandling.hpp). */
  datatype ShutdownType = NoShutdown | ErrorShutdown | EmergencyShutdown

  /** What the error handler tells the charger (ErrorHandling.hpp). */
  datatype ErrorHandlingEvent =
    | ForceErrorShutdown
    | ForceEmergencyShutdown
    | AllErrorsPreventingChargingCleared
    | AllErrorCleared

  /** Why the contactors may be switched on or off (evse_board_support Reason). */
  datatype PowerReason = DCCableCheck | DCPreCharge | FullPowerCharging | ReasonPowerOff

  /** What the charger makes of one event of the error handler (Charger::error_thread). */
  function Applied(t: ShutdownType, e: ErrorHandlingEvent): ShutdownType {
    match e
    case ForceErrorShutdown => ErrorShutdown
    case ForceEmergencyShutdown => EmergencyShutdown
    case AllErrorsPreventingChargingCleared => NoShutdown
    case AllErrorCleared => NoShutdown
  }

  /** ... and of a whole batch, in order. */
  function AppliedAll(t: ShutdownType, events: seq<ErrorHandlingEvent>): ShutdownType {
    if events == [] then t else Applied(AppliedAll(t, events[..|events| - 1]), events[|events| - 1])
  }

  /** Applying two batches is applying their concatenation. */
  lemma {:induction false} AppliedInBatches(t: ShutdownType, a: seq<ErrorHandlingEvent>, b: seq<ErrorHandlingEvent>)
    ensures AppliedAll(AppliedAll(t, a), b) == AppliedAll(t, a + b)
  {
    if b == [] {
      assert a + b == a;
    } else {
      assert (a + b)[|a + b| - 1] == b[|b| - 1];
    }
  }
}

/** Logs of events. */
module Logs {
  /** Position of the last event that `p` selects, or -1. */
  ghost function Last<T>(log: seq<T>, p: T -> bool): (k: int)
    ensures -1 <= k < |log|
    ensures k >= 0 ==> p(log[k])
    ensures forall i :: k < i < |log| ==> !p(log[i])
    decreases |log|
  {
    if log == [] then -1
    else if p(log[|log| - 1]) then |log| - 1
    else Last(log[..|log| - 1], p)
  }
}
