/** What every reachable state of the charger satisfies, in terms of its fields and of its monitor. */
module ChargerInvariant {
  import opened Common
  import opened DutyCycle
  import opened EnableTable
  import opened ChargerTypes
  import opened ChargerMonitor

  /** The waiting states only hold return states that their entry stored. */
  predicate ReturnsOk(st: EvseState, ret: ReturnContext) {
    match st
    case TStepX1 =>
      && ret.x1Pwm == 0.0
      && (ret.x1State == PrepareCharging ||
          (ret.x1State == TStepEF && ret.efState == WaitingForAuthentication && ret.efPwm == 0.0))
    case TStepEF =>
      && (ret.efState == WaitingForAuthentication || ret.efState == PrepareCharging)
      && (IsNominal(ret.efPwm) ==> ret.efPwm == AmpereToDutyCycle(ret.efAmpere))
    case SwitchPhases =>
      ret.switchState == PrepareCharging || ret.switchState == WaitingForEnergy
    case _ => true
  }

  predicate SessionInv(auth: AuthContext, m: SessionMonitor) {
    && auth.sessionActive == m.open
    && (auth.sessionActive <==> auth.sessionUuid != "")
    && auth.authorized == m.authorized
    && (auth.authorized ==> auth.sessionActive)
  }

  /** A state on the way to, in or paused from charging: reached only through a transaction start. */
  predicate NeedsStart(st: EvseState, ret: ReturnContext) {
    || Chargeable(st)
    || (st == TStepEF && ret.efState == PrepareCharging)
    || (st == TStepX1 && ret.x1State == PrepareCharging)
  }

  /**
   A transaction is active exactly if one was started since Idle and since the last stop; the latest cancel is
   remembered.
   */
  predicate TransactionInv(tx: TransactionContext, start: StartMonitor, finish: FinishMonitor) {
    && (tx.active <==> start.sinceIdle && finish.sinceStop)
    && (tx.active ==>
          match finish.cancel
          case None => tx.stopReason == None && tx.stopToken == None
          case Some(c) => tx.stopReason == Some(c.reason) && tx.stopToken == c.token)
  }

  /** The duty cycle is the last one commanded, and a nominal one was computed from `setAmpere`. */
  predicate PwmInv(pwm: PwmContext, board: BoardMonitor) {
    && pwm.lastDc == board.duty
    && (IsNominal(pwm.lastDc) ==> pwm.lastDc == AmpereToDutyCycle(pwm.setAmpere))
  }

  /**
   Once a fatal error was handled, the last contactor command is "off" in AC, and else at most a grant for the
   cable check.
   */
  predicate FatalInv(fatal: FatalContext, mode: ChargeMode, m: FatalMonitor, board: BoardMonitor) {
    && m.shutdown == fatal.shutdownType
    && m.observed == fatal.lastShutdownType
    && (m.acOnly ==> mode == AC)
    && (fatal.lastShutdownType != NoShutdown && board.allow ==> board.reason.DCCableCheck? && !m.acOnly)
  }

  /** A running PWM and a power grant never meet before the transaction start. */
  predicate PilotInv(st: EvseState, ret: ReturnContext, m: Monitor) {
    IsRunningDuty(m.board.duty) || (st == TStepEF && ret.efPwm != 0.0) ==> Cold(m)
  }

  predicate TableInv(table: seq<Entry>, active: Entry, m: AvailabilityMonitor) {
    UniqueSources(table) && (m.available <==> active.state != Disable)
  }

  /** The states that only a transaction start leads to, apart from the waiting states on the way. */
  predicate Chargeable(st: EvseState) {
    match st
    case PrepareCharging | WaitingForEnergy | Charging | ChargingPausedEV | ChargingPausedEVSE | SwitchPhases => true
    case _ => false
  }

  /** Strictly descends along the transitions that a freshly entered state can take. */
  function Rank(st: EvseState): nat {
    match st
    case WaitingForAuthentication | SwitchPhases | ChargingPausedEV | ChargingPausedEVSE => 3
    case PrepareCharging | StoppingCharging => 2
    case Charging | Finished => 1
    case _ => 0
  }

  /** The state an authorized pass of WaitingForAuthentication leaves to (figures 3 to 8 of ISO 15118-3). */
  function AuthTarget(c: ConfigContext, pnc: bool, hlc: HlcContext): (st: EvseState) {
    if pnc || c.mode == DC || !hlc.acEnabled || c.acEnforceHlc then PrepareCharging
    else if !hlc.matchingStarted then TStepEF
    else if hlc.use5Percent then TStepX1
    else PrepareCharging
  }

  /** The first meter that gives a definite answer. */
  function FirstAnswer(meters: seq<MeterAnswer>): Option<MeterAnswer> {
    if meters == [] then None
    else if meters[0].status != MeterNotSupported then Some(meters[0])
    else FirstAnswer(meters[1..])
  }
}
