/**
 The high-level charger (Charger.cpp). Every call that the charger makes and
 every signal it sends is appended to `trace`. A step of the state machine takes
 its clock readings and foreign answers from an `Env`.
 */
module ChargerMachine {
  import opened Common
  import opened DutyCycle
  import opened EnableTable
  import opened ChargerTypes
  import opened ChargerMonitor
  import opened ChargerInvariant
  import opened BcbToggle

  /** What is looked at to tell what a pass of the state machine did. */
  datatype View = View(
    state: EvseState, auth: AuthContext, tx: TransactionContext, hlc: HlcContext, iecAllow: bool,
    due: bool, granted: bool, toggles: bool)

  class Charger {
    var config: ConfigContext
    var socket: bool // the connector is an IEC62196Type2Socket
    var currentState: EvseState
    var lastDetect: EvseState // last_state_detect_state_change
    var lastState: EvseState
    var passShutdown: ShutdownType // internal_context.last_shutdown_type
    var stateStarted: int
    var auth: AuthContext
    var tx: TransactionContext
    var pwm: PwmContext
    var ret: ReturnContext
    var bcb: BcbContext
    var fatal: FatalContext
    var current: CurrentContext
    var hlc: HlcContext
    var phases: PhaseSwitch
    var soc: SocTimer
    var iecAllow: bool
    var contactorOpen: bool
    var legacyWakeupDone: bool
    var ppWarningPrinted: bool
    var noEnergyWarningPrinted: bool
    var connectorEnabled: bool
    var table: seq<Entry>
    var active: Entry
    var trace: Trace
    ghost var prior: seq<Event> // what was sent before the present entry point was called
    ghost var socFires: nat // how often the SoC timeout fired
    ghost var history: seq<Input> // the calls, as noted by whoever plays a run
    ghost var note: Note // what was found before the last of them

    /** What every reachable state satisfies. */
    ghost predicate InvBody()
      reads `config, `currentState, `auth, `tx, `pwm, `ret, `fatal, `table, `active, `prior, `socFires, `trace
    {
      && prior <= trace.events && socFires == trace.mon.avail.socFires
      && AllOk(trace.mon)
      && ReturnsOk(currentState, ret)
      && SessionInv(auth, trace.mon.session)
      && (NeedsStart(currentState, ret) ==> trace.mon.start.sinceIdle)
      && TransactionInv(tx, trace.mon.start, trace.mon.finish)
      && PwmInv(pwm, trace.mon.board)
      && trace.mon.board.tolerance == ToleranceOf(config)
      && FatalInv(fatal, config.mode, trace.mon.fatal, trace.mon.board)
      && PilotInv(currentState, ret, trace.mon)
      && TableInv(table, active, trace.mon.avail)
    }

    /** The invariant, folded behind `Recall`: methods that only pass it on never look inside. */
    ghost predicate Inv()
      reads `config, `currentState, `auth, `tx, `pwm, `ret, `fatal, `table, `active, `prior, `socFires, `trace
    {
      forall n: nat {:trigger Recall(n)} :: Recall(n) ==> InvBody()
    }

    /** Holds whenever no entry point is running. */
    ghost predicate Valid()
      reads `config, `currentState, `lastDetect, `auth, `tx, `pwm, `ret, `fatal, `table, `active, `prior, `socFires,
        `trace
    {
      && Inv()
      && (currentState == WaitingForAuthentication ==> lastDetect == WaitingForAuthentication && IsCold())
    }

    ghost predicate IsCold()
      reads `trace
    {
      Cold(trace.mon)
    }

    /** The last contactor command was a grant. */
    ghost predicate Granted()
      reads `trace
    {
      trace.mon.board.allow
    }

    /** A transaction was started and not reported as finished since. */
    ghost predicate SinceStop()
      reads `trace
    {
      trace.mon.finish.sinceStop
    }

    lemma AuthNeedsSession()
      requires Inv()
      ensures auth.authorized ==> auth.sessionActive
    {
      assert Recall(0);
    }

    // ---------------------------------------------------------------- trace

    /** Appends an event that no monitor looks at. */
    method Publish(e: Event)
      requires Inv() && IsNeutral(e)
      modifies `trace
      ensures Inv() && trace.events == old(trace).events + [e]
      ensures trace.mon == old(trace).mon
    {
      assert Recall(0);
      trace := Emit(trace, e);
    }

    method SendPowerOff()
      requires Inv()
      modifies `trace
      ensures Inv() && trace.events == old(trace).events + [AllowPowerOn(false, ReasonPowerOff)]
      ensures !Granted()
    {
      assert Recall(0);
      trace := Emit(trace, AllowPowerOn(false, ReasonPowerOff));
    }

    /** A grant needs a transaction start since Idle; only the one for a DC cable check may meet a fatal error. */
    method SendPowerOn(reason: PowerReason)
      requires Inv() && Chargeable(currentState)
      requires
        || (fatal.shutdownType == NoShutdown && fatal.lastShutdownType == NoShutdown)
        || (reason == DCCableCheck && config.mode == DC)
      modifies `trace
      ensures Inv() && trace.events == old(trace).events + [AllowPowerOn(true, reason)]
      ensures Granted()
    {
      assert Recall(0);
      trace := Emit(trace, AllowPowerOn(true, reason));
    }

    // ---------------------------------------------------------------- PWM

    method SendDuty(e: Event)
      requires e.SetPwm? || e.SetPwmOff? || e.SetPwmF?
      requires PilotCold(trace.mon)
      modifies `trace
      ensures trace.events == old(trace).events + [e]
      ensures trace.mon == old(trace).mon.(board := old(trace).mon.board.(duty := DutyOf(e)))
    {
      trace := Emit(trace, e);
    }

    method UpdatePwmNow(dc: real, now: int)
      requires PilotCold(trace.mon)
      modifies `pwm, `trace
      ensures pwm == old(pwm).(lastDc := dc, running := true, lastUpdate := now, fActive := false)
      ensures trace.events == old(trace).events + [SetPwm(dc)]
      ensures trace.mon == old(trace).mon.(board := old(trace).mon.board.(duty := dc))
    {
      pwm := pwm.(lastDc := dc, running := true, lastUpdate := now, fActive := false);
      SendDuty(SetPwm(dc));
    }

    /** Switches the 5 percent signal of HLC on. */
    method UpdatePwm5Percent(now: int)
      requires Inv() && IsCold()
      modifies `pwm, `trace
      ensures Inv() && IsCold() == old(IsCold()) && Granted() == old(Granted())
      ensures pwm == old(pwm).(lastDc := PWM_5_PERCENT, running := true, lastUpdate := now, fActive := false)
      ensures trace.events == old(trace).events + [SetPwm(PWM_5_PERCENT)]
    {
      assert Recall(0);
      UpdatePwmNow(PWM_5_PERCENT, now);
    }

    method UpdatePwm5PercentIfChanged(now: int)
      requires Inv() && Chargeable(currentState)
      modifies `pwm, `trace
      ensures Inv() && Granted() == old(Granted())
      ensures if old(pwm).lastDc == PWM_5_PERCENT then pwm == old(pwm) && trace == old(trace)
        else
          && pwm == old(pwm).(lastDc := PWM_5_PERCENT, running := true, lastUpdate := now, fActive := false)
          && trace.events == old(trace).events + [SetPwm(PWM_5_PERCENT)]
    {
      if pwm.lastDc != PWM_5_PERCENT {
        assert Recall(0);
        UpdatePwmNow(PWM_5_PERCENT, now);
      }
    }

    /** Signals a new current to the EV, together with remembering it. */
    method UpdatePwmNowIfChangedAmpere(ampere: real, now: int)
      requires Inv() && Chargeable(currentState)
      modifies `pwm, `trace
      ensures Inv() && Granted() == old(Granted())
      ensures var dc := AmpereToDutyCycle(ampere);
        if old(pwm).lastDc == dc then pwm == old(pwm) && trace == old(trace)
        else
          && pwm == old(pwm).(lastDc := dc, running := true, lastUpdate := now, fActive := false, setAmpere := ampere)
          && trace.events == old(trace).events + [SetPwm(dc)]
    {
      var dc := AmpereToDutyCycle(ampere);
      if pwm.lastDc != dc {
        assert Recall(0);
        UpdatePwmNow(dc, now);
        pwm := pwm.(setAmpere := ampere);
      }
    }

    /** IEC 61851-1 gives the EV five seconds to follow a new duty cycle. */
    method UpdatePwmMaxEvery5Seconds(ampere: real, now: int)
      requires Inv() && Chargeable(currentState)
      modifies `pwm, `trace
      ensures Inv() && Granted() == old(Granted())
      ensures var dc := AmpereToDutyCycle(ampere);
        if old(pwm).lastDc == dc || now - old(pwm).lastUpdate < IEC_PWM_MAX_UPDATE_INTERVAL then
          pwm == old(pwm) && trace == old(trace)
        else
          && pwm == old(pwm).(lastDc := dc, running := true, lastUpdate := now, fActive := false, setAmpere := ampere)
          && trace.events == old(trace).events + [SetPwm(dc)]
    {
      var dc := AmpereToDutyCycle(ampere);
      if dc != pwm.lastDc {
        if now - pwm.lastUpdate >= IEC_PWM_MAX_UPDATE_INTERVAL {
          assert Recall(0);
          UpdatePwmNow(dc, now);
          pwm := pwm.(setAmpere := ampere);
        }
      }
    }

    /** Ends T_step_EF with the duty cycle and current that its entry stored. */
    method ResumePwmAfterEF(now: int)
      requires Inv() && currentState == TStepEF
      modifies `pwm, `trace
      ensures Inv() && IsCold() == old(IsCold())
      ensures if ret.efPwm == 0.0
        then pwm == old(pwm).(running := false, lastDc := 1.0, setAmpere := 0.0, fActive := false)
        else pwm == old(pwm).(lastDc := ret.efPwm, running := true, lastUpdate := now, fActive := false,
                              setAmpere := ret.efAmpere)
      ensures trace.events == old(trace).events + [if ret.efPwm == 0.0 then SetPwmOff else SetPwm(ret.efPwm)]
    {
      if ret.efPwm == 0.0 {
        PwmOff();
      } else {
        assert Recall(0);
        UpdatePwmNow(ret.efPwm, now);
        pwm := pwm.(setAmpere := ret.efAmpere);
      }
    }

    method PwmOff()
      requires Inv()
      modifies `pwm, `trace
      ensures Inv() && IsCold() == old(IsCold()) && Granted() == old(Granted())
      ensures pwm == old(pwm).(running := false, lastDc := 1.0, setAmpere := 0.0, fActive := false)
      ensures trace.events == old(trace).events + [SetPwmOff]
    {
      assert Recall(0);
      pwm := pwm.(running := false, lastDc := 1.0, setAmpere := 0.0, fActive := false);
      SendDuty(SetPwmOff);
    }

    method PwmF()
      requires Inv()
      modifies `pwm, `trace
      ensures Inv() && IsCold() == old(IsCold()) && Granted() == old(Granted())
      ensures pwm == old(pwm).(running := false, lastDc := 0.0, setAmpere := 0.0, fActive := true)
      ensures trace.events == old(trace).events + [SetPwmF]
    {
      assert Recall(0);
      pwm := pwm.(running := false, lastDc := 0.0, setAmpere := 0.0, fActive := true);
      SendDuty(SetPwmF);
    }

    // ------------------------------------------------------------- current

    function MaxCurrentInternal(): real
      reads `socket, `current, `currentState
    {
      if socket && current.cable < current.max && currentState != Idle then current.cable else current.max
    }

    /** Current the EV was last told in basic charging, the limit itself in HLC. */
    function MaxCurrentSignalled(): real
      reads `socket, `current, `currentState, `hlc, `pwm
    {
      if !hlc.active then pwm.setAmpere else MaxCurrentInternal()
    }

    /** Is there a current budget? One that expired a full second ago falls back to zero. */
    method PowerAvailable(now: int) returns (available: bool)
      requires Inv()
      modifies `current, `trace
      ensures Inv() && trace.mon == old(trace).mon
      ensures if now - old(current).validUntil >= 1000 && old(current).max > 0.0
        then current == old(current).(max := 0.0) && trace.events == old(trace).events + [MaxCurrentSignal(0.0)]
        else current == old(current) && trace == old(trace)
      ensures available <==> MaxCurrentInternal() > 5.9
    {
      if now - current.validUntil >= 1000 {
        if current.max > 0.0 {
          current := current.(max := 0.0);
          Publish(MaxCurrentSignal(current.max));
        }
      }
      available := MaxCurrentInternal() > 5.9;
    }

    /** The measured current above which the vehicle overdraws what it was told. */
    function SoftLimit(): real
      reads `socket, `current, `currentState, `hlc, `pwm, `config
    {
      Tolerated(MaxCurrentSignalled(), ToleranceOf(config))
    }

    predicate Overdrawn()
      reads `socket, `current, `currentState, `hlc, `pwm, `config
    {
      || Abs(current.drawn.0) > SoftLimit()
      || Abs(current.drawn.1) > SoftLimit()
      || Abs(current.drawn.2) > SoftLimit()
    }

    /** In basic charging the error names the current that the last nominal duty cycle stands for. */
    method PublishOverCurrent(limit: real)
      requires Inv() && limit == SoftLimit()
      modifies `trace
      ensures Inv() && trace.mon == old(trace).mon
      ensures trace.events == old(trace).events + [RaiseOverCurrent(MaxCurrentSignalled(), limit, !hlc.active)]
    {
      assert Recall(0);
      trace := Emit(trace, RaiseOverCurrent(MaxCurrentSignalled(), limit, !hlc.active));
    }

    /** Raises the over-current error exactly when the overdraw has lasted the configured time. */
    method CheckSoftOverCurrent(now: int)
      requires Inv()
      modifies `current, `trace
      ensures Inv() && trace.mon == old(trace).mon
      ensures current == old(current).(
        overCurrent := old(Overdrawn()),
        overCurrentSince :=
          if old(Overdrawn()) && !old(current).overCurrent then now else old(current).overCurrentSince)
      ensures trace.events ==
        if current.overCurrent && now - current.overCurrentSince >= config.softOverCurrentTimeoutMs
        then old(trace).events + [RaiseOverCurrent(old(MaxCurrentSignalled()), old(SoftLimit()), !hlc.active)]
        else old(trace).events
    {
      var limit := SoftLimit();
      if Abs(current.drawn.0) > limit || Abs(current.drawn.1) > limit || Abs(current.drawn.2) > limit {
        if !current.overCurrent {
          current := current.(overCurrent := true, overCurrentSince := now);
        }
      } else {
        current := current.(overCurrent := false);
      }
      if current.overCurrent && now - current.overCurrentSince >= config.softOverCurrentTimeoutMs {
        PublishOverCurrent(limit);
      }
    }

    // ------------------------------------------------------------------ BCB

    method BcbToggleReset()
      modifies `bcb
      ensures bcb == old(bcb).(count := 0, started := false)
    {
      bcb := bcb.(count := 0, started := false);
    }

    method BcbStartPulse(now: int)
      modifies `bcb
      ensures bcb == Started(old(bcb), now)
    {
      bcb := bcb.(pulseStart := now);
      if bcb.count == 0 {
        bcb := bcb.(sequenceStart := now, started := true);
      }
    }

    method BcbStopPulse(now: int)
      modifies `bcb
      ensures bcb == Stopped(old(bcb), now)
    {
      if !bcb.started {
        return;
      }
      var pulse := now - bcb.pulseStart;
      if pulse > TP_EV_VALD_STATE_DURATION_MIN && pulse < TP_EV_VALD_STATE_DURATION_MAX {
        bcb := bcb.(count := bcb.count + 1);
      } else {
        bcb := bcb.(count := 0);
      }
    }

    method BcbToggleDetected(now: int) returns (detected: bool)
      modifies `bcb
      ensures detected <==> ToggleSeen(old(bcb), now)
      ensures bcb == if detected then old(bcb).(count := 0) else old(bcb)
    {
      if bcb.started && (now - bcb.sequenceStart > TT_EVSE_VALD_TOGGLE || bcb.count >= 3) {
        bcb := bcb.(count := 0);
        return true;
      }
      return false;
    }

    // --------------------------------------------------------- fatal errors

    /** A shutdown routine is due: the type is fatal and was not handled yet. */
    predicate RoutineDue()
      reads `fatal
    {
      fatal.shutdownType != NoShutdown && fatal.shutdownType != fatal.lastShutdownType
    }

    // Within a shutdown routine the invariant is suspended until the observed type is recorded.

    method SendNeutral(e: Event)
      requires IsNeutral(e)
      requires PilotCold(trace.mon)
      modifies `trace
      ensures PilotCold(trace.mon)
      ensures trace.events == old(trace).events + [e] && trace.mon == old(trace).mon
    {
      trace := Emit(trace, e);
    }

    method RevokePower()
      requires PilotCold(trace.mon)
      modifies `trace
      ensures trace.events == old(trace).events + [AllowPowerOn(false, ReasonPowerOff)]
      ensures trace.mon == old(trace).mon.(board := Revoked(old(trace).mon.board))
    {
      trace := Emit(trace, AllowPowerOn(false, ReasonPowerOff));
    }

    /** The state machine looks at the shutdown type; a change to a fatal one owes a routine. */
    method MarkFatalCheck()
      requires trace.mon.fatal.owed == NoShutdown && trace.mon.fatal.routinesOk
      requires PilotCold(trace.mon)
      modifies `trace
      ensures PilotCold(trace.mon)
      ensures trace.events == old(trace).events + [FatalCheck(fatal.shutdownType)]
      ensures trace.mon == old(trace).mon.(fatal := old(trace).mon.fatal.(
        observed := fatal.shutdownType,
        owed := if fatal.shutdownType != old(trace).mon.fatal.observed then fatal.shutdownType else NoShutdown))
    {
      trace := Emit(trace, FatalCheck(fatal.shutdownType));
    }

    method MarkRoutine(t: ShutdownType)
      requires trace.mon.fatal.owed == t != NoShutdown
      requires PilotCold(trace.mon)
      modifies `trace
      ensures PilotCold(trace.mon)
      ensures trace.events == old(trace).events + [ShutdownRoutine(t)]
      ensures trace.mon == old(trace).mon.(fatal := old(trace).mon.fatal.(owed := NoShutdown))
    {
      trace := Emit(trace, ShutdownRoutine(t));
    }

    method RunEmergencyShutdown()
      requires trace.mon.fatal.owed == EmergencyShutdown && pwm.lastDc == trace.mon.board.duty
      requires PilotCold(trace.mon)
      modifies `pwm, `trace
      ensures pwm == if old(pwm).running
        then old(pwm).(running := false, lastDc := 1.0, setAmpere := 0.0, fActive := false) else old(pwm)
      ensures
        var t1 := old(trace).events + [ShutdownRoutine(EmergencyShutdown)];
        var t2 := if old(pwm).running then t1 + [SetPwmOff] else t1;
        var t3 := if config.mode == DC then t2 + [DcSupplyOff] else t2;
        trace.events == t3 + [AllowPowerOn(false, ReasonPowerOff)]
      ensures old(trace).events + [ShutdownRoutine(EmergencyShutdown)] <= trace.events
      ensures trace.mon == old(trace).mon.(
        fatal := old(trace).mon.fatal.(owed := NoShutdown),
        board := Revoked(old(trace).mon.board).(duty := pwm.lastDc))
    {
      MarkRoutine(EmergencyShutdown);
      if pwm.running {
        pwm := pwm.(running := false, lastDc := 1.0, setAmpere := 0.0, fActive := false);
        SendDuty(SetPwmOff);
      }
      if config.mode == DC {
        SendNeutral(DcSupplyOff);
      }
      RevokePower();
    }

    /** Keeps the PWM on, so that the error can still be sent to the EV. */
    method RunErrorShutdown()
      requires trace.mon.fatal.owed == ErrorShutdown
      requires PilotCold(trace.mon)
      modifies `trace
      ensures
        var t1 := old(trace).events + [ShutdownRoutine(ErrorShutdown)];
        var t2 := if config.mode == DC then t1 + [DcSupplyOff] else t1;
        trace.events == t2 + [AllowPowerOn(false, ReasonPowerOff)] + [HlcError(HlcEmergencyShutdown)]
      ensures old(trace).events + [ShutdownRoutine(ErrorShutdown)] <= trace.events
      ensures trace.mon == old(trace).mon.(
        fatal := old(trace).mon.fatal.(owed := NoShutdown),
        board := Revoked(old(trace).mon.board))
    {
      MarkRoutine(ErrorShutdown);
      if config.mode == DC {
        SendNeutral(DcSupplyOff);
      }
      RevokePower();
      SendNeutral(HlcError(HlcEmergencyShutdown));
    }

    /** The routine of the present shutdown type. */
    method RunShutdown()
      requires trace.mon.fatal.owed == fatal.shutdownType != NoShutdown && pwm.lastDc == trace.mon.board.duty
      requires PilotCold(trace.mon)
      modifies `pwm, `trace
      ensures pwm == if fatal.shutdownType == EmergencyShutdown && old(pwm).running
        then old(pwm).(running := false, lastDc := 1.0, setAmpere := 0.0, fActive := false) else old(pwm)
      ensures trace.mon == old(trace).mon.(
        fatal := old(trace).mon.fatal.(owed := NoShutdown),
        board := Revoked(old(trace).mon.board).(duty := pwm.lastDc))
      ensures old(trace).events + [ShutdownRoutine(fatal.shutdownType)] <= trace.events
    {
      if fatal.shutdownType == EmergencyShutdown {
        RunEmergencyShutdown();
      } else {
        RunErrorShutdown();
      }
    }

    method StartTimer(now: int)
      modifies `fatal
      ensures fatal == old(fatal).(since := now)
    {
      fatal := fatal.(since := now);
    }

    /** Looks at the shutdown type and runs its routine if it is due. */
    method ObserveShutdownType(now: int)
      requires trace.mon.fatal.owed == NoShutdown && trace.mon.fatal.routinesOk
      requires trace.mon.fatal.observed == fatal.lastShutdownType && pwm.lastDc == trace.mon.board.duty
      requires PilotCold(trace.mon)
      modifies `pwm, `fatal, `trace
      ensures fatal == old(fatal).(since := if RoutineDue() then now else old(fatal).since)
      ensures pwm == if RoutineDue() && fatal.shutdownType == EmergencyShutdown && old(pwm).running
        then old(pwm).(running := false, lastDc := 1.0, setAmpere := 0.0, fActive := false) else old(pwm)
      ensures trace.mon == old(trace).mon.(
        fatal := old(trace).mon.fatal.(observed := fatal.shutdownType),
        board := (if RoutineDue() then Revoked(old(trace).mon.board) else old(trace).mon.board).(duty := pwm.lastDc))
      ensures !RoutineDue() ==> trace.events == old(trace).events + [FatalCheck(fatal.shutdownType)]
      ensures RoutineDue() ==>
        old(trace).events + [FatalCheck(fatal.shutdownType)] + [ShutdownRoutine(fatal.shutdownType)] <= trace.events
    {
      hide Revoked, PilotCold;
      MarkFatalCheck();
      if RoutineDue() {
        RunDueRoutine(now);
      }
    }

    method RunDueRoutine(now: int)
      requires trace.mon.fatal.owed == fatal.shutdownType != NoShutdown && pwm.lastDc == trace.mon.board.duty
      requires PilotCold(trace.mon)
      modifies `pwm, `fatal, `trace
      ensures fatal == old(fatal).(since := now)
      ensures pwm == if fatal.shutdownType == EmergencyShutdown && old(pwm).running
        then old(pwm).(running := false, lastDc := 1.0, setAmpere := 0.0, fActive := false) else old(pwm)
      ensures trace.mon == old(trace).mon.(
        fatal := old(trace).mon.fatal.(owed := NoShutdown),
        board := Revoked(old(trace).mon.board).(duty := pwm.lastDc))
      ensures old(trace).events + [ShutdownRoutine(fatal.shutdownType)] <= trace.events
    {
      hide Revoked, PilotCold;
      StartTimer(now);
      RunShutdown();
    }

    method HandleShutdownType(now: int) returns (err: bool)
      requires trace.mon.fatal.owed == NoShutdown && trace.mon.fatal.routinesOk
      requires trace.mon.fatal.observed == fatal.lastShutdownType && pwm.lastDc == trace.mon.board.duty
      requires PilotCold(trace.mon)
      modifies `pwm, `fatal, `trace
      ensures err <==> old(fatal).shutdownType != NoShutdown
      ensures fatal == old(fatal).(
        lastShutdownType := old(fatal).shutdownType,
        since := if old(RoutineDue()) then now else old(fatal).since,
        timerRunning := err)
      ensures pwm ==
        if old(RoutineDue()) && old(fatal).shutdownType == EmergencyShutdown && old(pwm).running
        then old(pwm).(running := false, lastDc := 1.0, setAmpere := 0.0, fActive := false)
        else old(pwm)
      ensures trace.mon == old(trace).mon.(
        fatal := old(trace).mon.fatal.(observed := fatal.lastShutdownType),
        board :=
          (if old(RoutineDue()) then Revoked(old(trace).mon.board) else old(trace).mon.board).(duty := pwm.lastDc))
      ensures !old(RoutineDue()) ==> trace.events == old(trace).events + [FatalCheck(fatal.shutdownType)]
      ensures old(RoutineDue()) ==>
        old(trace).events + [FatalCheck(fatal.shutdownType)] + [ShutdownRoutine(fatal.shutdownType)] <= trace.events
    {
      hide Revoked, PilotCold;
      ObserveShutdownType(now);
      err := fatal.shutdownType != NoShutdown;
      RememberShutdownType(err);
    }

    method RememberShutdownType(err: bool)
      modifies `fatal
      ensures fatal == old(fatal).(timerRunning := err, lastShutdownType := old(fatal).shutdownType)
    {
      fatal := fatal.(timerRunning := err, lastShutdownType := fatal.shutdownType);
    }

    /**
     Reports whether an error stops charging. A shutdown routine runs exactly when the
     observed type changed to one that stops charging; it takes the power grant back.
     */
    method StopChargingOnFatalErrorInternal(now: int) returns (err: bool)
      requires Inv()
      modifies `pwm, `fatal, `trace
      ensures Inv()
      ensures err <==> old(fatal).shutdownType != NoShutdown
      ensures fatal == old(fatal).(
        lastShutdownType := old(fatal).shutdownType,
        since := if old(RoutineDue()) then now else old(fatal).since,
        timerRunning := err)
      ensures pwm ==
        if old(RoutineDue()) && old(fatal).shutdownType == EmergencyShutdown && old(pwm).running
        then old(pwm).(running := false, lastDc := 1.0, setAmpere := 0.0, fActive := false)
        else old(pwm)
      ensures Granted() <==> (old(Granted()) && !old(RoutineDue()))
      ensures old(IsCold()) ==> IsCold()
    {
      assert Recall(0);
      err := HandleShutdownType(now);
    }

    // --------------------------------------------------- sessions, transactions

    method StartSession(authFirst: bool, newId: SessionId)
      requires Inv() && !auth.sessionActive
      modifies `auth, `trace
      ensures Inv() && IsCold() == old(IsCold()) && Granted() == old(Granted())
      ensures auth == old(auth).(
        sessionActive := true, authorized := false, sessionUuid := newId,
        startReason := if authFirst then StartAuthorized else EVConnected)
      ensures trace.events ==
        old(trace).events + [SessionStarted(auth.startReason, if authFirst then Some(auth.idToken) else None)]
    {
      assert Recall(0);
      auth := auth.(sessionActive := true, authorized := false, sessionUuid := newId);
      var token: Option<IdToken> := None;
      if authFirst {
        auth := auth.(startReason := StartAuthorized);
        token := Some(auth.idToken);
      } else {
        auth := auth.(startReason := EVConnected);
      }
      trace := Emit(trace, SessionStarted(auth.startReason, token));
    }

    method StopSession()
      requires Inv() && auth.sessionActive
      modifies `auth, `trace
      ensures Inv() && IsCold() == old(IsCold())
      ensures auth == old(auth).(sessionActive := false, authorized := false, sessionUuid := "")
      ensures trace.events == old(trace).events + [Simple(SessionFinished)]
    {
      assert Recall(0);
      auth := auth.(sessionActive := false, authorized := false);
      trace := Emit(trace, Simple(SessionFinished));
      auth := auth.(sessionUuid := "");
    }

    method PublishAuthorized(pnc: bool)
      requires Inv() && auth.sessionActive
      modifies `auth, `trace
      ensures Inv() && IsCold() == old(IsCold())
      ensures auth == old(auth).(authorized := true, authorizedPnc := pnc)
      ensures trace.events == old(trace).events + [Simple(Authorized)]
    {
      assert Recall(0);
      trace := Emit(trace, Simple(Authorized));
      auth := auth.(authorized := true, authorizedPnc := pnc);
    }

    /** Notes the start of a transaction, before any meter was asked. */
    method MarkStart()
      requires Inv() && auth.authorized
      modifies `tx, `trace
      ensures Inv() && IsCold()
      ensures tx == old(tx).(active := true, stopReason := None, stopToken := None)
      ensures trace.events == old(trace).events + [StartTransactionCalled]
    {
      assert Recall(0);
      tx := tx.(active := true, stopReason := None, stopToken := None);
      trace := Emit(trace, StartTransactionCalled);
    }

    /** A transaction counts as active even if a meter then refuses to start. */
    method StartTransaction(env: Env) returns (ok: bool)
      requires Inv() && auth.authorized
      modifies `tx, `trace
      ensures Inv() && IsCold()
      ensures tx == old(tx).(active := true, stopReason := None, stopToken := None)
      ensures ok <==>
        !(config.failOnMeterErrors && exists k :: 0 <= k < |env.meters| && env.meters[k].status == MeterUnexpectedError)
      ensures trace.events == old(trace).events + [StartTransactionCalled] +
        [if ok then TransactionStarted(auth.idToken) else RaiseError(MeterStartFailed)]
    {
      MarkStart();
      label started:
      var k := 0;
      while k < |env.meters|
        invariant 0 <= k <= |env.meters|
        invariant trace == old@started(trace) && tx == old@started(tx)
        invariant config.failOnMeterErrors ==> forall j :: 0 <= j < k ==> env.meters[j].status != MeterUnexpectedError
      {
        if env.meters[k].status == MeterUnexpectedError {
          if config.failOnMeterErrors {
            Publish(RaiseError(MeterStartFailed));
            return false;
          }
        }
        k := k + 1;
      }
      Publish(TransactionStarted(auth.idToken));
      return true;
    }

    /** The reason and token of the latest cancel since the transaction start, if there was one. */
    ghost function LatestCancel(): Option<Cancel>
      reads `trace
    {
      trace.mon.finish.cancel
    }

    /** Ends the active transaction with its final data, and reports it. */
    method PublishFinished(t: TransactionContext)
      requires Inv() && tx.active && !t.active && t.stopToken == tx.stopToken
      requires t.stopReason == (if tx.stopReason.None? then Some(EVDisconnected) else tx.stopReason)
      modifies `tx, `trace
      ensures Inv() && IsCold() == old(IsCold())
      ensures tx == t && !SinceStop()
      ensures t.stopReason == Some(ExpectedFinish(old(LatestCancel())).reason)
      ensures trace.events == old(trace).events +
        [TransactionFinished(ExpectedFinish(old(LatestCancel())).reason, ExpectedFinish(old(LatestCancel())).token)]
    {
      assert Recall(0);
      tx := t;
      trace := Emit(trace, TransactionFinished(t.stopReason.value, t.stopToken));
    }

    /** Reports the latest cancel since the start, or that the EV disconnected if there was none. */
    method StopTransaction(env: Env)
      requires Inv() && tx.active
      modifies `tx, `trace
      ensures Inv() && IsCold() == old(IsCold())
      ensures !tx.active && tx.stopToken == old(tx).stopToken
      ensures tx.stopReason == Some(ExpectedFinish(old(LatestCancel())).reason)
      ensures match FirstAnswer(env.meters)
        case Some(MeterAnswer(MeterOk, v, w)) => tx.startMeterValue == v && tx.stopMeterValue == w
        case _ => tx.startMeterValue == old(tx).startMeterValue && tx.stopMeterValue == old(tx).stopMeterValue
      ensures trace.events == old(trace).events + [Simple(ChargingFinished)] +
        [TransactionFinished(ExpectedFinish(old(LatestCancel())).reason, ExpectedFinish(old(LatestCancel())).token)]
    {
      // no lock is given up before the transaction is reported
      var stopped := tx.(active := false);
      if stopped.stopReason == None {
        stopped := stopped.(stopReason := Some(EVDisconnected));
      }
      ghost var asked := stopped;
      var k := 0;
      while k < |env.meters|
        invariant 0 <= k <= |env.meters|
        invariant stopped == asked
        invariant FirstAnswer(env.meters) == FirstAnswer(env.meters[k..])
      {
        var answer := env.meters[k];
        if answer.status == MeterUnexpectedError {
          break;
        } else if answer.status == MeterOk {
          stopped := stopped.(startMeterValue := answer.startValue, stopMeterValue := answer.stopValue);
          break;
        }
        k := k + 1;
      }
      Publish(Simple(ChargingFinished));
      PublishFinished(stopped);
    }

    /** Withdraws an authorization that is not in use; without one, reports the plug-in timeout. */
    method DeauthorizeInternal() returns (withdrawn: bool)
      requires Inv()
      modifies `auth, `trace
      ensures Inv() && IsCold() == old(IsCold())
      ensures withdrawn <==>
        (old(auth).authorized &&
         (currentState == Disabled || currentState == Idle || currentState == WaitingForAuthentication))
      ensures auth == if withdrawn
        then old(auth).(sessionActive := false, authorized := false, sessionUuid := "") else old(auth)
      ensures trace.events == old(trace).events +
        if !old(auth).sessionActive then []
        else if withdrawn then [Simple(Deauthorized), Simple(SessionFinished)]
        else if currentState == Disabled || currentState == Idle || currentState == WaitingForAuthentication
        then [Simple(Deauthorized), Simple(PluginTimeout)] +
             if config.raiseMrec9 then [RaiseError(AuthorizationTimeout)] else []
        else [Simple(Deauthorized)]
    {
      AuthNeedsSession();
      if auth.sessionActive {
        Publish(Simple(Deauthorized));
        if currentState == Disabled || currentState == Idle || currentState == WaitingForAuthentication {
          if !auth.authorized {
            Publish(Simple(PluginTimeout));
            if config.raiseMrec9 {
              Publish(RaiseError(AuthorizationTimeout));
            }
            return false;
          }
          StopSession();
          return true;
        }
      }
      return false;
    }

    // ------------------------------------------------------------ transitions

    /** Enters a state that waits for nothing; a chargeable one only after a transaction start. */
    method MoveTo(next: EvseState)
      requires Inv()
      requires next != TStepEF && next != TStepX1 && next != SwitchPhases
      requires Chargeable(next) ==> NeedsStart(currentState, ret) || tx.active
      modifies `currentState
      ensures Inv() && currentState == next
    {
      assert Recall(0);
      currentState := next;
    }

    /** Enters T_step_EF, to return to `back` with the given PWM (0 stands for X1). */
    method EnterEF(back: EvseState, pwmAfter: real, ampereAfter: real)
      requires Inv()
      requires
        || back == WaitingForAuthentication
        || (back == PrepareCharging && (NeedsStart(currentState, ret) || tx.active))
      requires IsNominal(pwmAfter) ==> pwmAfter == AmpereToDutyCycle(ampereAfter)
      requires pwmAfter != 0.0 ==> IsCold()
      modifies `ret, `currentState
      ensures Inv() && currentState == TStepEF
      ensures ret == old(ret).(efState := back, efPwm := pwmAfter, efAmpere := ampereAfter)
    {
      assert Recall(0);
      ret := ret.(efState := back, efPwm := pwmAfter, efAmpere := ampereAfter);
      currentState := TStepEF;
    }

    /** Enters T_step_X1 on the way to nominal PWM. */
    method EnterX1()
      requires Inv() && tx.active
      modifies `ret, `currentState
      ensures Inv() && currentState == TStepX1
      ensures ret == old(ret).(x1State := PrepareCharging, x1Pwm := 0.0, efAmpere := 0.0)
    {
      assert Recall(0);
      ret := ret.(x1State := PrepareCharging, x1Pwm := 0.0, efAmpere := 0.0);
      currentState := TStepX1;
    }

    /** Enters T_step_X1 with a T_step_EF behind it, to restart the session. */
    method EnterX1ThenEF()
      requires Inv()
      modifies `ret, `currentState
      ensures Inv() && currentState == TStepX1
      ensures ret == old(ret).(
        x1State := TStepEF, x1Pwm := 0.0, efState := WaitingForAuthentication, efPwm := 0.0, efAmpere := 0.0)
    {
      assert Recall(0);
      ret := ret.(x1State := TStepEF, x1Pwm := 0.0, efState := WaitingForAuthentication, efPwm := 0.0, efAmpere := 0.0);
      currentState := TStepX1;
    }

    /** Enters SwitchPhases, to return to `back`. */
    method EnterSwitchPhases(back: EvseState)
      requires Inv() && Chargeable(currentState) && (back == PrepareCharging || back == WaitingForEnergy)
      modifies `ret, `currentState
      ensures Inv() && currentState == SwitchPhases && ret == old(ret).(switchState := back)
    {
      assert Recall(0);
      ret := ret.(switchState := back);
      currentState := SwitchPhases;
    }

    /** Returns from a waiting state to the state that its entry stored. */
    method ReturnFromWaiting()
      requires Inv() && (currentState == TStepEF || currentState == TStepX1 || currentState == SwitchPhases)
      modifies `currentState
      ensures Inv()
      ensures currentState == match old(currentState)
        case TStepEF => ret.efState
        case TStepX1 => ret.x1State
        case _ => ret.switchState
      ensures match old(currentState)
        case TStepEF => currentState == WaitingForAuthentication || currentState == PrepareCharging
        case TStepX1 => currentState == TStepEF || currentState == PrepareCharging
        case _ => currentState == PrepareCharging || currentState == WaitingForEnergy
    {
      assert Recall(0);
      currentState := match currentState
        case TStepEF => ret.efState
        case TStepX1 => ret.x1State
        case _ => ret.switchState;
    }

    /** Leaves a charging state because no energy is available. */
    method PauseChargingWaitForPowerInternal() returns (paused: bool)
      requires Inv()
      modifies `currentState
      ensures Inv()
      ensures paused <==> (old(currentState) == Charging || old(currentState) == ChargingPausedEV)
      ensures currentState == if paused then WaitingForEnergy else old(currentState)
    {
      if currentState == Charging || currentState == ChargingPausedEV {
        MoveTo(WaitingForEnergy);
        return true;
      }
      return false;
    }

    // ---------------------------------------------------------- state machine

    /** A freshly initialised state only leaves to one of lower rank; any other to one of rank at most 3. */
    static predicate Descends(st: EvseState, next: EvseState, init: bool) {
      next == st || (Rank(next) <= 3 && (init ==> Rank(next) < Rank(st)))
    }

    method PassDisabled(init: bool)
      requires Inv() && currentState == Disabled
      modifies `pwm, `trace
      ensures Inv()
      ensures init ==> pwm.lastDc == 0.0 && !pwm.running
      ensures trace.events == old(trace).events + if init then [Simple(EvDisabled), SetPwmF] else []
    {
      if init {
        Publish(Simple(EvDisabled));
        PwmF();
      }
    }

    method PassReplug(init: bool)
      requires Inv() && currentState == Replug
      modifies `soc, `trace
      ensures Inv()
      ensures soc == if init && old(soc).enabled then old(soc).(remaining := SOC_REPLUG_TIMER_MS) else old(soc)
      ensures trace.events == old(trace).events + if init then [Simple(ReplugStarted)] else []
    {
      if init {
        Publish(Simple(ReplugStarted));
        if soc.enabled {
          soc := soc.(remaining := SOC_REPLUG_TIMER_MS);
        }
      }
    }

    /** Idle drops a transaction that is still active, without a report. */
    method DropTransaction()
      requires Inv() && currentState == Idle && pwm.lastDc == 1.0
      modifies `tx, `trace
      ensures Inv()
      ensures tx == old(tx).(active := false) && (old(tx).active ==> SinceStop())
      ensures trace.events == old(trace).events + [IdleInitialised]
    {
      assert Recall(0);
      tx := tx.(active := false);
      trace := Emit(trace, IdleInitialised);
    }

    method ForgetCar()
      modifies `bcb, `iecAllow, `hlc, `current, `legacyWakeupDone
      ensures !iecAllow && !legacyWakeupDone && bcb == old(bcb).(count := 0, started := false)
      ensures hlc == old(hlc).(allow := false, active := config.mode == DC, terminatePause := Unknown)
      ensures current == old(current).(cable := 0.0)
    {
      BcbToggleReset();
      iecAllow := false;
      // AC may switch to HLC later in the session, DC is always HLC
      hlc := hlc.(active := config.mode != AC, allow := false);
      current := current.(cable := 0.0);
      hlc := hlc.(terminatePause := Unknown);
      legacyWakeupDone := false;
    }

    /** Initialising Idle forgets everything about the last car. */
    method InitIdle()
      requires Inv() && currentState == Idle
      modifies `bcb, `iecAllow, `hlc, `current, `legacyWakeupDone, `pwm, `auth, `tx, `trace
      ensures Inv()
      ensures !iecAllow && !legacyWakeupDone && !bcb.started && bcb.count == 0
      ensures hlc == old(hlc).(allow := false, active := config.mode == DC, terminatePause := Unknown)
      ensures current == old(current).(cable := 0.0)
      ensures pwm == old(pwm).(running := false, lastDc := 1.0, setAmpere := 0.0, fActive := false)
      ensures auth == if old(auth).authorized
        then old(auth).(sessionActive := false, authorized := false, sessionUuid := "") else old(auth)
      ensures tx == old(tx).(active := false) && (old(tx).active ==> SinceStop())
      ensures old(trace).events + [SetPwmOff] <= trace.events && |trace.events| >= 2
      ensures trace.events[|trace.events| - 2..] == [IdleInitialised, ClearErrorsOnUnplug]
    {
      ForgetCar();
      PwmOff();
      ForgetSession();
    }

    /** Drops authorization and transaction; errors of the last session are cleared. */
    method ForgetSession()
      requires Inv() && currentState == Idle && pwm.lastDc == 1.0
      modifies `auth, `tx, `trace
      ensures Inv()
      ensures auth == if old(auth).authorized
        then old(auth).(sessionActive := false, authorized := false, sessionUuid := "") else old(auth)
      ensures tx == old(tx).(active := false) && (old(tx).active ==> SinceStop())
      ensures old(trace).events <= trace.events && |trace.events| >= 2
      ensures trace.events[|trace.events| - 2..] == [IdleInitialised, ClearErrorsOnUnplug]
    {
      var _ := DeauthorizeInternal();
      DropTransaction();
      Publish(ClearErrorsOnUnplug);
    }

    /** Waits for a car. */
    method PassIdle(init: bool)
      requires Inv() && currentState == Idle
      modifies `bcb, `iecAllow, `hlc, `current, `legacyWakeupDone, `pwm, `auth, `tx, `trace
      ensures Inv()
      ensures tx == old(tx).(active := old(tx).active && !init) && (old(tx).active && init ==> SinceStop())
      ensures auth == if init && old(auth).authorized
        then old(auth).(sessionActive := false, authorized := false, sessionUuid := "") else old(auth)
      ensures iecAllow == (old(iecAllow) && !init)
      ensures !init ==> hlc == old(hlc) && current == old(current) && pwm == old(pwm) && trace == old(trace)
      ensures init ==> hlc == old(hlc).(allow := false, active := config.mode == DC, terminatePause := Unknown)
    {
      if init {
        InitIdle();
      }
    }

    /** HLC as configured; it may be switched off later for the session only. */
    method SelectHlc()
      requires Inv()
      modifies `hlc
      ensures Inv()
      ensures hlc == old(hlc).(
        acEnabled := if config.mode == AC then config.acHlcEnabled else old(hlc).acEnabled,
        use5Percent := config.mode == DC || (config.acHlcEnabled && config.acHlcUse5Percent))
    {
      hlc := hlc.(use5Percent := false);
      if config.mode == AC {
        hlc := hlc.(acEnabled := config.acHlcEnabled);
        if hlc.acEnabled {
          hlc := hlc.(use5Percent := config.acHlcUse5Percent);
        }
      } else {
        hlc := hlc.(use5Percent := true);
      }
    }

    method ResetWarnings()
      requires Inv()
      modifies `ppWarningPrinted, `noEnergyWarningPrinted
      ensures Inv() && !ppWarningPrinted && !noEnergyWarningPrinted
    {
      ppWarningPrinted := false;
      noEnergyWarningPrinted := false;
    }

    /** The first statements of WaitingForAuthentication take any grant back before the PWM may start. */
    method InitWaitingForAuthentication(env: Env)
      requires Inv() && currentState == WaitingForAuthentication
      modifies `ppWarningPrinted, `noEnergyWarningPrinted, `auth, `hlc, `pwm, `trace
      ensures Inv()
      ensures !Granted()
      ensures if old(auth).sessionActive || lastState == Replug then auth == old(auth)
        else auth == old(auth).(
          sessionActive := true, authorized := false, sessionUuid := env.newId, startReason := EVConnected)
      ensures hlc == old(hlc).(
        acEnabled := if config.mode == AC then config.acHlcEnabled else old(hlc).acEnabled,
        use5Percent := config.mode == DC || (config.acHlcEnabled && config.acHlcUse5Percent))
      ensures pwm == if hlc.use5Percent
        then old(pwm).(lastDc := PWM_5_PERCENT, running := true, lastUpdate := env.steadyNow, fActive := false)
        else old(pwm)
      ensures trace.events == old(trace).events + [AllowPowerOn(false, ReasonPowerOff)] +
        (if lastState == Replug then [Simple(ReplugFinished)]
         else if old(auth).sessionActive then [Simple(AuthRequired)]
         else [SessionStarted(EVConnected, None), Simple(AuthRequired)]) +
        (if hlc.use5Percent then [SetPwm(PWM_5_PERCENT)] else [])
    {
      hide Inv;
      ResetWarnings();
      SendPowerOff();
      if lastState == Replug {
        Publish(Simple(ReplugFinished));
      } else {
        if !auth.sessionActive {
          StartSession(false, env.newId);
        }
        Publish(Simple(AuthRequired));
      }
      SelectHlc();
      if hlc.use5Percent {
        UpdatePwm5Percent(env.steadyNow);
      }
    }

    /** Waits for the cable rating of an AC socket; reports missing energy in DC. */
    method CheckCableAndEnergy(env: Env) returns (ready: bool)
      requires Inv() && currentState == WaitingForAuthentication
      modifies `current, `ppWarningPrinted, `noEnergyWarningPrinted, `trace
      ensures Inv() && trace.mon == old(trace).mon
      ensures ready <==> !(socket && current.cable == 0.0)
      ensures current ==
        if socket && old(current).cable == 0.0 then old(current).(cable := env.ppAmpacity) else old(current)
      ensures
        var warns := ready && config.mode == DC && !(hlc.limits.current > 0.0 && hlc.limits.power > 0.0);
        && noEnergyWarningPrinted == (old(noEnergyWarningPrinted) || warns)
        && trace.events == old(trace).events + if warns && !old(noEnergyWarningPrinted) then [HlcNoEnergy] else []
    {
      hide Inv;
      if socket && current.cable == 0.0 {
        current := current.(cable := env.ppAmpacity);
        if current.cable == 0.0 {
          ppWarningPrinted := true;
          return false;
        }
      }
      if config.mode == DC {
        if !(hlc.limits.current > 0.0 && hlc.limits.power > 0.0) {
          if !noEnergyWarningPrinted {
            noEnergyWarningPrinted := true;
            Publish(HlcNoEnergy);
          }
        }
      }
      return true;
    }

    /** A meter keeps a transaction from starting. */
    predicate MetersFail(env: Env)
      reads `config
    {
      config.failOnMeterErrors && exists k :: 0 <= k < |env.meters| && env.meters[k].status == MeterUnexpectedError
    }

    /**
     Did this pass get through the authorization, i.e. is the transaction running as far as the charger is
     concerned?
     */
    predicate Passes(env: Env)
      reads `auth, `tx, `config
    {
      auth.authorized && ((tx.active && !auth.authorizedPnc) || !MetersFail(env))
    }

    /** The transaction is running and the user did not use Plug and Charge: which PWM, and which way there? */
    method LeaveForCharging()
      requires Inv() && currentState == WaitingForAuthentication && IsCold() && tx.active && !auth.authorizedPnc
      modifies `currentState, `ret, `hlc
      ensures Inv() && currentState == AuthTarget(config, false, old(hlc))
      ensures hlc == old(hlc).(use5Percent :=
        if config.mode == DC || !hlc.acEnabled then old(hlc).use5Percent else config.acEnforceHlc)
    {
      if config.mode == AC {
        if hlc.acEnabled {
          if config.acEnforceHlc {
            hlc := hlc.(use5Percent := true);
            MoveTo(PrepareCharging);
          } else if !hlc.matchingStarted {
            hlc := hlc.(use5Percent := false);
            EnterEF(PrepareCharging, 0.0, 0.0);
          } else if hlc.use5Percent {
            hlc := hlc.(use5Percent := false);
            EnterX1();
          } else {
            MoveTo(PrepareCharging);
          }
        } else {
          MoveTo(PrepareCharging);
        }
      } else {
        MoveTo(PrepareCharging);
      }
    }

    /** Leaves WaitingForAuthentication exactly when authorized and past the meters, to the state of ISO 15118-3. */
    method ProceedIfAuthorized(env: Env)
      requires Inv() && currentState == WaitingForAuthentication && IsCold()
      modifies `currentState, `ret, `tx, `hlc, `trace
      ensures Inv() && IsCold()
      ensures currentState ==
        if old(Passes(env)) then AuthTarget(config, auth.authorizedPnc, old(hlc)) else WaitingForAuthentication
      ensures old(Passes(env)) ==> !currentState.WaitingForAuthentication? && Rank(currentState) < 3
      ensures old(Passes(env)) && config.mode.DC? ==> currentState.PrepareCharging?
      ensures old(Passes(env)) || old(tx).active ==> tx.active
      ensures !auth.authorized ==> tx == old(tx)
      ensures hlc == old(hlc).(use5Percent :=
        if !old(Passes(env)) || config.mode == DC then old(hlc).use5Percent
        else if auth.authorizedPnc then true
        else if !hlc.acEnabled then old(hlc).use5Percent
        else config.acEnforceHlc)
    {
      hide Inv;
      if auth.authorized && !auth.authorizedPnc {
        // if the session is restarting, the transaction may already be active
        if !tx.active {
          var ok := StartTransaction(env);
          if !ok {
            return;
          }
        }
        LeaveForCharging();
      } else if auth.authorized && auth.authorizedPnc {
        var ok := StartTransaction(env);
        if !ok {
          return;
        }
        if config.mode == AC {
          hlc := hlc.(use5Percent := true);
        }
        MoveTo(PrepareCharging);
      }
    }

    method PassWaitingForAuthentication(init: bool, env: Env)
      requires Inv() && currentState == WaitingForAuthentication && (!init ==> IsCold())
      modifies `ppWarningPrinted, `noEnergyWarningPrinted, `auth, `hlc, `pwm, `current, `currentState, `ret, `tx, `trace
      ensures Inv() && IsCold()
      ensures currentState == WaitingForAuthentication <==> !old(Passes(env)) || (socket && current.cable == 0.0)
      ensures env.ppAmpacity != 0.0 ==> !(socket && current.cable == 0.0)
      ensures currentState != WaitingForAuthentication ==>
        tx.active && (config.mode == DC ==> currentState == PrepareCharging)
      ensures auth.authorized == old(auth).authorized && hlc.active == old(hlc).active
      ensures auth.sessionActive == (old(auth).sessionActive || (init && lastState != Replug))
      ensures !old(auth).authorized ==> tx == old(tx)
      ensures old(tx).active ==> tx.active
      ensures Descends(WaitingForAuthentication, currentState, init)
    {
      hide Inv;
      AuthNeedsSession();
      if init {
        InitWaitingForAuthentication(env);
      }
      ProceedIfReady(env);
    }

    /** Past the initialisation: proceeds once the cable is known and the user is authorized. */
    method ProceedIfReady(env: Env)
      requires Inv() && currentState == WaitingForAuthentication && IsCold()
      modifies `ppWarningPrinted, `noEnergyWarningPrinted, `hlc, `current, `currentState, `ret, `tx, `trace
      ensures Inv() && IsCold()
      ensures currentState == WaitingForAuthentication <==> !old(Passes(env)) || (socket && current.cable == 0.0)
      ensures env.ppAmpacity != 0.0 ==> !(socket && current.cable == 0.0)
      ensures currentState != WaitingForAuthentication ==>
        tx.active && (config.mode == DC ==> currentState == PrepareCharging)
      ensures hlc.active == old(hlc).active
      ensures !auth.authorized ==> tx == old(tx)
      ensures old(tx).active ==> tx.active
      ensures Descends(WaitingForAuthentication, currentState, true)
    {
      hide Inv, AuthTarget;
      var ready := CheckCableAndEnergy(env);
      if ready {
        ProceedIfAuthorized(env);
      }
    }

    method PassSwitchPhases(init: bool, inState: int)
      requires Inv() && currentState == SwitchPhases && (init ==> inState == 0)
      modifies `pwm, `phases, `currentState, `trace
      ensures Inv()
      ensures currentState == if inState >= config.switchDelayS * 1000 then ret.switchState else SwitchPhases
      ensures phases == if currentState == SwitchPhases then old(phases) else old(phases).(ongoing := false)
      ensures trace.events == old(trace).events +
        (if init then [Simple(SwitchingPhases), if config.switchCpStateF then SetPwmF else SetPwmOff] else []) +
        (if currentState == SwitchPhases then [] else [SwitchThreePhases(phases.three)])
      ensures Descends(SwitchPhases, currentState, init)
    {
      if init {
        Publish(Simple(SwitchingPhases));
        if config.switchCpStateF {
          PwmF();
        } else {
          PwmOff();
        }
      }
      if inState >= config.switchDelayS * 1000 {
        Publish(SwitchThreePhases(phases.three));
        StopSwitching();
        ReturnFromWaiting();
      }
    }

    method StopSwitching()
      requires Inv()
      modifies `phases
      ensures Inv() && phases == old(phases).(ongoing := false)
    {
      phases := phases.(ongoing := false);
    }

    method MarkX1Pause(paused: bool)
      requires Inv() && currentState == TStepEF
      modifies `ret
      ensures Inv() && ret == old(ret).(efX1Pause := paused)
    {
      assert Recall(0);
      ret := ret.(efX1Pause := paused);
    }

    /** State F for 4 s, then X1 for 750 ms, then back. */
    method PassTStepEF(init: bool, inState: int, env: Env)
      requires Inv() && currentState == TStepEF && (init ==> inState == 0)
      modifies `ret, `pwm, `currentState, `trace
      ensures Inv()
      ensures currentState == if inState >= T_STEP_EF + STAY_IN_X1_AFTER_TSTEP_EF_MS then ret.efState else TStepEF
      ensures init ==> pwm.lastDc == 0.0
      ensures currentState != TStepEF ==> pwm.lastDc == if ret.efPwm == 0.0 then 1.0 else ret.efPwm
      ensures trace.events == old(trace).events + (if init then [SetPwmF] else []) +
        (if currentState != TStepEF then [if ret.efPwm == 0.0 then SetPwmOff else SetPwm(ret.efPwm)]
         else if inState >= T_STEP_EF && (init || !old(ret).efX1Pause) then [SetPwmOff]
         else [])
      ensures Descends(TStepEF, currentState, init)
    {
      if init {
        MarkX1Pause(false);
        PwmF();
      }
      if inState >= T_STEP_EF + STAY_IN_X1_AFTER_TSTEP_EF_MS {
        ResumePwmAfterEF(env.steadyNow);
        ReturnFromWaiting();
      } else if inState >= T_STEP_EF && !ret.efX1Pause {
        MarkX1Pause(true);
        PwmOff();
      }
    }

    /** X1 for 3 s, then back; the stored PWM is always "off". */
    method PassTStepX1(init: bool, inState: int)
      requires Inv() && currentState == TStepX1 && (init ==> inState == 0)
      modifies `pwm, `currentState, `trace
      ensures Inv()
      ensures currentState == if inState >= T_STEP_X1 then ret.x1State else TStepX1
      ensures currentState != TStepX1 || init ==> pwm.lastDc == 1.0
      ensures trace.events == old(trace).events + (if init then [SetPwmOff] else []) +
        (if currentState != TStepX1 then [SetPwmOff] else [])
      ensures Descends(TStepX1, currentState, init)
    {
      if init {
        PwmOff();
      }
      if inState >= T_STEP_X1 {
        assert ret.x1Pwm == 0.0 by { assert Recall(0); }
        PwmOff();
        ReturnFromWaiting();
      }
    }

    /** The contactors may be granted in AC: the EV asked, and HLC agreed where it has a say. */
    predicate CloseRequested()
      reads `iecAllow, `hlc
    {
      iecAllow && (hlc.use5Percent ==> hlc.allow)
    }

    /** Where AC PrepareCharging goes, given how long it lasted and whether the EV was already woken up once. */
    function PrepareTarget(inState: int, wokenUp: bool): EvseState
      reads `socket, `current, `currentState, `iecAllow, `hlc
    {
      if !(MaxCurrentInternal() > 5.9) then WaitingForEnergy
      else if CloseRequested() then Charging
      else if hlc.active then PrepareCharging
      else if !wokenUp && inState > LEGACY_WAKEUP_TIMEOUT then TStepEF
      else if wokenUp && inState > PREPARING_TIMEOUT_PAUSED_BY_EV then ChargingPausedEV
      else PrepareCharging
    }

    /** AC part of PrepareCharging, past the error check. */
    method ProceedToCharging(inState: int, env: Env)
      requires Inv() && currentState == PrepareCharging && config.mode == AC
      modifies `currentState, `legacyWakeupDone, `ret, `current, `trace
      ensures Inv() && Granted() == old(Granted())
      ensures currentState == PrepareTarget(inState, old(legacyWakeupDone))
      ensures legacyWakeupDone == (old(legacyWakeupDone) || currentState == TStepEF)
      ensures currentState == Charging ==>
        |trace.events| > 0 && trace.events[|trace.events| - 1] == Simple(ChargingStarted)
      ensures currentState == TStepEF ==>
        && ret.efState == PrepareCharging
        && ret.efAmpere == MaxCurrentInternal() && ret.efPwm == AmpereToDutyCycle(ret.efAmpere)
    {
      var available := PowerAvailable(env.steadyNow);
      if !available {
        MoveTo(WaitingForEnergy);
      } else if (iecAllow && !hlc.use5Percent) || (iecAllow && hlc.allow && hlc.use5Percent) {
        Publish(Simple(ChargingStarted));
        MoveTo(Charging);
      } else if !hlc.active && !legacyWakeupDone && inState > LEGACY_WAKEUP_TIMEOUT {
        WakeUp();
      } else if !hlc.active && legacyWakeupDone && inState > PREPARING_TIMEOUT_PAUSED_BY_EV {
        MoveTo(ChargingPausedEV);
      }
    }

    /** One legacy wake-up by a T_step_EF that returns with the present current (A.5.3 of IEC 61851-1). */
    method WakeUp()
      requires Inv() && currentState == PrepareCharging
      modifies `legacyWakeupDone, `ret, `currentState
      ensures Inv() && legacyWakeupDone && currentState == TStepEF
      ensures ret == old(ret).(efState := PrepareCharging,
        efPwm := AmpereToDutyCycle(MaxCurrentInternal()), efAmpere := MaxCurrentInternal())
    {
      legacyWakeupDone := true;
      assert IsCold() by { assert Recall(0); }
      EnterEF(PrepareCharging, AmpereToDutyCycle(MaxCurrentInternal()), MaxCurrentInternal());
    }

    /** Initialising PrepareCharging announces it, and missing energy in DC. */
    method InitPrepareCharging()
      requires Inv() && currentState == PrepareCharging
      modifies `bcb, `trace
      ensures Inv() && trace.mon == old(trace).mon
      ensures bcb == old(bcb).(count := 0, started := false)
      ensures trace.events == old(trace).events + [Simple(EvPrepareCharging)] +
        if config.mode == DC && !(hlc.limits.current > 0.0 && hlc.limits.power > 0.0) then [HlcNoEnergy] else []
    {
      Publish(Simple(EvPrepareCharging));
      BcbToggleReset();
      if config.mode == DC {
        if !(hlc.limits.current > 0.0 && hlc.limits.power > 0.0) {
          Publish(HlcNoEnergy);
        }
      }
    }

    /**
     Waits for the EV. In DC the contactors are granted for the cable check as soon as both sides ask,
     and that is the one grant of the whole machine that may meet a fatal error.
     */
    method PassPrepareCharging(init: bool, inState: int, env: Env)
      requires Inv() && currentState == PrepareCharging && (init ==> inState == 0)
      modifies `bcb, `stateStarted, `pwm, `fatal, `currentState, `legacyWakeupDone, `ret, `current, `trace
      ensures Inv()
      ensures Granted() <==> (old(Granted()) || (config.mode == DC && hlc.allow && iecAllow)) && !old(RoutineDue())
      ensures old(fatal).shutdownType != NoShutdown || config.mode == DC ==> currentState == PrepareCharging
      ensures old(fatal).shutdownType == NoShutdown && config.mode == AC ==>
        currentState == PrepareTarget(inState, old(legacyWakeupDone))
      ensures Descends(PrepareCharging, currentState, init)
      ensures fatal.shutdownType == fatal.lastShutdownType == old(fatal).shutdownType
    {
      if init {
        InitPrepareCharging();
      }
      var err := GrantThenCheck(env);
      if !err {
        PrepareUndisturbed(inState, env);
      }
    }

    /** The cable check is granted before the errors are looked at; an error restarts the time in this state. */
    method GrantThenCheck(env: Env) returns (err: bool)
      requires Inv() && currentState == PrepareCharging
      modifies `stateStarted, `pwm, `fatal, `trace
      ensures Inv()
      ensures err <==> old(fatal).shutdownType != NoShutdown
      ensures fatal.shutdownType == fatal.lastShutdownType == old(fatal).shutdownType
      ensures stateStarted == if err then env.sysNow else old(stateStarted)
      ensures Granted() <==> (old(Granted()) || (config.mode == DC && hlc.allow && iecAllow)) && !old(RoutineDue())
    {
      GrantForCableCheck();
      err := StopChargingOnFatalErrorInternal(env.steadyNow);
      if err {
        stateStarted := env.sysNow;
      }
    }

    method PrepareUndisturbed(inState: int, env: Env)
      requires Inv() && currentState == PrepareCharging
      modifies `pwm, `currentState, `legacyWakeupDone, `ret, `current, `trace
      ensures Inv() && Granted() == old(Granted())
      ensures currentState ==
        if config.mode == AC then PrepareTarget(inState, old(legacyWakeupDone)) else PrepareCharging
      ensures pwm.lastDc == if hlc.use5Percent then PWM_5_PERCENT else AmpereToDutyCycle(old(MaxCurrentInternal()))
    {
      EnablePwm(env);
      if config.mode == AC {
        ProceedToCharging(inState, env);
      }
    }

    /** Nominal or 5 percent PWM, whichever the session uses. */
    method EnablePwm(env: Env)
      requires Inv() && Chargeable(currentState)
      modifies `pwm, `trace
      ensures Inv() && Granted() == old(Granted())
      ensures pwm.lastDc == if hlc.use5Percent then PWM_5_PERCENT else AmpereToDutyCycle(MaxCurrentInternal())
      ensures trace.events == old(trace).events + if pwm.lastDc == old(pwm).lastDc then [] else [SetPwm(pwm.lastDc)]
    {
      if !hlc.use5Percent {
        UpdatePwmNowIfChangedAmpere(MaxCurrentInternal(), env.steadyNow);
      } else {
        UpdatePwm5PercentIfChanged(env.steadyNow);
      }
    }

    /** In DC, closes the contactors for the cable check. */
    method GrantForCableCheck()
      requires Inv() && currentState == PrepareCharging
      modifies `trace
      ensures Inv()
      ensures Granted() == (old(Granted()) || (config.mode == DC && hlc.allow && iecAllow))
      ensures trace.events == old(trace).events +
        if config.mode == DC && hlc.allow && iecAllow then [AllowPowerOn(true, DCCableCheck)] else []
    {
      if config.mode == DC {
        if hlc.allow && iecAllow {
          SendPowerOn(DCCableCheck);
        }
      }
    }

    /** Signals state F when a fatal error first shows in basic charging, and X1 after the configured time. */
    method SignalFault(env: Env)
      requires Inv() && currentState == Charging
      modifies `pwm, `trace
      ensures Inv() && Granted() == old(Granted())
      ensures
        var inError := if fatal.timerRunning then env.steadyNow - fatal.since else 0;
        var f := fatal.shutdownType != NoShutdown && fatal.lastShutdownType == NoShutdown;
        var off :=
          (f || old(pwm).fActive) && inError > config.stateFAfterFaultMs && fatal.shutdownType == EmergencyShutdown;
        pwm ==
          if config.stateFAfterFaultMs <= 0 || hlc.active then old(pwm)
          else if off then old(pwm).(running := false, lastDc := 1.0, setAmpere := 0.0, fActive := false)
          else if f then old(pwm).(running := false, lastDc := 0.0, setAmpere := 0.0, fActive := true)
          else old(pwm)
    {
      if config.stateFAfterFaultMs > 0 && !hlc.active {
        if fatal.shutdownType != NoShutdown && fatal.lastShutdownType == NoShutdown {
          PwmF();
        }
        var inError := if fatal.timerRunning then env.steadyNow - fatal.since else 0;
        if pwm.fActive && inError > config.stateFAfterFaultMs && fatal.shutdownType == EmergencyShutdown {
          PwmOff();
        }
      }
    }

    /** Grants power when AC charging starts or resumes; keeps the PWM up to date afterwards. */
    method KeepCharging(init: bool, env: Env)
      requires Inv() && currentState == Charging
      requires fatal.shutdownType == NoShutdown && fatal.lastShutdownType == NoShutdown
      modifies `legacyWakeupDone, `pwm, `trace
      ensures Inv()
      ensures Granted() <==> init || old(Granted())
      ensures init ==> !legacyWakeupDone
      ensures init ==>
        old(trace).events + (if lastState != PrepareCharging then [Simple(ChargingResumed)] else []) +
        [AllowPowerOn(true, FullPowerCharging)] <= trace.events
      ensures init ==> pwm.lastDc == if hlc.use5Percent then PWM_5_PERCENT else AmpereToDutyCycle(MaxCurrentInternal())
    {
      if init {
        if lastState != PrepareCharging {
          Publish(Simple(ChargingResumed));
        }
        AllowWakeUp();
        SendPowerOn(FullPowerCharging);
        EnablePwm(env);
      } else {
        // at most every five seconds
        if !hlc.use5Percent {
          UpdatePwmMaxEvery5Seconds(MaxCurrentInternal(), env.steadyNow);
        }
      }
    }

    method AllowWakeUp()
      requires Inv()
      modifies `legacyWakeupDone
      ensures Inv() && !legacyWakeupDone
    {
      legacyWakeupDone := false;
    }

    /** Charges unless an error stops it; leaves only for lack of energy. */
    method PassCharging(init: bool, env: Env)
      requires Inv() && currentState == Charging
      modifies `hlc, `pwm, `fatal, `current, `currentState, `legacyWakeupDone, `trace
      ensures Inv()
      ensures hlc == if init then old(hlc).(terminatePause := Unknown) else old(hlc)
      ensures currentState ==
        if old(fatal).shutdownType == NoShutdown && config.mode == AC && !(MaxCurrentInternal() > 5.9)
        then WaitingForEnergy else Charging
      ensures old(fatal).shutdownType != NoShutdown ==> (Granted() <==> old(Granted() && !RoutineDue()))
      ensures old(fatal).shutdownType == NoShutdown ==>
        (Granted() <==> (init && currentState == Charging) || old(Granted()))
      ensures Descends(Charging, currentState, init)
      ensures fatal.shutdownType == old(fatal).shutdownType
    {
      if init {
        ForgetTerminatePause();
      }
      SignalFault(env);
      var err := StopChargingOnFatalErrorInternal(env.steadyNow);
      if err {
        return;
      }
      if config.mode == DC {
        if init {
          SendPowerOn(FullPowerCharging);
        }
      } else {
        ChargeAC(init, env);
      }
    }

    method ForgetTerminatePause()
      requires Inv()
      modifies `hlc
      ensures Inv() && hlc == old(hlc).(terminatePause := Unknown)
    {
      hlc := hlc.(terminatePause := Unknown);
    }

    method ChargeAC(init: bool, env: Env)
      requires Inv() && currentState == Charging
      requires fatal.shutdownType == NoShutdown && fatal.lastShutdownType == NoShutdown
      modifies `pwm, `current, `currentState, `legacyWakeupDone, `trace
      ensures Inv()
      ensures currentState == if MaxCurrentInternal() > 5.9 then Charging else WaitingForEnergy
      ensures Granted() <==> (init && currentState == Charging) || old(Granted())
    {
      CheckSoftOverCurrent(env.steadyNow);
      var available := PowerAvailable(env.steadyNow);
      if !available {
        var _ := PauseChargingWaitForPowerInternal();
        return;
      }
      KeepCharging(init, env);
    }

    /** HLC: until the EV says whether it pauses or terminates, the PWM stays; then it goes off. */
    method FollowTerminatePause()
      requires Inv() && Chargeable(currentState)
      modifies `pwm, `currentState, `trace
      ensures Inv() && Granted() == old(Granted())
      ensures currentState == if hlc.terminatePause == Terminate then StoppingCharging else old(currentState)
      ensures pwm == if hlc.terminatePause != Unknown && old(pwm).running
        then old(pwm).(running := false, lastDc := 1.0, setAmpere := 0.0, fActive := false) else old(pwm)
      ensures trace.events == old(trace).events +
        if hlc.terminatePause != Unknown && old(pwm).running then [SetPwmOff] else []
    {
      if hlc.terminatePause == Terminate {
        MoveTo(StoppingCharging);
        if pwm.running {
          PwmOff();
        }
      } else if hlc.terminatePause == Pause {
        if pwm.running {
          PwmOff();
        }
      }
    }

    /** A pause by the EV under HLC: power off, and a BCB toggle may wake the session up again. */
    method PauseUnderHlc(init: bool, env: Env)
      requires Inv() && currentState == ChargingPausedEV && hlc.active
      modifies `bcb, `pwm, `currentState, `trace
      ensures Inv()
      ensures init ==> !Granted()
      ensures init ==>
        old(trace).events + [AllowPowerOn(false, ReasonPowerOff)] + (if config.mode == DC then [DcSupplyOff] else []) +
        [Simple(EvPausedEV)] <= trace.events
      ensures currentState ==
        if hlc.terminatePause == Terminate then StoppingCharging
        else if !init && ToggleSeen(old(bcb), env.steadyNow) then PrepareCharging
        else ChargingPausedEV
    {
      if init {
        ResetToggle();
        SendPowerOff();
        if config.mode == DC {
          Publish(DcSupplyOff);
        }
        Publish(Simple(EvPausedEV));
      }
      WakeOnToggle(env);
      FollowTerminatePause();
    }

    method ResetToggle()
      requires Inv()
      modifies `bcb
      ensures Inv() && bcb == old(bcb).(count := 0, started := false)
    {
      BcbToggleReset();
    }

    method WakeOnToggle(env: Env)
      requires Inv() && currentState == ChargingPausedEV
      modifies `bcb, `currentState
      ensures Inv()
      ensures currentState == if ToggleSeen(old(bcb), env.steadyNow) then PrepareCharging else ChargingPausedEV
    {
      var detected := BcbToggleDetected(env.steadyNow);
      if detected {
        MoveTo(PrepareCharging);
      }
    }

    /** A pause by the EV in basic charging keeps the nominal PWM, unless the energy runs out. */
    method PauseInBasicCharging(init: bool, env: Env)
      requires Inv() && currentState == ChargingPausedEV && !hlc.active
      modifies `pwm, `fatal, `current, `currentState, `trace
      ensures Inv()
      ensures currentState == if MaxCurrentInternal() > 5.9 then ChargingPausedEV else WaitingForEnergy
      ensures fatal.shutdownType == old(fatal).shutdownType
      ensures init && currentState == ChargingPausedEV ==> old(trace).events < trace.events
      ensures init && currentState == ChargingPausedEV ==> trace.events[|trace.events| - 1] == Simple(EvPausedEV)
    {
      var available := PowerAvailable(env.steadyNow);
      if !available {
        var _ := PauseChargingWaitForPowerInternal();
        return;
      }
      if init {
        Publish(Simple(EvPausedEV));
      } else {
        var err := StopChargingOnFatalErrorInternal(env.steadyNow);
        if !err {
          UpdatePwmMaxEvery5Seconds(MaxCurrentInternal(), env.steadyNow);
        }
      }
    }

    method PassChargingPausedEV(init: bool, env: Env)
      requires Inv() && currentState == ChargingPausedEV
      modifies `bcb, `pwm, `fatal, `current, `currentState, `trace
      ensures Inv()
      ensures init && hlc.active ==> !Granted()
      ensures hlc.active && !old(bcb).started && hlc.terminatePause != Terminate ==> currentState == ChargingPausedEV
      ensures Descends(ChargingPausedEV, currentState, init)
      ensures fatal.shutdownType == old(fatal).shutdownType
    {
      if config.mode == AC {
        CheckSoftOverCurrent(env.steadyNow);
      }
      if hlc.active {
        PauseUnderHlc(init, env);
      } else {
        PauseInBasicCharging(init, env);
      }
    }

    method PassChargingPausedEVSE(init: bool)
      requires Inv() && currentState == ChargingPausedEVSE
      modifies `pwm, `currentState, `trace
      ensures Inv()
      ensures currentState ==
        if hlc.active && hlc.terminatePause == Terminate then StoppingCharging else ChargingPausedEVSE
      ensures init && !hlc.active ==> pwm.lastDc == 1.0
      ensures init ==>
        old(trace).events + [Simple(EvPausedEVSE)] +
        (if !hlc.active then [SetPwmOff] else if config.mode == DC then [DcSupplyOff] else []) <= trace.events
      ensures !init && !hlc.active ==> trace == old(trace)
    {
      if init {
        Publish(Simple(EvPausedEVSE));
        if hlc.active {
          if config.mode == DC {
            Publish(DcSupplyOff);
          }
        } else {
          PwmOff();
        }
      }
      if hlc.active {
        FollowTerminatePause();
      }
    }

    method PassWaitingForEnergy(init: bool)
      requires Inv() && currentState == WaitingForEnergy
      modifies `pwm, `trace
      ensures Inv()
      ensures init && !hlc.use5Percent ==> pwm.lastDc == 1.0
      ensures trace.events == old(trace).events +
        (if init then [Simple(EvWaitingForEnergy)] else []) + (if init && !hlc.use5Percent then [SetPwmOff] else [])
    {
      if init {
        Publish(Simple(EvWaitingForEnergy));
        if !hlc.use5Percent {
          PwmOff();
        }
      }
    }

    method InitStoppingCharging()
      requires Inv() && currentState == StoppingCharging
      modifies `bcb, `pwm, `currentState, `trace
      ensures Inv()
      ensures bcb == old(bcb).(count := 0, started := false)
      ensures currentState == if hlc.active then StoppingCharging else Finished
      ensures trace.events == old(trace).events + (if tx.active then [Simple(EvStoppingCharging)] else []) +
        (if !hlc.active then [SetPwmOff] else if config.mode == DC then [DcSupplyOff] else [])
    {
      ResetToggle();
      if tx.active {
        Publish(Simple(EvStoppingCharging));
      }
      if hlc.active {
        if config.mode == DC {
          Publish(DcSupplyOff);
        }
      } else {
        PwmOff();
        MoveTo(Finished);
      }
    }

    /** Basic charging goes on to Finished; HLC stays until the car is unplugged, or restarts on a BCB toggle. */
    method PassStoppingCharging(init: bool, env: Env)
      requires Inv() && currentState == StoppingCharging
      modifies `bcb, `pwm, `currentState, `trace
      ensures Inv()
      ensures currentState ==
        if !hlc.active then (if init then Finished else StoppingCharging)
        else if !init && tx.active && ToggleSeen(old(bcb), env.steadyNow) then PrepareCharging
        else StoppingCharging
      ensures currentState == PrepareCharging ==> trace.events == old(trace).events + [SlacStart]
    {
      if init {
        InitStoppingCharging();
      }
      if hlc.active {
        var detected := BcbToggleDetected(env.steadyNow);
        if detected {
          if tx.active {
            MoveTo(PrepareCharging);
            Publish(SlacStart);
          }
        }
      }
    }

    /** Stops whatever transaction and session are still open, then goes to Idle. */
    method PassFinished(init: bool, env: Env)
      requires Inv() && currentState == Finished
      modifies `auth, `tx, `currentState, `trace
      ensures Inv()
      ensures currentState == Idle
      ensures init ==> !tx.active && !auth.sessionActive && !auth.authorized
      ensures !init ==> auth == old(auth) && tx == old(tx) && trace == old(trace)
      ensures init ==>
        var c := ExpectedFinish(old(LatestCancel()));
        trace.events == old(trace).events +
          (if old(tx).active then [Simple(ChargingFinished), TransactionFinished(c.reason, c.token)] else []) +
          (if old(auth).sessionActive then [Simple(SessionFinished)] else []) +
          (if config.mode == DC then [DcSupplyOff] else [])
    {
      hide Inv;
      if init {
        if tx.active {
          StopTransaction(env);
        }
        AuthNeedsSession();
        if auth.sessionActive {
          StopSession();
        }
        if config.mode == DC {
          Publish(DcSupplyOff);
        }
      }
      MoveTo(Idle);
    }

    /** Passes leave the shutdown type to the error thread, and only ever withdraw the EV's wish and the SoC timeout. */
    twostate predicate Steady()
      reads `fatal, `iecAllow, `soc, `socFires
    {
      && fatal.shutdownType == old(fatal).shutdownType && (iecAllow ==> old(iecAllow))
      && (soc.enabled ==> old(soc).enabled) && socFires >= old(socFires)
      && (Unfired() ==> soc.enabled == old(soc).enabled)
    }

    /** The SoC timeout did not fire. */
    twostate predicate Unfired()
      reads `socFires
    {
      socFires == old(socFires)
    }

    ghost function Now(): View
      reads `currentState, `auth, `tx, `hlc, `iecAllow, `fatal, `bcb, `trace
    {
      View(currentState, auth, tx, hlc, iecAllow, RoutineDue(), Granted(), bcb.started)
    }

    // What a pass does, in terms of what was there before it.

    /** Idle and Disabled are not left by a pass; initialising Idle drops a transaction that was not finished. */
    ghost predicate PassedResting(v: View, init: bool)
      reads `config, `currentState, `auth, `tx, `hlc, `trace
    {
      && currentState == v.state
      && (v.state.Idle? ==>
            && auth == (if init && v.auth.authorized
                        then v.auth.(sessionActive := false, authorized := false, sessionUuid := "") else v.auth)
            && tx == v.tx.(active := v.tx.active && !init)
            && (v.tx.active && init ==> SinceStop())
            && hlc.active == if init then config.mode.DC? else v.hlc.active)
      && (v.state.Disabled? ==> auth == v.auth && tx == v.tx && hlc == v.hlc)
    }

    /**
     WaitingForAuthentication opens the session; it is left exactly when the authorization passes and the cable
     is known.
     */
    ghost predicate PassedWaiting(v: View, init: bool, env: Env)
      reads `config, `socket, `lastState, `currentState, `auth, `tx, `hlc, `current
    {
      && (currentState.WaitingForAuthentication? <==>
            || !(v.auth.authorized && ((v.tx.active && !v.auth.authorizedPnc) || !MetersFail(env)))
            || (socket && current.cable == 0.0))
      && (env.ppAmpacity != 0.0 ==> !(socket && current.cable == 0.0))
      && (currentState.WaitingForAuthentication? || (tx.active && (config.mode.DC? ==> currentState.PrepareCharging?)))
      && auth.sessionActive == (v.auth.sessionActive || (init && !lastState.Replug?))
      && auth.authorized == v.auth.authorized && hlc.active == v.hlc.active
      && (!v.auth.authorized ==> tx == v.tx)
    }

    /**
     PrepareCharging grants for the cable check before it looks for errors; it takes a grant back only when a
     routine is due.
     */
    ghost predicate PassedPreparing(v: View)
      reads `config, `currentState, `auth, `tx, `hlc, `iecAllow, `fatal, `trace
    {
      && auth == v.auth && tx == v.tx && hlc == v.hlc && iecAllow == v.iecAllow
      && fatal.lastShutdownType == fatal.shutdownType
      && (Granted() <==> (v.granted || (config.mode.DC? && v.hlc.allow && v.iecAllow)) && !v.due)
      && (config.mode.DC? || !fatal.shutdownType.NoShutdown? ==> currentState.PrepareCharging?)
    }

    /** The other states keep session and transaction; some of them are left only for a reason. */
    ghost predicate PassedOther(v: View)
      reads `config, `currentState, `auth, `tx, `hlc, `fatal
    {
      && auth == v.auth && tx == v.tx && hlc.active == v.hlc.active
      && (v.state.WaitingForEnergy? || v.state.Replug? ==> currentState == v.state)
      && (v.state.Charging? && (config.mode.DC? || !fatal.shutdownType.NoShutdown?) ==> currentState == v.state)
      && (v.state.ChargingPausedEVSE? && !EndsHlc(v) ==> currentState == v.state)
      && (v.state.ChargingPausedEV? && v.hlc.active && !v.toggles && !EndsHlc(v) ==> currentState == v.state)
    }

    /** HLC was terminated. */
    static predicate EndsHlc(v: View) {
      v.hlc.active && v.hlc.terminatePause.Terminate?
    }

    /** StoppingCharging goes on to Finished in basic charging, and Finished closes what is still open. */
    ghost predicate PassedEnding(v: View, init: bool)
      reads `currentState, `auth, `tx, `hlc
    {
      && hlc == v.hlc
      && (v.state.StoppingCharging? ==> auth == v.auth && tx == v.tx)
      && (v.state.StoppingCharging? && !hlc.active ==> currentState == if init then Finished else StoppingCharging)
      && (v.state.StoppingCharging? && hlc.active && (init || !v.toggles) ==> currentState == StoppingCharging)
      && (v.state.Finished? ==> currentState.Idle? && if init then Ended() else auth == v.auth && tx == v.tx)
    }

    ghost predicate Passed(v: View, init: bool, env: Env)
      reads `config, `socket, `lastState, `currentState, `auth, `tx, `current, `hlc, `iecAllow, `fatal, `trace
    {
      match v.state
      case Idle | Disabled => PassedResting(v, init)
      case WaitingForAuthentication => PassedWaiting(v, init, env)
      case PrepareCharging => PassedPreparing(v)
      case StoppingCharging | Finished => PassedEnding(v, init)
      case _ => PassedOther(v)
    }

    /** One of the paused states. */
    method RunPausedState(init: bool, env: Env)
      requires Inv()
      requires
        currentState == ChargingPausedEV || currentState == ChargingPausedEVSE || currentState == WaitingForEnergy
      modifies `currentState, `pwm, `bcb, `fatal, `current, `trace
      ensures Inv() && Steady()
      ensures PassedOther(old(Now()))
      ensures Descends(old(currentState), currentState, init)
    {
      hide Inv;
      if currentState == ChargingPausedEV {
        PassChargingPausedEV(init, env);
      } else if currentState == ChargingPausedEVSE {
        PassChargingPausedEVSE(init);
      } else {
        PassWaitingForEnergy(init);
      }
    }

    method RunPreparingState(init: bool, inState: int, env: Env)
      requires Inv() && (init ==> inState == 0) && currentState == PrepareCharging
      modifies `currentState, `stateStarted, `pwm, `ret, `bcb, `fatal, `current, `legacyWakeupDone, `trace
      ensures Inv() && Steady()
      ensures Descends(PrepareCharging, currentState, init)
      ensures PassedPreparing(old(Now()))
    {
      hide Inv, Descends, PrepareTarget;
      PassPrepareCharging(init, inState, env);
    }

    method RunChargingState(init: bool, inState: int, env: Env)
      requires Inv() && (init ==> inState == 0) && (currentState == SwitchPhases || currentState == Charging)
      modifies `currentState, `pwm, `fatal, `current, `hlc, `phases, `legacyWakeupDone, `trace
      ensures Inv() && Steady()
      ensures PassedOther(old(Now()))
      ensures Descends(old(currentState), currentState, init)
    {
      hide Inv, Descends;
      if currentState == SwitchPhases {
        PassSwitchPhases(init, inState);
      } else {
        PassCharging(init, env);
      }
    }

    /** One of the states that a transaction start leads to. */
    method RunChargeableState(init: bool, inState: int, env: Env)
      requires Inv() && (init ==> inState == 0) && Chargeable(currentState)
      modifies `currentState, `stateStarted, `pwm, `ret, `bcb, `fatal, `current, `hlc, `phases, `legacyWakeupDone,
        `trace
      ensures Inv() && Steady()
      ensures !old(currentState).PrepareCharging? ==> PassedOther(old(Now()))
      ensures Descends(old(currentState), currentState, init)
      ensures old(currentState).PrepareCharging? ==> PassedPreparing(old(Now()))
    {
      hide Inv, Descends, Steady, PassedPreparing, PassedOther;
      if currentState == PrepareCharging {
        RunPreparingState(init, inState, env);
      } else if currentState == SwitchPhases || currentState == Charging {
        RunChargingState(init, inState, env);
      } else {
        RunPausedState(init, env);
      }
    }

    /** One of the states that wait for the user or for a time to pass. */
    method RunWaitingState(init: bool, inState: int, env: Env)
      requires Inv() && (init ==> inState == 0)
      requires currentState == WaitingForAuthentication || currentState == TStepEF || currentState == TStepX1
      requires currentState == WaitingForAuthentication && !init ==> IsCold()
      modifies `currentState, `auth, `tx, `pwm, `ret, `current, `hlc, `ppWarningPrinted, `noEnergyWarningPrinted,
        `trace
      ensures Inv() && Steady()
      ensures old(currentState) == WaitingForAuthentication ==> IsCold()
      ensures old(currentState).WaitingForAuthentication? ==> PassedWaiting(old(Now()), init, env)
      ensures !old(currentState).WaitingForAuthentication? ==> PassedOther(old(Now()))
      ensures Descends(old(currentState), currentState, init)
    {
      hide Inv, Descends;
      if currentState == WaitingForAuthentication {
        PassWaitingForAuthentication(init, env);
      } else if currentState == TStepEF {
        PassTStepEF(init, inState, env);
      } else {
        PassTStepX1(init, inState);
      }
    }

    /** Neither session nor transaction is open. */
    predicate Ended()
      reads `auth, `tx
    {
      !tx.active && !auth.sessionActive && !auth.authorized
    }

    /** Disabled or replugging. */
    method RunUnavailableState(init: bool)
      requires Inv() && (currentState == Disabled || currentState == Replug)
      modifies `pwm, `soc, `trace
      ensures Inv() && Steady()
      ensures currentState.Disabled? ==> PassedResting(old(Now()), init)
      ensures currentState.Replug? ==> PassedOther(old(Now()))
      ensures soc.enabled == old(soc.enabled) && (!currentState.Replug? || !init ==> soc == old(soc))
      ensures currentState == old(currentState)
    {
      if currentState == Disabled {
        PassDisabled(init);
      } else {
        PassReplug(init);
      }
    }

    method RunIdleState(init: bool)
      requires Inv() && currentState == Idle
      modifies `auth, `tx, `pwm, `bcb, `current, `hlc, `iecAllow, `legacyWakeupDone, `trace
      ensures Inv() && Steady()
      ensures currentState == Idle && PassedResting(old(Now()), init)
    {
      hide Inv;
      PassIdle(init);
    }

    /** One of the states on the way to Idle. */
    method RunEndingState(init: bool, env: Env)
      requires Inv() && (currentState == StoppingCharging || currentState == Finished)
      modifies `currentState, `auth, `tx, `pwm, `bcb, `trace
      ensures Inv() && Steady()
      ensures Descends(old(currentState), currentState, init)
      ensures PassedEnding(old(Now()), init)
    {
      hide Inv;
      if currentState == StoppingCharging {
        PassStoppingCharging(init, env);
      } else {
        PassFinished(init, env);
      }
    }

    /** The switch over the states. */
    method RunState(init: bool, inState: int, env: Env)
      requires Inv() && (init ==> inState == 0)
      requires currentState == WaitingForAuthentication && !init ==> IsCold()
      modifies `currentState, `stateStarted, `auth, `tx, `pwm, `ret, `bcb, `fatal, `current, `hlc, `phases, `soc,
        `iecAllow, `legacyWakeupDone, `ppWarningPrinted, `noEnergyWarningPrinted, `trace
      ensures Inv() && Steady()
      ensures old(currentState) == WaitingForAuthentication ==> IsCold()
      ensures Descends(old(currentState), currentState, init)
      ensures soc.enabled == old(soc.enabled) && (!old(currentState).Replug? || !init ==> soc == old(soc))
      ensures Passed(old(Now()), init, env)
    {
      hide PassedResting, PassedWaiting, PassedPreparing, PassedOther, PassedEnding, Inv, Steady;
      if Chargeable(currentState) {
        RunChargeableState(init, inState, env);
      } else if currentState == WaitingForAuthentication || currentState == TStepEF || currentState == TStepX1 {
        RunWaitingState(init, inState, env);
      } else if currentState == StoppingCharging || currentState == Finished {
        RunEndingState(init, env);
      } else if currentState == Idle {
        RunIdleState(init);
      } else {
        RunUnavailableState(init);
      }
    }

    method SignalSocTimeout()
      requires Inv()
      modifies `soc, `socFires, `trace
      ensures Inv() && IsCold()
      ensures Granted() == old(Granted()) && SinceStop() == old(SinceStop())
      ensures soc == SocTimer(false, SOC_TIMER_MS) && socFires == old(socFires) + 1
      ensures trace.events == old(trace).events + [SocTimeoutSignal]
    {
      assert Recall(0);
      soc := SocTimer(false, SOC_TIMER_MS);
      socFires := socFires + 1;
      trace := Emit(trace, SocTimeoutSignal);
    }

    method NoteState()
      requires Inv()
      modifies `lastState, `lastDetect, `passShutdown
      ensures Inv() && lastState == old(lastDetect) && lastDetect == currentState && passShutdown == fatal.shutdownType
    {
      lastState := lastDetect;
      lastDetect := currentState;
      passShutdown := fatal.shutdownType;
    }

    /** Counts down to the next try of reading the state of charge in DC; true when the time is up. */
    method CountDownSoc() returns (up: bool)
      requires Inv()
      modifies `soc
      ensures Inv() && up == (soc.enabled && soc.remaining < 0)
      ensures soc == if old(soc).enabled then old(soc).(remaining := old(soc).remaining - 50) else old(soc)
    {
      if soc.enabled {
        soc := soc.(remaining := soc.remaining - 50);
      }
      return soc.enabled && soc.remaining < 0;
    }

    /** Counts down, and signals the timeout when the time is up. */
    method SocTimeIsUp() returns (up: bool)
      requires Inv()
      modifies `soc, `socFires, `trace
      ensures Inv() && up == old(soc.enabled && soc.remaining < 50)
      ensures if up then soc == SocTimer(false, SOC_TIMER_MS) && socFires == old(socFires) + 1 && IsCold()
        else
          && soc == (if old(soc).enabled then old(soc).(remaining := old(soc).remaining - 50) else old(soc))
          && socFires == old(socFires) && trace == old(trace)
      ensures Granted() == old(Granted())
    {
      hide Inv;
      up := CountDownSoc();
      if up {
        SignalSocTimeout();
      }
    }

    /** Publishes a new state, and cleans up a 1ph/3ph switch that was interrupted. */
    method AnnounceState(init: bool, env: Env)
      requires Inv()
      modifies `stateStarted, `phases, `trace
      ensures Inv() && trace.mon == old(trace).mon
      ensures stateStarted == if init then env.sysNow else old(stateStarted)
      ensures phases == old(phases).(ongoing :=
        old(phases).ongoing && (lastState != SwitchPhases || currentState == SwitchPhases))
      ensures trace.events == old(trace).events + (if init then [StateSignal(currentState)] else []) +
        (if old(phases).ongoing && !phases.ongoing then [SwitchThreePhases(phases.three)] else [])
    {
      if init {
        stateStarted := env.sysNow;
        Publish(StateSignal(currentState));
      }
      if lastState == SwitchPhases && currentState != SwitchPhases && phases.ongoing {
        Publish(SwitchThreePhases(phases.three));
        StopSwitching();
      }
    }

    /** Once the state was changed, it will be initialised by the next pass. */
    predicate Fresh()
      reads `lastDetect, `currentState
    {
      lastDetect != currentState
    }

    /** The next pass initialises the present state. */
    predicate Initialises()
      reads `lastDetect, `currentState, `passShutdown, `fatal
    {
      Fresh() || passShutdown != fatal.shutdownType
    }

    ghost predicate WaitsCold()
      reads `currentState, `lastDetect, `trace
    {
      currentState == WaitingForAuthentication && lastDetect == WaitingForAuthentication ==> IsCold()
    }

    /** The car has left: the session is about to be closed, or is. */
    predicate IsLeaving()
      reads `lastDetect, `currentState, `hlc, `auth, `tx
    {
      || (currentState == StoppingCharging && Fresh() && !hlc.active)
      || (currentState == Finished && Fresh())
      || (currentState == Idle && Ended())
    }

    /** Time for that many passes before the SoC timeout fires. */
    predicate HasTime(passes: nat)
      reads `soc
    {
      soc.enabled ==> soc.remaining >= 50 * passes
    }

    /** Basic charging never rests in StoppingCharging, and nothing rests in Finished. */
    predicate RestsWell()
      reads `lastDetect, `currentState, `hlc
    {
      !Fresh() ==> currentState != Finished && (currentState == StoppingCharging ==> hlc.active)
    }

    /** The next pass will not leave the present state, whatever clocks and answers it meets. */
    predicate Rests()
      reads `lastDetect, `passShutdown, `currentState, `config, `auth, `hlc, `bcb, `fatal
    {
      match currentState
      case Idle | Disabled | WaitingForEnergy => true
      case WaitingForAuthentication => !auth.authorized
      case PrepareCharging | Charging => config.mode == DC || fatal.shutdownType != NoShutdown
      case ChargingPausedEVSE => !(hlc.active && hlc.terminatePause == Terminate)
      case ChargingPausedEV => hlc.active && !bcb.started && hlc.terminatePause != Terminate
      case StoppingCharging => if hlc.active then !bcb.started else !Initialises()
      case Replug => !Initialises()
      case _ => false
    }

    /** Basic charging in StoppingCharging after its initialisation: no pass leaves from there. */
    predicate IsStuck()
      reads `lastDetect, `passShutdown, `currentState, `hlc, `fatal
    {
      currentState == StoppingCharging && !hlc.active && !Initialises()
    }

    /** The session is not open, or the initialisation of Idle will close it. */
    static predicate IsClosable(a: AuthContext) {
      a.authorized || !a.sessionActive
    }

    /** What a pass that stays does at most. */
    predicate Rested(v: View, init: bool)
      reads `currentState, `config, `auth, `tx, `hlc, `iecAllow, `lastState
    {
      && currentState == v.state
      && hlc.active == (if v.state.Idle? && init then config.mode.DC? else v.hlc.active)
      && (v.state.Idle? ==> (auth.authorized ==> v.auth.authorized) && IsClosable(auth) == IsClosable(v.auth))
      && (v.state.WaitingForAuthentication? ==>
            auth.authorized == v.auth.authorized &&
            auth.sessionActive == (v.auth.sessionActive || (init && lastState != Replug)))
      && (v.state.Idle? || v.state.WaitingForAuthentication? || auth == v.auth)
      && (v.state.Idle? || tx == v.tx)
      && (v.state.PrepareCharging? ==> iecAllow == v.iecAllow)
    }

    lemma StaysAtRest(v: View, init: bool, env: Env)
      requires Passed(v, init, env)
      requires match v.state
        case Idle | Disabled | WaitingForEnergy => true
        case WaitingForAuthentication => !v.auth.authorized
        case PrepareCharging | Charging => config.mode == DC || fatal.shutdownType != NoShutdown
        case ChargingPausedEVSE => !(v.hlc.active && v.hlc.terminatePause == Terminate)
        case ChargingPausedEV => v.hlc.active && !v.toggles && v.hlc.terminatePause != Terminate
        case StoppingCharging => if v.hlc.active then !v.toggles else !init
        case Replug => !init
        case _ => false
      ensures Rested(v, init)
    {
    }

    /** The SoC timeout cut off the initialisation of Finished: the next pass goes to Idle without closing anything. */
    predicate IsCutOff()
      reads `lastDetect, `passShutdown, `currentState, `fatal, `soc
    {
      currentState == Finished && !Initialises() && !soc.enabled
    }

    /** Idle was initialised with a session or a transaction still open: the transaction is dropped without a report. */
    ghost predicate LeftOpen(a: AuthContext, t: TransactionContext)
      reads `currentState, `auth, `tx, `trace
    {
      && currentState == Idle && (Ended() <==> IsClosable(a))
      && !tx.active && (t.active ==> SinceStop())
    }

    /** How a way out of a session ends, given the time that was left. */
    predicate LeftAs(st: EvseState, a: AuthContext, t: TransactionContext, left: SocTimer)
      reads `lastDetect, `passShutdown, `currentState, `hlc, `fatal, `auth, `tx, `soc
    {
      if st.Idle? || !left.enabled || left.remaining >= (if st.StoppingCharging? then 100 else 50)
      then currentState == Idle && Ended()
      else
        && auth == a && tx == t && !soc.enabled
        && if st.StoppingCharging? && left.remaining < 50 then IsStuck() else IsCutOff()
    }

    lemma LeavesOpen(v: View, init: bool, env: Env)
      requires Passed(v, init, env) && v.state.Idle? && init
      ensures LeftOpen(v.auth, v.tx)
    {
    }

    lemma LeavesWhenReady(v: View, init: bool, env: Env)
      requires Passed(v, init, env) && v.state.WaitingForAuthentication? && v.auth.authorized && config.mode.DC?
      requires !MetersFail(env) && env.ppAmpacity != 0.0
      ensures currentState.PrepareCharging? && tx.active
    {
    }

    /** On the way out of a session every pass goes on, until Idle has nothing left open. */
    lemma LeavesFurther(v: View, init: bool, env: Env)
      requires Passed(v, init, env) && lastDetect == v.state
      ensures v.state.StoppingCharging? && !v.hlc.active && init ==> IsLeaving() && currentState.Finished?
      ensures v.state.Finished? && init ==> currentState.Idle? && Ended()
      ensures v.state.Idle? && !v.tx.active && !v.auth.sessionActive && !v.auth.authorized ==>
        currentState.Idle? && Ended()
      ensures v.state.StoppingCharging? && (v.hlc.active || init) ==> RestsWell()
      ensures !v.state.StoppingCharging? ==> RestsWell()
      ensures v.state.Finished? && !init ==> currentState.Idle? && auth == v.auth && tx == v.tx
      ensures v.state.StoppingCharging? ==> auth == v.auth && tx == v.tx
    {
    }

    /** An authorized car whose meters start and whose cable can be told, in DC. */
    predicate ReadyInDC(env: Env)
      reads `currentState, `config, `auth
    {
      && currentState == WaitingForAuthentication && config.mode == DC && auth.authorized
      && !MetersFail(env) && env.ppAmpacity != 0.0
    }

    /** One run of the loop body; false when the state machine has settled. */
    method Pass(env: Env) returns (again: bool)
      requires Inv() && WaitsCold()
      modifies `currentState, `stateStarted, `auth, `tx, `pwm, `ret, `bcb, `fatal, `current, `hlc, `phases, `soc,
        `iecAllow, `legacyWakeupDone, `ppWarningPrinted, `noEnergyWarningPrinted, `trace, `lastDetect, `lastState,
        `passShutdown, `socFires
      ensures Inv() && WaitsCold() && Steady()
      ensures lastDetect == old(currentState) && lastState == old(lastDetect)
      ensures passShutdown == fatal.shutdownType && again == Fresh()
      ensures Descends(old(currentState), currentState, old(Fresh()))
      ensures !Unfired() <==> old(soc.enabled && soc.remaining < 50)
      ensures Unfired() ==> Passed(old(Now()), old(Initialises()), env)
      ensures !Unfired() ==> Now() == old(Now()) && pwm == old(pwm) && soc == SocTimer(false, SOC_TIMER_MS)
      ensures Unfired() && old(soc.enabled && (currentState != Replug || !Initialises())) ==>
        soc.remaining == old(soc).remaining - 50
    {
      hide Passed, Inv, Rank;
      var init := Initialises();
      NoteState();
      var up := SocTimeIsUp();
      if up {
        return false;
      }
      Advance(init, env);
      again := Fresh();
    }

    /** Announces a new state, then does what the present state calls for. */
    method Advance(init: bool, env: Env)
      requires Inv() && (currentState == WaitingForAuthentication && !init ==> IsCold())
      modifies `currentState, `stateStarted, `auth, `tx, `pwm, `ret, `bcb, `fatal, `current, `hlc, `phases, `soc,
        `iecAllow, `legacyWakeupDone, `ppWarningPrinted, `noEnergyWarningPrinted, `trace
      ensures Inv() && Steady()
      ensures old(currentState) == WaitingForAuthentication ==> IsCold()
      ensures Descends(old(currentState), currentState, init)
      ensures soc.enabled == old(soc.enabled) && (!old(currentState).Replug? || !init ==> soc == old(soc))
      ensures Passed(old(Now()), init, env)
    {
      hide Passed, Inv, Descends;
      AnnounceState(init, env);
      RunState(init, env.sysNow - stateStarted, env);
    }

    /** Runs the state machine until it settles: at most five passes, so never the ten that would raise a warning. */
    method RunStateMachine(env: nat -> Env) returns (passes: nat)
      requires Inv() && WaitsCold()
      modifies `currentState, `stateStarted, `auth, `tx, `pwm, `ret, `bcb, `fatal, `current, `hlc, `phases, `soc,
        `iecAllow, `legacyWakeupDone, `ppWarningPrinted, `noEnergyWarningPrinted, `trace, `lastDetect, `lastState,
        `passShutdown, `socFires
      ensures Valid() && Steady()
      ensures 1 <= passes <= 5
      ensures !Fresh() && passShutdown == fatal.shutdownType
      ensures Unfired() && !old(IsStuck()) ==> RestsWell()
      ensures Unfired() && old(IsLeaving()) ==> currentState == Idle && Ended()
      ensures old(IsLeaving()) ==> LeftAs(old(currentState), old(auth), old(tx), old(soc))
      ensures old(IsCutOff()) ==> LeftOpen(old(auth), old(tx))
      ensures old(Rests()) ==> passes == 1
      ensures old(Rests()) && Unfired() ==> Rested(old(Now()), old(Initialises())) && lastState == old(lastDetect)
      ensures passes == 1 && Unfired() ==>
        Passed(old(Now()), old(Initialises()), env(0))
      ensures passes == 1 && !Unfired() ==> Now() == old(Now())
      ensures passes == 1 ==> (Unfired() <==> !old(soc.enabled && soc.remaining < 50))
      ensures passes == 1 && Unfired() && old(soc.enabled && (currentState != Replug || !Initialises())) ==>
        soc.remaining == old(soc).remaining - 50
      ensures old(soc.enabled && soc.remaining < 50) ==>
        passes == 1 && Now() == old(Now()) && soc == SocTimer(false, SOC_TIMER_MS)
      ensures !old(soc.enabled) ==> Unfired()
      ensures Unfired() && old(ReadyInDC(env(0))) ==> currentState == PrepareCharging && tx.active
    {
      hide Inv, Passed, IsCold;
      passes := 1;
      var again := Pass(env(0));
      ghost var init := old(Initialises());
      if Unfired() {
        LeavesFurther(old(Now()), init, env(0));
        if old(Rests()) {
          StaysAtRest(old(Now()), init, env(0));
        }
        if old(ReadyInDC(env(0))) {
          LeavesWhenReady(old(Now()), init, env(0));
        }
      }
      if again {
        passes := Settle(env);
      }
    }

    /** The passes after the first one, which left for another state. */
    method Settle(env: nat -> Env) returns (passes: nat)
      requires Inv() && WaitsCold() && Fresh() && Rank(currentState) <= 3
      modifies `currentState, `stateStarted, `auth, `tx, `pwm, `ret, `bcb, `fatal, `current, `hlc, `phases, `soc,
        `iecAllow, `legacyWakeupDone, `ppWarningPrinted, `noEnergyWarningPrinted, `trace, `lastDetect, `lastState,
        `passShutdown, `socFires
      ensures Valid() && Steady()
      ensures 2 <= passes <= 5
      ensures !Fresh() && passShutdown == fatal.shutdownType
      ensures Unfired() ==> RestsWell()
      ensures Unfired() && old(IsLeaving()) ==> currentState == Idle && Ended()
      ensures old(currentState).Finished? ==> LeftAs(Finished, old(auth), old(tx), old(soc))
      ensures old(currentState).Idle? && !old(soc.enabled) ==> LeftOpen(old(auth), old(tx))
      ensures old(currentState == Idle && Ended()) ==> currentState == Idle && Ended()
      ensures !old(soc.enabled) ==> Unfired()
      ensures Unfired() && old(currentState == PrepareCharging && config.mode == DC && tx.active) ==>
        currentState == PrepareCharging && tx.active
    {
      hide Inv, Passed, IsCold;
      passes := 1;
      var again := true;
      while again
        invariant Inv() && WaitsCold() && Steady() && again == Fresh()
        invariant again ==> passes + Rank(currentState) <= 4
        invariant !again ==> 2 <= passes <= 5 && passShutdown == fatal.shutdownType
        invariant passes >= 1
        invariant Unfired() ==> RestsWell()
        invariant Unfired() && old(IsLeaving()) ==> IsLeaving()
        invariant passes == 1 ==> again && currentState == old(currentState) && soc == old(soc)
        invariant passes == 1 ==> auth == old(auth) && tx == old(tx)
        invariant passes > 1 && old(currentState).Finished? ==>
          LeftAs(Finished, old(auth), old(tx), old(soc)) && (again ==> currentState == Idle && Ended())
        invariant passes > 1 && old(currentState).Idle? && !old(soc.enabled) ==>
          LeftOpen(old(auth), old(tx)) && !again
        invariant old(currentState == Idle && Ended()) ==> currentState == Idle && Ended()
        invariant !old(soc.enabled) ==> Unfired()
        invariant Unfired() && old(currentState == PrepareCharging && config.mode == DC && tx.active) ==>
          currentState == PrepareCharging && tx.active
        decreases again, Rank(currentState)
      {
        ghost var v, init, fires := Now(), Initialises(), socFires;
        again := Pass(env(passes));
        if socFires == fires {
          LeavesFurther(v, init, env(passes));
          if v.state.Idle? {
            LeavesOpen(v, init, env(passes));
          }
          if v.state.PrepareCharging? && config.mode.DC? {
            StaysAtRest(v, init, env(passes));
          }
        }
        passes := passes + 1;
      }
    }

    // ----------------------------------------------------------- entry points

    constructor (boot: Boot)
      ensures Valid()
      ensures currentState == Idle && connectorEnabled
      ensures config == boot.cfg && socket == boot.isSocket && soc == boot.anySoc
      ensures Ended() && !hlc.active && !iecAllow && passShutdown == NoShutdown
      ensures active == DEFAULT_ENTRY && table == [] && fatal.shutdownType == NoShutdown
      ensures trace.events == [ConfigSet(boot.cfg)] && history == [] && socFires == 0
    {
      config := boot.cfg;
      socket := boot.isSocket;
      currentState := Idle;
      lastDetect := boot.anyState;
      lastState := Disabled;
      passShutdown := NoShutdown;
      stateStarted := 0;
      auth := boot.anyAuth.(sessionActive := false, sessionUuid := "", authorized := false);
      tx := TransactionContext(false, None, None, None, None);
      pwm := boot.anyPwm.(running := false, lastDc := 0.0, setAmpere := 0.0, fActive := false);
      ret := boot.anyReturns.(efState := Idle, x1State := Idle, efX1Pause := false);
      bcb := BcbContext(false, 0, 0, 0);
      fatal := FatalContext(NoShutdown, NoShutdown, 0, false);
      current := CurrentContext(6.0, 0, if boot.isSocket then boot.ppAmpacity else 0.0, (0.0, 0.0, 0.0), false, 0);
      hlc := boot.anyHlc.(allow := false, active := false, matchingStarted := false, use5Percent := false);
      phases := PhaseSwitch(false, false);
      soc := boot.anySoc;
      socFires := 0;
      history := [];
      iecAllow := false;
      contactorOpen := true;
      legacyWakeupDone := false;
      ppWarningPrinted := false;
      noEnergyWarningPrinted := false;
      connectorEnabled := true;
      table := [];
      active := DEFAULT_ENTRY;
      trace := Emit(EMPTY_TRACE, ConfigSet(boot.cfg));
      prior := [];
    }

    /** What a round of the main loop does: it counts down the SoC timer at rest, and starts what is ready. */
    twostate predicate Ticked(env: nat -> Env)
      reads `currentState, `lastState, `lastDetect, `passShutdown, `config, `socket, `auth, `tx, `current, `hlc,
        `iecAllow, `fatal, `bcb, `soc, `socFires, `trace
    {
      && (old(Rests()) ==>
            && currentState == old(currentState) && (Unfired() <==> old(HasTime(1)))
            && (Unfired() ==> Passed(old(Now()), old(Initialises()), env(0)))
            && (Unfired() && soc.enabled ==> soc.remaining == old(soc).remaining - 50))
      && (Unfired() && old(ReadyInDC(env(0))) ==> currentState == PrepareCharging && tx.active)
      && (old(IsStuck()) ==> IsStuck() && auth == old(auth) && tx == old(tx))
    }

    /** The main loop: every 100 ms the budget is checked and the state machine run. */
    method MainLoop(now: int, env: nat -> Env)
      requires Valid()
      modifies `currentState, `stateStarted, `auth, `tx, `pwm, `ret, `bcb, `fatal, `current, `hlc, `phases, `soc,
        `iecAllow, `legacyWakeupDone, `ppWarningPrinted, `noEnergyWarningPrinted, `trace, `lastDetect, `lastState,
        `passShutdown, `socFires
      ensures Valid() && Steady() && !Fresh() && passShutdown == fatal.shutdownType
      ensures Unfired() && !old(IsStuck()) ==> RestsWell()
      ensures !old(soc.enabled) ==> Unfired()
      ensures Ticked(env)
    {
      hide Inv, Passed, ReadyInDC, LeftAs, LeftOpen, IsCutOff, IsLeaving;
      var _ := PowerAvailable(now);
      var _ := RunStateMachine(env);
    }

    /** Events that act in whatever state the charger is. */
    method ProcessCpEventIndependent(e: CPEvent, env: Env)
      requires Valid() && !Fresh()
      modifies `currentState, `iecAllow, `contactorOpen, `tx, `trace
      ensures Inv() && WaitsCold()
      ensures currentState == match e
        case EvseReplugStarted => Replug
        case EvseReplugFinished => WaitingForAuthentication
        case CarUnplugged => if hlc.active then Finished else StoppingCharging
        case _ => old(currentState)
      ensures iecAllow == (old(iecAllow) && e != CarRequestedStopPower)
      ensures contactorOpen == ((old(contactorOpen) || e == PowerOff) && e != PowerOn)
      ensures tx.active == (old(tx).active && !(e == PowerOff && !auth.authorized && !auth.authorizedPnc))
      ensures !(e == PowerOff && !tx.active) ==> tx == old(tx) && trace == old(trace)
    {
      match e
      case EvseReplugStarted => MoveTo(Replug);
      case EvseReplugFinished => MoveTo(WaitingForAuthentication);
      case CarRequestedStopPower => iecAllow := false;
      case CarUnplugged =>
        if !hlc.active {
          MoveTo(StoppingCharging);
        } else {
          MoveTo(Finished);
        }
      case PowerOff =>
        contactorOpen := true;
        if tx.active && !auth.authorizedPnc && !auth.authorized {
          StopTransaction(env);
        }
      case PowerOn => contactorOpen := false;
      case _ =>
    }

    /** Where an event leads from the present state. */
    static function EventTarget(st: EvseState, e: CPEvent, mode: ChargeMode, hlcActive: bool): EvseState {
      if st == Idle && e == CarPluggedIn then WaitingForAuthentication
      else if st == PrepareCharging && e == CarRequestedStopPower then ChargingPausedEVSE
      else if st == Charging && e == CarRequestedStopPower then ChargingPausedEV
      else if st == Charging && e == BCDtoE then StoppingCharging
      else if st == ChargingPausedEV && e == CarRequestedPower && mode == AC && !hlcActive then Charging
      else st
    }

    /** The EV's wish for power is only followed in the states that wait for it, and dropped in those that charge. */
    static predicate IecAllowAfter(st: EvseState, e: CPEvent, before: bool) {
      var waits := st == WaitingForEnergy || st == WaitingForAuthentication || st == PrepareCharging;
      if e == CarRequestedPower then before || waits || st == ChargingPausedEV
      else if e == CarRequestedStopPower then before && !waits && st != Charging
      else if e == BCDtoE then before && st != Charging
      else before
    }

    /** What an event makes the charger send: the supply goes off, or HLC is told to stop. */
    static function EventSignals(st: EvseState, e: CPEvent, hlcActive: bool): seq<Event> {
      if st == PrepareCharging && e == CarRequestedStopPower then [DcSupplyOff]
      else if st == Charging && (e == CarRequestedStopPower || e == BCDtoE) && hlcActive then [HlcStopCharging]
      else []
    }

    /**
     Requests for power and their end are pulses of the BCB toggle, once the PWM is off in a session that HLC
     has stopped.
     */
    static function BcbAfter(st: EvseState, e: CPEvent, hlcActive: bool, mode: ChargeMode, now: int,
                             b: BcbContext): BcbContext
    {
      if st == ChargingPausedEV && e == CarRequestedPower && !(mode == AC && !hlcActive) then Started(b, now)
      else if st == StoppingCharging && e == CarRequestedPower && hlcActive then Started(b, now)
      else if (st == ChargingPausedEV || st == StoppingCharging) && e == CarRequestedStopPower && hlcActive
      then Stopped(b, now)
      else b
    }

    method SetIecAllow(b: bool)
      requires Inv()
      modifies `iecAllow
      ensures Inv() && iecAllow == b
    {
      iecAllow := b;
    }

    method EventWhileWaiting(e: CPEvent)
      requires Inv()
      modifies `iecAllow
      ensures Inv()
      ensures iecAllow == ((old(iecAllow) || e == CarRequestedPower) && e != CarRequestedStopPower)
    {
      if e == CarRequestedPower {
        SetIecAllow(true);
      } else if e == CarRequestedStopPower {
        SetIecAllow(false);
      }
    }

    method EventWhilePreparing(e: CPEvent)
      requires Inv() && currentState == PrepareCharging
      modifies `currentState, `iecAllow, `trace
      ensures Inv()
      ensures currentState == if e == CarRequestedStopPower then ChargingPausedEVSE else PrepareCharging
      ensures iecAllow == ((old(iecAllow) || e == CarRequestedPower) && e != CarRequestedStopPower)
      ensures trace.events == old(trace).events + if e == CarRequestedStopPower then [DcSupplyOff] else []
    {
      if e == CarRequestedPower {
        SetIecAllow(true);
      } else if e == CarRequestedStopPower {
        SetIecAllow(false);
        Publish(DcSupplyOff);
        MoveTo(ChargingPausedEVSE);
      }
    }

    method EventWhileCharging(e: CPEvent)
      requires Inv() && currentState == Charging
      modifies `currentState, `iecAllow, `trace
      ensures Inv()
      ensures currentState == if e == CarRequestedStopPower then ChargingPausedEV
        else if e == BCDtoE then StoppingCharging else Charging
      ensures iecAllow == (old(iecAllow) && currentState == Charging)
      ensures trace.events ==
        old(trace).events + if currentState != Charging && hlc.active then [HlcStopCharging] else []
    {
      if e == CarRequestedStopPower || e == BCDtoE {
        SetIecAllow(false);
        MoveTo(if e == BCDtoE then StoppingCharging else ChargingPausedEV);
        if hlc.active {
          Publish(HlcStopCharging);
        }
      }
    }

    method EventWhilePausedEV(e: CPEvent, now: int)
      requires Inv() && currentState == ChargingPausedEV
      modifies `currentState, `iecAllow, `bcb
      ensures Inv()
      ensures currentState ==
        if e == CarRequestedPower && config.mode == AC && !hlc.active then Charging else ChargingPausedEV
      ensures iecAllow == (old(iecAllow) || e == CarRequestedPower)
      ensures bcb ==
        if e == CarRequestedPower && !(config.mode == AC && !hlc.active) && !pwm.running then Started(old(bcb), now)
        else if e == CarRequestedStopPower && !pwm.running && hlc.active then Stopped(old(bcb), now)
        else old(bcb)
    {
      if e == CarRequestedPower {
        SetIecAllow(true);
        if config.mode == AC && !hlc.active {
          MoveTo(Charging);
        } else if !pwm.running {
          BcbStartPulse(now);
        }
      }
      if e == CarRequestedStopPower && !pwm.running && hlc.active {
        BcbStopPulse(now);
      }
    }

    method EventWhileStopping(e: CPEvent, now: int)
      requires Inv()
      modifies `bcb
      ensures Inv()
      ensures bcb ==
        if hlc.active && !pwm.running && e == CarRequestedPower then Started(old(bcb), now)
        else if hlc.active && !pwm.running && e == CarRequestedStopPower then Stopped(old(bcb), now)
        else old(bcb)
    {
      if hlc.active && !pwm.running {
        if e == CarRequestedPower {
          BcbStartPulse(now);
        } else if e == CarRequestedStopPower {
          BcbStopPulse(now);
        }
      }
    }

    method EventWithPower(e: CPEvent)
      requires Inv() && (currentState == PrepareCharging || currentState == Charging)
      modifies `currentState, `iecAllow, `trace
      ensures Inv()
      ensures currentState == EventTarget(old(currentState), e, config.mode, hlc.active)
      ensures iecAllow == IecAllowAfter(old(currentState), e, old(iecAllow))
      ensures trace.events == old(trace).events + EventSignals(old(currentState), e, hlc.active)
    {
      hide Inv;
      if currentState == PrepareCharging {
        EventWhilePreparing(e);
      } else {
        EventWhileCharging(e);
      }
    }

    method EventAfterPower(e: CPEvent, now: int)
      requires Inv() && (currentState == ChargingPausedEV || currentState == StoppingCharging)
      modifies `currentState, `iecAllow, `bcb
      ensures Inv()
      ensures currentState == EventTarget(old(currentState), e, config.mode, hlc.active)
      ensures iecAllow == IecAllowAfter(old(currentState), e, old(iecAllow))
      ensures bcb == if pwm.running then old(bcb)
        else BcbAfter(old(currentState), e, hlc.active, config.mode, now, old(bcb))
    {
      hide Inv, Started, Stopped;
      if currentState == ChargingPausedEV {
        EventWhilePausedEV(e, now);
      } else {
        EventWhileStopping(e, now);
      }
    }

    method EventBeforePower(e: CPEvent)
      requires Inv()
      requires currentState != PrepareCharging && currentState != Charging
      requires currentState != ChargingPausedEV && currentState != StoppingCharging
      modifies `currentState, `iecAllow
      ensures Inv()
      ensures currentState == EventTarget(old(currentState), e, config.mode, hlc.active)
      ensures iecAllow == IecAllowAfter(old(currentState), e, old(iecAllow))
    {
      hide Inv;
      if currentState == Idle {
        if e == CarPluggedIn {
          MoveTo(WaitingForAuthentication);
        }
      } else if currentState == WaitingForEnergy || currentState == WaitingForAuthentication {
        EventWhileWaiting(e);
      }
    }

    /** Events whose meaning depends on the state. */
    method ProcessCpEventState(e: CPEvent, env: Env)
      requires Valid() && !Fresh()
      modifies `currentState, `iecAllow, `bcb, `trace
      ensures Inv() && WaitsCold()
      ensures currentState == EventTarget(old(currentState), e, config.mode, hlc.active)
      ensures iecAllow == IecAllowAfter(old(currentState), e, old(iecAllow))
      ensures trace.events == old(trace).events + EventSignals(old(currentState), e, hlc.active)
      ensures bcb == if pwm.running then old(bcb)
        else BcbAfter(old(currentState), e, hlc.active, config.mode, env.steadyNow, old(bcb))
    {
      hide Inv, Started, Stopped;
      if currentState == PrepareCharging || currentState == Charging {
        EventWithPower(e);
      } else if currentState == ChargingPausedEV || currentState == StoppingCharging {
        EventAfterPower(e, env.steadyNow);
      } else {
        EventBeforePower(e);
      }
    }

    /** HLC is active when a car at rest is unplugged now. */
    predicate HlcAtUnplug()
      reads `lastDetect, `passShutdown, `currentState, `config, `hlc, `fatal
    {
      if currentState == Idle && Initialises() then config.mode == DC else hlc.active
    }

    /** No session will be open when a car at rest is unplugged now, or one that the initialisation of Idle closes. */
    predicate IsClosableAtUnplug()
      reads `lastDetect, `passShutdown, `currentState, `auth, `fatal
    {
      auth.authorized ||
      !(auth.sessionActive || (currentState == WaitingForAuthentication && Initialises() && lastDetect != Replug))
    }

    /**
     Unplugging a car at rest now ends in Idle with everything closed: there is time for the passes that close the
     session. Short of them, the timeout fires harmlessly before the event, or it cuts off StoppingCharging for good,
     or it cuts off Finished, and then Idle closes at most an authorized session.
     */
    predicate ClosesOnUnplug()
      reads `lastDetect, `passShutdown, `currentState, `config, `auth, `hlc, `fatal, `soc
    {
      && !IsStuck()
      && (soc.enabled && 50 <= soc.remaining < 150 ==>
            if HlcAtUnplug() then soc.remaining >= 100 || IsClosableAtUnplug()
            else soc.remaining >= 100 && IsClosableAtUnplug())
    }

    /** Unplugging now leaves the charger stuck in StoppingCharging. */
    predicate StopsShort()
      reads `lastDetect, `passShutdown, `currentState, `config, `hlc, `fatal, `soc
    {
      IsStuck() || (soc.enabled && 50 <= soc.remaining < 100 && !HlcAtUnplug())
    }

    /** Unplugging now cuts off Finished, so that an active transaction is dropped without a report. */
    predicate CutsOffFinished()
      reads `lastDetect, `passShutdown, `currentState, `config, `hlc, `fatal, `soc
    {
      && soc.enabled && !IsStuck()
      && if HlcAtUnplug() then 50 <= soc.remaining < 100 else 100 <= soc.remaining < 150
    }

    /** What plugging in, asking for power and unplugging do to a charger at rest. */
    twostate predicate FollowsEvent(e: CPEvent)
      reads `currentState, `lastDetect, `passShutdown, `auth, `tx, `hlc, `iecAllow, `fatal, `soc, `socFires, `config,
        `trace
    {
      && (e.CarPluggedIn? && old(currentState).Idle? && !old(auth).authorized && old(HasTime(3)) ==>
            && Unfired() && currentState.WaitingForAuthentication? && auth.sessionActive && !auth.authorized
            && (hlc.active ==> old(hlc).active || config.mode.DC?)
            && (soc.enabled ==> soc.remaining == old(soc).remaining - 150))
      && (e.CarRequestedPower? && old(currentState).PrepareCharging? && config.mode.DC? && old(HasTime(3)) ==>
            Unfired() && currentState.PrepareCharging? && iecAllow && tx == old(tx))
      && (e.CarUnplugged? && old(Rests()) ==> FollowsUnplug())
      && (e.CarUnplugged? && Unfired() ==> (currentState == Idle && Ended() <==> !old(IsStuck())))
    }

    twostate predicate FollowsUnplug()
      reads `currentState, `lastDetect, `passShutdown, `auth, `tx, `hlc, `fatal, `soc, `trace
    {
      && (currentState == Idle && Ended() <==> old(ClosesOnUnplug()))
      && (currentState == Idle || IsStuck()) && (IsStuck() <==> old(StopsShort()))
      && (IsStuck() ==> IsClosable(auth) == old(IsClosableAtUnplug()))
      && (old(CutsOffFinished()) ==> !tx.active && (old(tx.active && currentState != Idle) ==> SinceStop()))
    }

    /** Once the state machine has settled before an event, unplugging will end in Idle with everything closed. */
    predicate ClosesNow()
      reads `lastDetect, `passShutdown, `currentState, `auth, `hlc, `fatal, `soc
    {
      && !IsStuck()
      && (if hlc.active then HasTime(1) || IsClosable(auth) else HasTime(2) || (HasTime(1) && IsClosable(auth)))
    }

    predicate CutsOffNow()
      reads `lastDetect, `passShutdown, `currentState, `hlc, `fatal, `soc
    {
      !IsStuck() && if hlc.active then !HasTime(1) else HasTime(1) && !HasTime(2)
    }

    /** After the event was looked at in any state, the call will end in Idle with everything closed. */
    predicate WillBeClosed()
      reads `lastDetect, `passShutdown, `currentState, `auth, `tx, `fatal, `soc
    {
      (currentState == Idle && Ended()) || (IsCutOff() && IsClosable(auth))
    }

    /** A run of the state machine, as far as the states matter that a quiet charger is found in. */
    method RunOnce(env: nat -> Env)
      requires Inv() && WaitsCold()
      modifies `currentState, `stateStarted, `auth, `tx, `pwm, `ret, `bcb, `fatal, `current, `hlc, `phases, `soc,
        `iecAllow, `legacyWakeupDone, `ppWarningPrinted, `noEnergyWarningPrinted, `trace, `lastDetect, `lastState,
        `passShutdown, `socFires
      ensures Valid() && Steady() && !Fresh() && passShutdown == fatal.shutdownType
      ensures !old(soc.enabled) ==> Unfired()
      ensures Unfired() && !old(IsStuck()) ==> RestsWell()
      ensures old(IsLeaving()) ==> LeftAs(old(currentState), old(auth), old(tx), old(soc))
      ensures old(IsCutOff()) ==> LeftOpen(old(auth), old(tx))
      ensures old(Rests()) ==>
        && (RestsWell() || IsStuck()) && (ClosesNow() <==> old(ClosesOnUnplug()))
        && (old(currentState) == Idle || tx == old(tx))
        && (old(HasTime(1)) ==> Unfired() && IsClosable(auth) == old(IsClosableAtUnplug()))
        && (CutsOffNow() <==> old(CutsOffFinished()))
        && (IsStuck() || (!hlc.active && !HasTime(1)) <==> old(StopsShort()))
      ensures Unfired() && old(IsLeaving()) ==> currentState == Idle && Ended()
      ensures old(currentState).Idle? && !old(auth).authorized && old(HasTime(1)) ==>
        && Unfired() && currentState.Idle? && !auth.authorized && (hlc.active ==> old(hlc).active || config.mode.DC?)
        && (soc.enabled ==> soc.remaining == old(soc).remaining - 50)
      ensures old(currentState).PrepareCharging? && config.mode.DC? && old(HasTime(1)) ==>
        && Unfired() && currentState.PrepareCharging? && tx == old(tx) && iecAllow == old(iecAllow)
        && (soc.enabled ==> soc.remaining == old(soc).remaining - 50)
      ensures old(currentState).WaitingForAuthentication? && !old(auth).authorized && old(HasTime(1)) ==>
        && Unfired() && currentState.WaitingForAuthentication? && !auth.authorized && hlc.active == old(hlc).active
        && (old(auth.sessionActive || (Fresh() && lastDetect != Replug)) ==> auth.sessionActive)
        && (soc.enabled ==> soc.remaining == old(soc).remaining - 50)
      ensures old(soc.enabled && soc.remaining < 50) ==>
        !soc.enabled && currentState == old(currentState) && auth == old(auth) && hlc == old(hlc)
      ensures old(IsStuck()) ==> IsStuck() && auth == old(auth)
    {
      hide Inv, Passed, IsCold, WaitsCold;
      var _ := RunStateMachine(env);
    }

    /** What an event means in any state, and the run of the state machine after it. */
    method ActInAnyState(e: CPEvent, env: Env, env2: nat -> Env)
      requires Valid() && !Fresh() && passShutdown == fatal.shutdownType
      modifies `currentState, `stateStarted, `auth, `tx, `pwm, `ret, `bcb, `fatal, `current, `hlc, `phases, `soc,
        `iecAllow, `legacyWakeupDone, `ppWarningPrinted, `noEnergyWarningPrinted, `trace, `lastDetect, `lastState,
        `passShutdown, `socFires, `contactorOpen
      ensures Valid() && !Fresh() && passShutdown == fatal.shutdownType == old(fatal).shutdownType
      ensures socFires >= old(socFires) && (soc.enabled ==> old(soc).enabled)
      ensures Unfired() ==> soc.enabled == old(soc).enabled
      ensures !old(soc.enabled) ==> Unfired()
      ensures contactorOpen == ((old(contactorOpen) || e == PowerOff) && e != PowerOn)
      ensures iecAllow ==> old(iecAllow) && e != CarRequestedStopPower
      ensures Unfired() && !old(IsStuck()) ==> RestsWell()
      ensures e.CarUnplugged? && Unfired() && old(RestsWell()) ==> currentState == Idle && Ended()
      ensures e.CarUnplugged? && old(RestsWell() || IsStuck()) ==>
        && (WillBeClosed() <==> old(ClosesNow())) && (WillBeClosed() || IsStuck() || IsCutOff())
        && (IsStuck() <==> old(IsStuck() || (!hlc.active && !HasTime(1))))
        && (IsCutOff() <==> old(CutsOffNow()))
        && (IsStuck() || IsCutOff() ==> auth == old(auth) && tx == old(tx))
      ensures e.CarUnplugged? && old(IsStuck()) ==> IsStuck()
      ensures e.CarPluggedIn? && old(currentState).Idle? && !old(auth).authorized && old(HasTime(1)) ==>
        && Unfired() && currentState.Idle? && !auth.authorized && (hlc.active ==> old(hlc).active || config.mode.DC?)
        && (soc.enabled ==> soc.remaining == old(soc).remaining - 50)
      ensures e.CarRequestedPower? && old(currentState).PrepareCharging? && config.mode.DC? && old(HasTime(1)) ==>
        Unfired() && currentState.PrepareCharging? && tx == old(tx) &&
        (soc.enabled ==> soc.remaining == old(soc).remaining - 50)
    {
      hide Inv, Valid, WaitsCold;
      ProcessCpEventIndependent(e, env);
      RunOnce(env2);
    }

    /** What an event means in the present state, and the run of the state machine after it. */
    method ActInPresentState(e: CPEvent, env: Env, env3: nat -> Env)
      requires Valid() && !Fresh() && passShutdown == fatal.shutdownType
      modifies `currentState, `stateStarted, `auth, `tx, `pwm, `ret, `bcb, `fatal, `current, `hlc, `phases, `soc,
        `iecAllow, `legacyWakeupDone, `ppWarningPrinted, `noEnergyWarningPrinted, `trace, `lastDetect, `lastState,
        `passShutdown, `socFires
      ensures Valid() && !Fresh() && passShutdown == fatal.shutdownType == old(fatal).shutdownType
      ensures socFires >= old(socFires) && (soc.enabled ==> old(soc).enabled)
      ensures Unfired() ==> soc.enabled == old(soc).enabled
      ensures !old(soc.enabled) ==> Unfired()
      ensures iecAllow ==> IecAllowAfter(old(currentState), e, old(iecAllow))
      ensures Unfired() && !old(IsStuck()) ==> RestsWell()
      ensures e.CarUnplugged? && old(WillBeClosed()) ==> currentState == Idle && Ended()
      ensures e.CarUnplugged? && old(IsCutOff()) ==> LeftOpen(old(auth), old(tx))
      ensures e.CarPluggedIn? && old(currentState).Idle? && !old(auth).authorized && old(HasTime(1)) ==>
        && Unfired() && currentState.WaitingForAuthentication? && auth.sessionActive && !auth.authorized
        && hlc.active == old(hlc).active && (soc.enabled ==> soc.remaining == old(soc).remaining - 50)
      ensures e.CarRequestedPower? && old(currentState).PrepareCharging? && config.mode.DC? && old(HasTime(1)) ==>
        Unfired() && currentState.PrepareCharging? && iecAllow && tx == old(tx)
      ensures e.CarUnplugged? && old(IsStuck()) ==> IsStuck() && auth == old(auth)
    {
      hide Inv, Valid, WaitsCold;
      ProcessCpEventState(e, env);
      RunOnce(env3);
    }

    /** An event, once the state machine has settled. */
    method ActOn(e: CPEvent, env: Env, env2: nat -> Env, env3: nat -> Env)
      requires Valid() && !Fresh() && passShutdown == fatal.shutdownType
      modifies `currentState, `stateStarted, `auth, `tx, `pwm, `ret, `bcb, `fatal, `current, `hlc, `phases, `soc,
        `iecAllow, `legacyWakeupDone, `ppWarningPrinted, `noEnergyWarningPrinted, `trace, `lastDetect, `lastState,
        `passShutdown, `socFires, `contactorOpen
      ensures Valid() && !Fresh() && passShutdown == fatal.shutdownType == old(fatal).shutdownType
      ensures socFires >= old(socFires) && (soc.enabled ==> old(soc).enabled)
      ensures Unfired() ==> soc.enabled == old(soc).enabled
      ensures !old(soc.enabled) ==> Unfired()
      ensures contactorOpen == ((old(contactorOpen) || e == PowerOff) && e != PowerOn)
      ensures e == CarRequestedStopPower ==> !iecAllow
      ensures iecAllow ==> old(iecAllow) || e == CarRequestedPower
      ensures Unfired() && !old(IsStuck()) ==> RestsWell()
      ensures e.CarUnplugged? && Unfired() && old(RestsWell()) ==> currentState == Idle && Ended()
      ensures e.CarUnplugged? && old(RestsWell() || IsStuck()) ==>
        && (currentState == Idle && Ended() <==> old(ClosesNow())) && (currentState == Idle || IsStuck())
        && (IsStuck() <==> old(IsStuck() || (!hlc.active && !HasTime(1))))
        && (IsStuck() ==> auth == old(auth))
        && (old(CutsOffNow()) ==> !tx.active && (old(tx.active) ==> SinceStop()))
      ensures e.CarUnplugged? && old(IsStuck()) ==> IsStuck()
      ensures e.CarPluggedIn? && old(currentState).Idle? && !old(auth).authorized && old(HasTime(2)) ==>
        && Unfired() && currentState.WaitingForAuthentication? && auth.sessionActive && !auth.authorized
        && (hlc.active ==> old(hlc).active || config.mode.DC?)
        && (soc.enabled ==> soc.remaining == old(soc).remaining - 100)
      ensures e.CarRequestedPower? && old(currentState).PrepareCharging? && config.mode.DC? && old(HasTime(2)) ==>
        Unfired() && currentState.PrepareCharging? && iecAllow && tx == old(tx)
    {
      hide Inv, Valid, ClosesNow, CutsOffNow;
      ActInAnyState(e, env, env2);
      ActInPresentState(e, env, env3);
    }

    /** An event of the IEC state machine: first what it means in any state, then what it means in the present one. */
    method ProcessEvent(e: CPEvent, env: Env, env1: nat -> Env, env2: nat -> Env, env3: nat -> Env)
      requires Valid()
      modifies `currentState, `stateStarted, `auth, `tx, `pwm, `ret, `bcb, `fatal, `current, `hlc, `phases, `soc,
        `iecAllow, `legacyWakeupDone, `ppWarningPrinted, `noEnergyWarningPrinted, `trace, `lastDetect, `lastState,
        `passShutdown, `socFires, `contactorOpen
      ensures Valid() && !Fresh() && passShutdown == fatal.shutdownType == old(fatal).shutdownType
      ensures socFires >= old(socFires) && (soc.enabled ==> old(soc).enabled)
      ensures Unfired() ==> soc.enabled == old(soc).enabled
      ensures !old(soc.enabled) ==> Unfired()
      ensures contactorOpen == ((old(contactorOpen) || e == PowerOff) && e != PowerOn)
      ensures e == CarRequestedStopPower ==> !iecAllow
      ensures iecAllow ==> old(iecAllow) || e == CarRequestedPower
      ensures Unfired() && !old(IsStuck()) ==> RestsWell()
      ensures FollowsEvent(e)
    {
      hide Inv, Ended, Rests, ClosesNow, CutsOffNow;
      RunOnce(env1);
      ActOn(e, env, env2, env3);
    }

    /** Notes what was sent so far. */
    ghost method BeginEntry()
      requires Valid()
      modifies `prior
      ensures Valid() && prior == trace.events
    {
      assert Recall(0);
      prior := trace.events;
    }

    /** What the main thread sends before its first round. */
    method StartMainThread()
      requires Valid()
      modifies `trace
      ensures Valid() && trace.mon == old(trace).mon
      ensures trace.events == old(trace).events +
        [EnableBsp(true)] + [MaxCurrentSignal(MaxCurrentInternal())] + [StateSignal(currentState)]
    {
      Publish(EnableBsp(true));
      Publish(MaxCurrentSignal(MaxCurrentInternal()));
      Publish(StateSignal(currentState));
    }

    method SetShutdownType(t: ShutdownType)
      requires Inv()
      modifies `fatal, `trace
      ensures Inv() && IsCold() == old(IsCold())
      ensures fatal == old(fatal).(shutdownType := t)
      ensures trace.events == old(trace).events + [ShutdownTypeSet(t)]
    {
      assert Recall(0);
      fatal := fatal.(shutdownType := t);
      trace := Emit(trace, ShutdownTypeSet(t));
    }

    /** One batch of the error thread; nothing else of the charger changes until the next run of the state machine. */
    method ProcessErrorEvents(events: seq<ErrorHandlingEvent>)
      requires Valid()
      modifies `fatal, `trace
      ensures Valid()
      ensures fatal == old(fatal).(shutdownType := AppliedAll(old(fatal).shutdownType, events))
    {
      var k := 0;
      while k < |events|
        invariant 0 <= k <= |events|
        invariant Valid()
        invariant fatal == old(fatal).(shutdownType := AppliedAll(old(fatal).shutdownType, events[..k]))
      {
        assert events[..k + 1][..k] == events[..k];
        SetShutdownType(Applied(fatal.shutdownType, events[k]));
        k := k + 1;
      }
      assert events[..k] == events;
    }

    /** A new current budget, accepted if it is within bounds and still valid; a negative one asks to discharge. */
    method SetMaxCurrent(c: real, validUntil: int, now: int) returns (accepted: bool)
      requires Valid()
      modifies `current, `trace
      ensures Valid() && trace.mon == old(trace).mon
      ensures accepted <==> Abs(c) <= CHARGER_ABSOLUTE_MAX_CURRENT && validUntil > now
      ensures current == if accepted then old(current).(max := Abs(c), validUntil := validUntil) else old(current)
      ensures accepted ==>
        var limit := MaxCurrentInternal();
        && 0.0 <= current.max
        && (limit == Abs(c) || (limit == current.cable && limit < Abs(c)))
        && trace.events == old(trace).events +
           [OverCurrentLimit(limit)] + [MaxCurrentSignal(if c < 0.0 then -limit else limit)]
      ensures !accepted ==> trace == old(trace)
    {
      var a := Abs(c);
      if a <= CHARGER_ABSOLUTE_MAX_CURRENT {
        if validUntil > now {
          current := current.(max := a, validUntil := validUntil);
          a := MaxCurrentInternal();
          Publish(OverCurrentLimit(a));
          Publish(MaxCurrentSignal(if c < 0.0 then -a else a));
          return true;
        }
      }
      return false;
    }

    /** Pauses if charging, else does nothing. */
    method PauseCharging() returns (paused: bool)
      requires Valid()
      modifies `legacyWakeupDone, `currentState, `trace
      ensures Valid() && trace.mon == old(trace).mon
      ensures paused <==> old(currentState) == Charging
      ensures currentState == if paused then ChargingPausedEVSE else old(currentState)
      ensures trace.events == old(trace).events + if paused && hlc.active && tx.active then [HlcPauseCharging] else []
      ensures legacyWakeupDone == (old(legacyWakeupDone) && !paused)
    {
      if currentState == Charging {
        if hlc.active && tx.active {
          Publish(HlcPauseCharging);
        }
        AllowWakeUp();
        MoveTo(ChargingPausedEVSE);
        return true;
      }
      return false;
    }

    /** Resumes from a pause by the user, if the transaction is still running. */
    method ResumeCharging() returns (resumed: bool)
      requires Valid()
      modifies `currentState, `trace
      ensures Valid() && trace.mon == old(trace).mon
      ensures resumed <==> tx.active && old(currentState) == ChargingPausedEVSE
      ensures currentState ==
        if !resumed then old(currentState) else if hlc.active then PrepareCharging else WaitingForEnergy
      ensures trace.events == old(trace).events +
        if resumed && hlc.active && hlc.terminatePause == Terminate then [SlacStart] else []
    {
      if hlc.active && tx.active && currentState == ChargingPausedEVSE {
        MoveTo(PrepareCharging);
        if hlc.terminatePause == Terminate {
          Publish(SlacStart);
        }
        return true;
      } else if tx.active && currentState == ChargingPausedEVSE {
        MoveTo(WaitingForEnergy);
        return true;
      }
      return false;
    }

    method PauseChargingWaitForPower() returns (paused: bool)
      requires Valid()
      modifies `currentState
      ensures Valid()
      ensures paused <==> (old(currentState) == Charging || old(currentState) == ChargingPausedEV)
      ensures currentState == if paused then WaitingForEnergy else old(currentState)
    {
      paused := PauseChargingWaitForPowerInternal();
    }

    /** Resumes once energy is there again, but not from a pause by the user. */
    method ResumeChargingPowerAvailable(now: int) returns (resumed: bool)
      requires Valid()
      modifies `current, `currentState, `trace
      ensures Valid() && trace.mon == old(trace).mon
      ensures resumed <==>
        (tx.active && old(currentState) == WaitingForEnergy &&
         (now - old(current).validUntil < 1000 || old(current).max <= 0.0) && old(MaxCurrentInternal()) > 5.9)
      ensures currentState == if resumed then PrepareCharging else old(currentState)
    {
      if tx.active && currentState == WaitingForEnergy {
        var available := PowerAvailable(now);
        if available {
          MoveTo(PrepareCharging);
          return true;
        }
      }
      return false;
    }

    /** Notes why the transaction is to stop; from here on it is not authorized any more. */
    method RecordCancel(reason: StopTransactionReason, token: Option<IdToken>)
      requires Inv()
      modifies `auth, `tx, `trace
      ensures Inv() && IsCold() == old(IsCold())
      ensures auth == old(auth).(authorized := false, authorizedPnc := false)
      ensures tx == old(tx).(stopReason := Some(reason), stopToken := token)
      ensures LatestCancel() == Some(Cancel(reason, token))
      ensures trace.events == old(trace).events + [CancelAccepted(reason, token)]
    {
      assert Recall(0);
      auth := auth.(authorized := false, authorizedPnc := false);
      tx := tx.(stopReason := Some(reason), stopToken := token);
      trace := Emit(trace, CancelAccepted(reason, token));
    }

    /** Brings an active transaction's charging to an end: HLC is told why, basic charging loses its PWM. */
    method WindDown(reason: StopTransactionReason)
      requires Inv() && tx.active
      modifies `currentState, `pwm, `trace
      ensures Inv() && IsCold() == old(IsCold())
      ensures currentState == if hlc.active then StoppingCharging else ChargingPausedEVSE
      ensures trace.events == old(trace).events +
        if !hlc.active then [SetPwmOff]
        else if reason == EmergencyStop then [HlcError(HlcEmergencyShutdown), HlcStopCharging]
        else if reason == PowerLoss then [HlcError(HlcUtilityInterrupt), HlcStopCharging]
        else [HlcStopCharging]
    {
      if hlc.active {
        if reason == EmergencyStop {
          Publish(HlcError(HlcEmergencyShutdown));
        } else if reason == PowerLoss {
          Publish(HlcError(HlcUtilityInterrupt));
        }
        MoveTo(StoppingCharging);
        Publish(HlcStopCharging);
      } else {
        MoveTo(ChargingPausedEVSE);
        PwmOff();
      }
    }

    /** Winds down, then notes why. */
    method AcceptCancel(reason: StopTransactionReason, token: Option<IdToken>)
      requires Inv() && tx.active
      modifies `currentState, `pwm, `auth, `tx, `trace
      ensures Inv() && IsCold() == old(IsCold())
      ensures currentState == if hlc.active then StoppingCharging else ChargingPausedEVSE
      ensures auth == old(auth).(authorized := false, authorizedPnc := false)
      ensures tx == old(tx).(stopReason := Some(reason), stopToken := token)
      ensures LatestCancel() == Some(Cancel(reason, token))
      ensures |trace.events| > 0 && trace.events[|trace.events| - 1] == CancelAccepted(reason, token)
    {
      WindDown(reason);
      RecordCancel(reason, token);
    }

    method StopIfContactorOpen(env: Env)
      requires Inv() && tx.active && tx.stopReason.Some?
      requires LatestCancel() == Some(Cancel(tx.stopReason.value, tx.stopToken))
      modifies `tx, `trace
      ensures Inv() && IsCold() == old(IsCold())
      ensures tx.active == !contactorOpen && tx.stopReason == old(tx).stopReason && tx.stopToken == old(tx).stopToken
      ensures contactorOpen ==> old(trace).events < trace.events
      ensures contactorOpen ==>
        trace.events[|trace.events| - 1] == TransactionFinished(tx.stopReason.value, tx.stopToken)
      ensures !contactorOpen ==> trace == old(trace)
    {
      if contactorOpen {
        StopTransaction(env);
      }
    }

    /** Stops the transaction now if the contactor is open already; otherwise its opening will. */
    method CancelTransaction(reason: StopTransactionReason, token: Option<IdToken>, env: Env) returns (accepted: bool)
      requires Valid()
      modifies `currentState, `pwm, `auth, `tx, `trace
      ensures Valid()
      ensures accepted <==> old(tx).active
      ensures !accepted ==>
        currentState == old(currentState) && auth == old(auth) && tx == old(tx) && trace == old(trace)
      ensures accepted ==>
        && currentState == (if hlc.active then StoppingCharging else ChargingPausedEVSE)
        && auth == old(auth).(authorized := false, authorizedPnc := false)
        && tx.stopReason == Some(reason) && tx.stopToken == token
        && tx.active == !contactorOpen
        && |trace.events| > 0
        && trace.events[|trace.events| - 1] ==
           if contactorOpen then TransactionFinished(reason, token) else CancelAccepted(reason, token)
    {
      if tx.active {
        AcceptCancel(reason, token);
        StopIfContactorOpen(env);
        return true;
      }
      return false;
    }

    method RequestPhases(three: bool)
      requires Inv()
      modifies `phases
      ensures Inv() && phases == PhaseSwitch(three, true)
    {
      phases := PhaseSwitch(three, true);
    }

    /** Switches between one and three phases; a charging session goes through a waiting state. */
    method SwitchThreePhasesWhileCharging(three: bool) returns (accepted: bool)
      requires Valid()
      modifies `phases, `ret, `currentState, `trace
      ensures Valid() && trace.mon == old(trace).mon
      ensures accepted == !hlc.active
      ensures !accepted || (old(currentState) != Charging && old(currentState) != WaitingForEnergy) ==>
        currentState == old(currentState) && ret == old(ret)
      ensures accepted && (old(currentState) == Charging || old(currentState) == WaitingForEnergy) ==>
        && currentState == SwitchPhases && phases == PhaseSwitch(three, true)
        && ret.switchState == if old(currentState) == Charging then PrepareCharging else WaitingForEnergy
      ensures accepted && old(currentState) == SwitchPhases ==> phases == old(phases).(three := three)
      ensures trace.events == old(trace).events +
        if accepted && old(currentState) != Charging && old(currentState) != WaitingForEnergy &&
           old(currentState) != SwitchPhases
        then [SwitchThreePhases(three)] else []
    {
      if hlc.active {
        return false;
      }
      if currentState == Charging {
        RequestPhases(three);
        EnterSwitchPhases(PrepareCharging);
      } else if currentState == SwitchPhases {
        phases := phases.(three := three);
      } else if currentState == WaitingForEnergy {
        RequestPhases(three);
        EnterSwitchPhases(WaitingForEnergy);
      } else {
        Publish(SwitchThreePhases(three));
      }
      return true;
    }

    /** Takes over the configuration. */
    method Setup(cfg: ConfigContext, socTimeout: bool)
      requires Valid()
      modifies `config, `hlc, `soc, `trace
      ensures Valid() && IsCold() == old(IsCold())
      ensures config == cfg && hlc == old(hlc).(acEnabled := cfg.acHlcEnabled)
      ensures soc == SocTimer(socTimeout, SOC_TIMER_MS)
      ensures trace.events == old(trace).events + [ConfigSet(cfg)]
    {
      hide Inv;
      SetConfig(cfg);
      hlc := hlc.(acEnabled := cfg.acHlcEnabled);
      soc := SocTimer(socTimeout, SOC_TIMER_MS);
    }

    method SetConfig(cfg: ConfigContext)
      requires Inv()
      modifies `config, `trace
      ensures Inv() && IsCold() == old(IsCold()) && config == cfg
      ensures trace.events == old(trace).events + [ConfigSet(cfg)]
    {
      assert Recall(0);
      config := cfg;
      trace := Emit(trace, ConfigSet(cfg));
    }

    method RememberToken(token: IdToken)
      requires Inv()
      modifies `auth
      ensures Inv() && auth == old(auth).(idToken := token)
    {
      assert Recall(0);
      auth := auth.(idToken := token);
    }

    /** Grants or withdraws authorization; a grant opens the session if plugging in did not do so yet. */
    method Authorize(a: bool, token: IdToken, newId: SessionId)
      requires Valid()
      modifies `auth, `trace
      ensures Valid()
      ensures auth.authorized == a && (a ==> auth.sessionActive)
      ensures a ==> auth.idToken == token && auth.authorizedPnc == token.plugAndCharge
      ensures a ==> auth.sessionUuid == if old(auth).sessionActive then old(auth).sessionUuid else newId
      ensures !a ==> !auth.sessionActive && auth.sessionUuid == ""
      ensures trace.events == old(trace).events +
        if a then
          (if old(auth).sessionActive then [] else [SessionStarted(StartAuthorized, Some(token))]) +
          [Simple(Authorized)]
        else if old(auth).sessionActive then [Simple(SessionFinished)] else []
    {
      if a {
        RememberToken(token);
        if !auth.sessionActive {
          StartSession(true, newId);
        }
        PublishAuthorized(token.plugAndCharge);
      } else {
        if auth.sessionActive {
          StopSession();
        }
        assert !auth.authorized && auth.sessionUuid == "" by { assert Recall(0); }
      }
    }

    method Deauthorize() returns (withdrawn: bool)
      requires Valid()
      modifies `auth, `trace
      ensures Valid()
      ensures withdrawn <==>
        (old(auth).authorized &&
         (currentState == Disabled || currentState == Idle || currentState == WaitingForAuthentication))
      ensures auth == if withdrawn
        then old(auth).(sessionActive := false, authorized := false, sessionUuid := "") else old(auth)
    {
      withdrawn := DeauthorizeInternal();
    }

    /** Takes over a new table and decision; one that changes the availability comes with its event. */
    method SetTable(t: seq<Entry>, winner: Entry, e: Event)
      requires Inv() && UniqueSources(t)
      requires e.AvailabilityPublished? || (e.Availability? && e.enabled != (active.state != Disable))
      requires e.enabled == (winner.state != Disable)
      modifies `table, `active, `trace
      ensures Inv() && IsCold() == old(IsCold()) && table == t && active == winner
      ensures trace.events == old(trace).events + [e]
    {
      assert Recall(0);
      trace := Emit(trace, e);
      table := t;
      active := winner;
    }

    method SetTableSilently(t: seq<Entry>, winner: Entry)
      requires Inv() && UniqueSources(t) && (winner.state == Disable <==> active.state == Disable)
      modifies `table, `active
      ensures Inv() && table == t && active == winner
    {
      assert Recall(0);
      table := t;
      active := winner;
    }

    /** Publishes the startup state and makes sure that it is in the table. */
    method EnableDisableInitialStatePublish()
      requires Valid()
      modifies `table, `active, `trace
      ensures Valid()
      ensures active == Entry(Unspecified, if currentState == Disabled then Disable else Enable, 10000)
      ensures Requests(table) == Overwrite(old(Requests(table)), active)
      ensures trace.events == old(trace).events + [AvailabilityPublished(currentState != Disabled)]
    {
      var source := Entry(Unspecified, if currentState == Disabled then Disable else Enable, 10000);
      assert UniqueSources(table) by { assert Recall(0); }
      var t := UpdateTable(table, source);
      SetTable(t, source, AvailabilityPublished(currentState != Disabled));
    }

    /** Writes the request to the table and lets the table decide; the decision is announced if it changed. */
    method Decide(source: Entry) returns (enabled: bool, changed: bool)
      requires Inv()
      modifies `table, `active, `trace
      ensures Inv() && IsCold() == old(IsCold())
      ensures Requests(table) == Overwrite(old(Requests(table)), source)
      ensures enabled <==> !DisabledBy(Requests(table))
      ensures enabled <==> active.state != Disable
      ensures changed <==> enabled != (old(active).state != Disable)
      ensures trace.events == old(trace).events + if changed then [Availability(enabled)] else []
    {
      assert UniqueSources(table) by { assert Recall(0); }
      var t := UpdateTable(table, source);
      var winner;
      enabled, winner := ParseTable(t);
      changed := (winner.state == Disable || active.state == Disable) && winner.state != active.state;
      if changed {
        SetTable(t, winner, Availability(enabled));
      } else {
        SetTableSilently(t, winner);
      }
    }

    /** The state and the decision of the table agree. */
    predicate InStep()
      reads `currentState, `active
    {
      currentState == Disabled <==> active.state == Disable
    }

    /**
     Enables or disables for one source. Connector 0 stands for the whole station and leaves the connector flag
     alone.
     */
    method EnableDisable(connector: int, source: Entry) returns (enabled: bool)
      requires Valid()
      modifies `table, `active, `connectorEnabled, `currentState, `trace
      ensures Valid()
      ensures Requests(table) == Overwrite(old(Requests(table)), source)
      ensures enabled <==> !DisabledBy(Requests(table))
      ensures enabled <==> active.state != Disable
      ensures connectorEnabled == if connector != 0 then enabled else old(connectorEnabled)
      ensures
        var changed := enabled != (old(active).state != Disable);
        && currentState == (
             if !enabled && changed then Disabled
             else if old(currentState) == Disabled && connectorEnabled then Idle
             else old(currentState))
        && trace.events == old(trace).events + (if changed then [Availability(enabled)] else []) + [EnableBsp(enabled)]
      ensures InStep() <==>
        if DisabledBy(Overwrite(old(Requests(table)), source)) then
          old(active).state != Disable || (old(currentState) == Disabled && (connector != 0 || !old(connectorEnabled)))
        else old(currentState) != Disabled || connector != 0 || old(connectorEnabled)
    {
      var changed;
      enabled, changed := Decide(source);
      if connector != 0 {
        connectorEnabled := enabled;
      }
      if currentState == Disabled && connectorEnabled {
        MoveTo(Idle);
      }
      if changed && !enabled {
        MoveTo(Disabled);
      }
      Publish(EnableBsp(enabled));
    }

    method SetConnectorType(isSocket: bool)
      requires Valid()
      modifies `socket
      ensures Valid() && socket == isSocket
    {
      socket := isSocket;
    }

    method SetCurrentDrawnByVehicle(l1: real, l2: real, l3: real)
      requires Valid()
      modifies `current
      ensures Valid() && current == old(current).(drawn := (l1, l2, l3))
    {
      current := current.(drawn := (l1, l2, l3));
    }

    /** A failed matching asks for T_step_EF before it is tried again. */
    method RequestErrorSequence()
      requires Valid()
      modifies `ret, `currentState, `trace
      ensures Valid() && trace.mon == old(trace).mon
      ensures
        var due := old(currentState) == WaitingForAuthentication || old(currentState) == PrepareCharging;
        && currentState == (if due then TStepEF else old(currentState))
        && trace.events == old(trace).events + (if due then [SlacReset] else [])
        && ret == if due
           then old(ret).(efState := old(currentState), efAmpere := 0.0,
                          efPwm := if hlc.use5Percent then PWM_5_PERCENT else 0.0)
           else old(ret)
    {
      if currentState == WaitingForAuthentication || currentState == PrepareCharging {
        assert IsCold() by { assert Recall(0); }
        EnterEF(currentState, if hlc.use5Percent then PWM_5_PERCENT else 0.0, 0.0);
        Publish(SlacReset);
      }
    }

    method SetMatchingStarted(m: bool)
      requires Valid()
      modifies `hlc
      ensures Valid() && hlc == old(hlc).(matchingStarted := m)
    {
      hlc := hlc.(matchingStarted := m);
    }

    /** In DC the current demand phase of HLC is what starts charging. */
    method NotifyCurrentDemandStarted()
      requires Valid()
      modifies `currentState, `trace
      ensures Valid() && trace.mon == old(trace).mon
      ensures currentState == if old(currentState) == PrepareCharging then Charging else old(currentState)
      ensures trace.events == old(trace).events +
        if old(currentState) == PrepareCharging then [Simple(ChargingStarted)] else []
    {
      if currentState == PrepareCharging {
        Publish(Simple(ChargingStarted));
        MoveTo(Charging);
      }
    }

    method InformNewEvseMaxHlcLimits(limits: DcLimits)
      requires Valid()
      modifies `hlc
      ensures Valid() && hlc == old(hlc).(limits := limits)
    {
      hlc := hlc.(limits := limits);
    }

    /** HLC ends or pauses the data link: contactors must open and the PWM goes off. */
    method EndDlink(how: HlcTerminatePause)
      requires Valid()
      modifies `hlc, `pwm, `trace
      ensures Valid()
      ensures hlc == old(hlc).(allow := false, terminatePause := how)
      ensures pwm == old(pwm).(running := false, lastDc := 1.0, setAmpere := 0.0, fActive := false)
      ensures trace.events == old(trace).events + [SetPwmOff]
    {
      hlc := hlc.(allow := false);
      PwmOff();
      hlc := hlc.(terminatePause := how);
    }

    method DlinkPause()
      requires Valid()
      modifies `hlc, `pwm, `trace
      ensures Valid() && hlc == old(hlc).(allow := false, terminatePause := Pause) && !pwm.running
      ensures trace.events == old(trace).events + [SetPwmOff]
    {
      EndDlink(Pause);
    }

    method DlinkTerminate()
      requires Valid()
      modifies `hlc, `pwm, `trace
      ensures Valid() && hlc == old(hlc).(allow := false, terminatePause := Terminate) && !pwm.running
      ensures trace.events == old(trace).events + [SetPwmOff]
    {
      EndDlink(Terminate);
    }

    /** Restarts the session through X1 and E/F if the 5 percent PWM is on (V2G3-M07-04 to M07-12 of ISO 15118-3). */
    method DlinkError()
      requires Valid()
      modifies `hlc, `ret, `currentState
      ensures Valid() && hlc == old(hlc).(allow := false)
      ensures if pwm.running && hlc.use5Percent
        then
          && currentState == TStepX1
          && ret == old(ret).(x1State := TStepEF, x1Pwm := 0.0,
                              efState := WaitingForAuthentication, efPwm := 0.0, efAmpere := 0.0)
        else currentState == old(currentState) && ret == old(ret)
    {
      hlc := hlc.(allow := false);
      if pwm.running {
        if hlc.use5Percent {
          EnterX1ThenEF();
        }
      }
    }

    method SetHlcChargingActive()
      requires Valid()
      modifies `hlc
      ensures Valid() && hlc == old(hlc).(active := true)
    {
      hlc := hlc.(active := true);
    }

    method SetHlcAllowCloseContactor(on: bool)
      requires Valid()
      modifies `hlc
      ensures Valid() && hlc == old(hlc).(allow := on)
    {
      hlc := hlc.(allow := on);
    }

    method StopChargingOnFatalError(now: int) returns (err: bool)
      requires Valid()
      modifies `pwm, `fatal, `trace
      ensures Valid() && fatal.shutdownType == old(fatal).shutdownType && fatal.lastShutdownType == fatal.shutdownType
      ensures err <==> old(fatal).shutdownType != NoShutdown
      ensures Granted() <==> (old(Granted()) && !old(RoutineDue()))
    {
      err := StopChargingOnFatalErrorInternal(now);
    }

    // ------------------------------------------------------------ single calls

    twostate predicate SameSetup()
      reads `config, `table, `active, `connectorEnabled
    {
      config == old(config) && table == old(table) && active == old(active) && connectorEnabled == old(connectorEnabled)
    }

    /** State, session, transaction, requests and timer are as before. */
    twostate predicate SameProgress()
      reads `currentState, `lastDetect, `passShutdown, `tx, `iecAllow, `soc, `bcb
    {
      && currentState == old(currentState) && lastDetect == old(lastDetect) && passShutdown == old(passShutdown)
      && tx == old(tx) && iecAllow == old(iecAllow) && soc == old(soc) && bcb == old(bcb)
    }

    /** The SoC timer stays on until it fires. */
    twostate predicate KeepsTimer()
      reads `soc, `socFires
    {
      && (soc.enabled ==> old(soc.enabled)) && (!old(soc.enabled) ==> Unfired())
      && (Unfired() ==> soc.enabled == old(soc.enabled))
    }

    /** A request to enable or disable, and what it does to table, flag and state. */
    twostate predicate Decided(connector: int, source: Entry)
      reads `table, `active, `connectorEnabled, `currentState
    {
      var disabled := DisabledBy(Overwrite(old(Requests(table)), source));
      && Requests(table) == Overwrite(old(Requests(table)), source)
      && (active.state == Disable <==> disabled)
      && connectorEnabled == (if connector != 0 then !disabled else old(connectorEnabled))
      && currentState == (
           if disabled && old(active).state != Disable then Disabled
           else if old(currentState) == Disabled && connectorEnabled then Idle
           else old(currentState))
      && (InStep() <==>
            if disabled then
              || old(active).state != Disable
              || (old(currentState) == Disabled && (connector != 0 || !old(connectorEnabled)))
            else old(currentState) != Disabled || connector != 0 || old(connectorEnabled))
    }

    /** What one call does, as far as it matters to the runs that are looked at one by one. */
    twostate predicate Does(i: Input)
      reads `config, `socket, `currentState, `lastDetect, `lastState, `passShutdown, `auth, `tx, `bcb, `fatal, `current,
        `hlc, `soc, `socFires, `iecAllow, `connectorEnabled, `table, `active, `trace
    {
      match i
      case TickInput(_, env) => SameSetup() && KeepsTimer() && Ticked(env) && !Fresh()
      case CpInput(event, _, _, _, _) => SameSetup() && KeepsTimer() && FollowsEvent(event)
      case ErrorInput(_) => SameSetup() && SameProgress() && auth == old(auth) && hlc == old(hlc)
      case FromUser(user) => user.AuthorizeCall? ==> SameSetup() && SameProgress() && hlc == old(hlc)
      case FromOperator(EnableDisableCall(connector, source)) =>
        && Decided(connector, source) && config == old(config) && lastDetect == old(lastDetect)
        && auth == old(auth) && tx == old(tx) && soc == old(soc)
      case FromOperator(SetupCall(cfg, socTimeout)) =>
        && config == cfg && soc == SocTimer(socTimeout, SOC_TIMER_MS) && currentState == old(currentState)
        && auth == old(auth) && tx == old(tx) && hlc.active == old(hlc).active
      case FromHlc(HlcAllowCall(on)) => SameSetup() && SameProgress() && hlc == old(hlc).(allow := on)
      case _ => true
    }
  }
}
