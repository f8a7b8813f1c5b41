/**
 The low-level control-pilot machine (IECStateMachine.cpp), after the sequences of Table A.6 in
 Annex A of IEC 61851-1. A raw state of the board and its evaluation are separate steps, so that
 evaluations may come late and skip states. One evaluation is atomic, its signals included.
 */
module IecMachine {
  import opened Common
  import opened DutyCycle
  import opened IecMonitor
  import opened Timers

  const C1_TIMEOUT := 6000 // power_off_under_load_in_c1_timeout
  const UNLOCK_F_TIMEOUT := 5000 // unlock_in_state_f_timeout
  const SIMPLIFIED_LIMIT_PWM := 10.0 / 0.6 / 100.0

  datatype TimerControl = DoNothing | StartTimer | StopTimer

  /** One call from the board, the connector, the charger or the clock. */
  datatype Input =
    | RawInput(raw: RawCPState)
    | RelayInput(closed: bool)
    | ReplugInput(finished: bool)
    | PwmInput(duty: real)
    | PwmOffInput
    | PwmFInput
    | GrantInput(grant: bool, reason: PowerReason)
    | SetupInput(ventilation: bool)
    | SimplifiedLimitInput(limit: bool)
    | EnableInput(enable: bool)
    | ForceUnlockInput
    | EvaluateInput(elapsed: nat)

  class IecStateMachine {
    const lockInB: bool
    const c1: AsyncTimeout
    const unlockF: AsyncTimeout
    var pwmRunning: bool
    var lastPwmRunning: bool
    var simplifiedLimit: bool
    var simplifiedMode: bool
    var hasVentilation: bool
    var allowed: bool // power_on_allowed
    var lastAllowed: bool
    var reason: PowerReason // power_on_reason
    var pluggedIn: bool // car_plugged_in
    var cp: RawCPState
    var lastCp: RawCPState
    var locked: bool // is_locked
    var shouldLock: bool // should_be_locked
    var forceUnlocked: bool
    var enabled: bool
    var relayOn: bool // relais_on
    var trace: Trace
    ghost var history: seq<Input> // the calls, as noted by whoever plays a run
    ghost var prior: seq<IecEvent> // what was sent up to a moment in the past

    /** Contactor permission and what it rests on. */
    ghost predicate PowerInv()
      reads `allowed, `reason, `lastCp, `lastPwmRunning, `trace, c1
    {
      var m := trace.mon.power;
      && m.powerOk && m.timeOk
      && (allowed ==> m.grant == Some(reason))
      && (m.on ==>
            && allowed && m.powerState && (lastCp.CpC? || lastCp.CpD?)
            && (lastPwmRunning ==> m.offSince.None?)
            && (!lastPwmRunning ==>
                  && c1.running && c1.limit == C1_TIMEOUT && m.offSince == Some(c1.startTime)
                  && m.now - c1.startTime <= C1_TIMEOUT))
    }

    ghost predicate LockInv()
      reads `locked, `relayOn, `shouldLock, `forceUnlocked, `trace
    {
      var m := trace.mon.lock;
      && m.lockOk && m.locked == locked && m.relay == relayOn
      && (relayOn ==> locked)
      && (locked ==> relayOn || (shouldLock && !forceUnlocked))
    }

    ghost predicate PlugInv()
      reads `pluggedIn, `cp, `lastCp, `trace
    {
      PlugFits(trace.mon.plug, pluggedIn, cp, lastCp) && trace.mon.plug.owed.None?
    }

    /**
     The plug as last evaluated; a car that was seen was reported, and one that was reported is seen unless
     Disabled came between.
     */
    static ghost predicate PlugFits(m: PlugMonitor, pluggedIn: bool, cp: RawCPState, lastCp: RawCPState) {
      && m.plugOk && m.raw == cp && m.last == lastCp && m.seen == pluggedIn
      && (lastCp.CpA? ==> !pluggedIn)
      && (m.owed.None? ==> PlugReported(m, cp))
    }

    static ghost predicate PlugReported(m: PlugMonitor, cp: RawCPState) {
      && (m.seen ==> m.plugged)
      && (m.plugged && !m.seen ==> m.disabledSince)
      && (m.plugged && m.last.CpDisabled? ==> m.disabledSince)
      && (m.known ==> (m.plugged ==> !m.disabledSince) && (cp.CpDisabled? ==> m.last.CpDisabled? && !m.plugged))
    }

    /** Nothing that was sent is ever taken back. */
    ghost predicate Grows()
      reads `prior, `trace
    {
      prior <= trace.events
    }

    ghost predicate Valid()
      reads `allowed, `reason, `cp, `lastCp, `lastPwmRunning, `locked, `relayOn, `shouldLock, `forceUnlocked,
        `pluggedIn, `prior, `trace, c1
    {
      c1 != unlockF && Grows() && PowerInv() && LockInv() && PlugInv()
    }

    /** Notes what was sent so far. */
    ghost method Mark()
      requires Valid()
      modifies `prior
      ensures Valid() && prior == trace.events
    {
      prior := trace.events;
    }

    /** When the state machine was last run. */
    ghost function LastEvaluation(): int
      reads `trace
    {
      trace.mon.power.now
    }

    /** How often the connector was locked. */
    ghost function Locks(): nat
      reads `trace
    {
      trace.mon.lock.locks
    }

    /** How often the car was reported as plugged in and as unplugged. */
    ghost function Count(): PlugCount
      reads `trace
    {
      trace.mon.plug.count
    }

    static function Counted(c: PlugCount, pluggedIn: bool, unplugged: bool): PlugCount {
      PlugCount(c.ins + if pluggedIn then 1 else 0, c.outs + if unplugged then 1 else 0)
    }

    /** A forced unlock is in effect. */
    predicate Held()
      reads `forceUnlocked, `relayOn, `cp
    {
      lockInB && forceUnlocked && !relayOn && (cp.CpB? || cp.CpC? || cp.CpD?)
    }

    constructor (lockConnectorInStateB: bool)
      ensures Valid() && LastEvaluation() == 0 && fresh(c1) && fresh(unlockF)
      ensures lockInB == lockConnectorInStateB && !allowed && !pwmRunning && !enabled && !relayOn && !locked
      ensures cp.CpDisabled? && lastCp.CpDisabled? && !pluggedIn && !hasVentilation && Count() == PlugCount(0, 0)
      ensures trace.events == [] && history == [] && prior == []
    {
      lockInB := lockConnectorInStateB;
      c1 := new AsyncTimeout();
      unlockF := new AsyncTimeout();
      pwmRunning, lastPwmRunning := false, false;
      simplifiedLimit, simplifiedMode, hasVentilation := false, false, false;
      allowed, lastAllowed, reason := false, false, ReasonPowerOff;
      pluggedIn := false;
      cp, lastCp := CpDisabled, CpDisabled;
      locked, shouldLock, forceUnlocked, enabled, relayOn := false, false, false, false, false;
      trace := EMPTY_TRACE;
      history, prior := [], [];
    }

    method Send(e: IecEvent)
      modifies `trace
      ensures trace.events == old(trace).events + [e] && trace.mon == Next(old(trace).mon, e)
      ensures old(Grows()) ==> Grows()
    {
      trace := Emit(trace, e);
    }

    /** An "off" also takes the charger's grant back (call_allow_power_on_bsp). */
    method CallAllowPowerOnBsp(value: bool)
      modifies `allowed, `reason, `trace
      ensures allowed == (old(allowed) && value)
      ensures reason == if value then old(reason) else ReasonPowerOff
      ensures trace.events == old(trace).events + [BoardPower(value, reason)]
      ensures trace.mon == Next(old(trace).mon, BoardPower(value, reason))
      ensures old(Grows()) ==> Grows()
    {
      if !value {
        allowed := false;
        reason := ReasonPowerOff;
      }
      Send(BoardPower(value, reason));
    }

    // -------------------------------------------------------- connector lock

    method ConnectorLock()
      modifies `shouldLock
      ensures shouldLock
    {
      shouldLock := true;
    }

    method ConnectorUnlock()
      modifies `shouldLock, `forceUnlocked
      ensures !shouldLock && !forceUnlocked
    {
      shouldLock := false;
      forceUnlocked := false;
    }

    /** Brings the lock in line with the relay and the control pilot. */
    method CheckConnectorLock()
      requires trace.mon.lock.lockOk && trace.mon.lock.locked == locked && trace.mon.lock.relay == relayOn
      modifies `locked, `trace
      ensures LockInv()
      ensures locked == (relayOn || (shouldLock && !forceUnlocked))
      ensures trace.mon == old(trace).mon.(lock := trace.mon.lock)
      ensures Locks() == old(Locks()) + if locked && !old(locked) then 1 else 0
      ensures trace.events == old(trace).events +
        if locked == old(locked) then [] else if locked then [LockSignal] else [UnlockSignal]
      ensures old(Grows()) ==> Grows()
    {
      var should := relayOn || (shouldLock && !forceUnlocked);
      if !locked && should {
        Send(LockSignal);
        locked := true;
      } else if locked && !should {
        Send(UnlockSignal);
        locked := false;
      }
    }

    /** Unlocks at once if the relay is open; in B and C the connector then stays unlocked. */
    method ConnectorForceUnlock()
      requires Valid()
      modifies `locked, `forceUnlocked, `trace
      ensures Valid()
      ensures locked == relayOn && Locks() == old(Locks()) && LastEvaluation() == old(LastEvaluation())
      ensures Count() == old(Count())
      ensures forceUnlocked == (old(forceUnlocked) || cp.CpB? || cp.CpC?)
      ensures trace.events == old(trace).events + if relayOn then [] else [UnlockSignal]
    {
      if !relayOn {
        Send(UnlockSignal);
        locked := false;
      }
      if cp.CpB? || cp.CpC? {
        forceUnlocked := true;
        CheckConnectorLock();
      }
    }

    // ------------------------------------------------------------- evaluation

    /** Nothing was said to the board. */
    twostate predicate PowerKept()
      reads `allowed, `reason, `prior, `trace
    {
      && (old(Grows()) ==> Grows())
      && allowed == old(allowed) && reason == old(reason) && trace.mon == old(trace).mon
    }

    /** The board was told "off", and the grant is gone. */
    twostate predicate PowerCut()
      reads `allowed, `reason, `prior, `trace
    {
      && (old(Grows()) ==> Grows())
      && !allowed && reason == ReasonPowerOff
      && trace.mon == old(trace).mon.(power := old(trace).mon.power.(on := false, grant := None))
    }

    predicate PlugsIn()
      reads `lastCp, `pluggedIn
    {
      WasAway(lastCp, pluggedIn)
    }

    method StateDisabled() returns (q: seq<CPEvent>, c1ctl: TimerControl)
      requires cp.CpDisabled?
      modifies `pwmRunning, `simplifiedMode, `allowed, `reason, `shouldLock, `forceUnlocked, `trace
      ensures q == []
      ensures if lastCp.CpDisabled?
        then PowerKept() && c1ctl == DoNothing && pwmRunning == old(pwmRunning) && shouldLock == old(shouldLock) &&
             forceUnlocked == old(forceUnlocked)
        else PowerCut() && c1ctl == StopTimer && !pwmRunning && !shouldLock && !forceUnlocked
    {
      hide Grows;
      q, c1ctl := [], DoNothing;
      if !lastCp.CpDisabled? {
        pwmRunning := false;
        Send(BoardPwmOff);
        simplifiedMode := false;
        c1ctl := StopTimer;
        CallAllowPowerOnBsp(false);
        ConnectorUnlock();
      }
    }

    /** Table A.6, sequences 2.1 and 2.2: unplug. */
    method StateA() returns (q: seq<CPEvent>, c1ctl: TimerControl)
      requires cp.CpA?
      modifies `pwmRunning, `simplifiedMode, `pluggedIn, `allowed, `reason, `shouldLock, `forceUnlocked, `trace
      ensures q == if !lastCp.CpA? && !lastCp.CpDisabled? then [CarUnplugged] else []
      ensures if lastCp.CpA?
        then PowerKept() && c1ctl == DoNothing && pwmRunning == old(pwmRunning) && shouldLock == old(shouldLock) &&
             forceUnlocked == old(forceUnlocked) && pluggedIn == old(pluggedIn)
        else PowerCut() && c1ctl == StopTimer && !pwmRunning && !shouldLock && !forceUnlocked && !pluggedIn
    {
      hide Grows;
      q, c1ctl := [], DoNothing;
      if !lastCp.CpA? {
        pwmRunning := false;
        Send(BoardPwmOff);
        simplifiedMode := false;
        pluggedIn := false;
        CallAllowPowerOnBsp(false);
        c1ctl := StopTimer;
        ConnectorUnlock();
      }
      if !lastCp.CpA? && !lastCp.CpDisabled? {
        q := q + [CarUnplugged];
      }
    }

    /** Table A.6, sequences 1.1, 7, 8.1 and 8.2: plug-in, and the EV stops charging. */
    method StateB() returns (q: seq<CPEvent>, c1ctl: TimerControl)
      requires cp.CpB?
      modifies `simplifiedMode, `pluggedIn, `allowed, `reason, `shouldLock, `forceUnlocked, `trace
      ensures shouldLock == lockInB && forceUnlocked == (old(forceUnlocked) && lockInB)
      ensures pluggedIn == (old(pluggedIn) || old(PlugsIn()))
      ensures if lastCp.CpA? || lastCp.CpB? then PowerKept() && c1ctl == DoNothing else PowerCut() && c1ctl == StopTimer
      ensures q ==
        (if !lastCp.CpA? && !lastCp.CpB? then [CarRequestedStopPower] else []) +
        (if old(PlugsIn()) then [CarPluggedIn] else []) +
        (if lastCp.CpE? || lastCp.CpF? then [EFtoBCD] else [])
    {
      hide Grows;
      q, c1ctl := [], DoNothing;
      if lockInB {
        ConnectorLock();
      } else {
        ConnectorUnlock();
      }
      if !lastCp.CpA? && !lastCp.CpB? {
        q := q + [CarRequestedStopPower];
        CallAllowPowerOnBsp(false);
        c1ctl := StopTimer;
      }
      if lastCp.CpA? || lastCp.CpDisabled? || (!pluggedIn && lastCp.CpF?) {
        q := q + [CarPluggedIn];
        pluggedIn := true;
        simplifiedMode := false;
      }
      if lastCp.CpE? || lastCp.CpF? {
        q := q + [EFtoBCD];
      }
    }

    /** State D without ventilation. */
    method StateDUnventilated() returns (q: seq<CPEvent>, c1ctl: TimerControl)
      requires cp.CpD? && !hasVentilation
      modifies `allowed, `reason, `shouldLock, `trace
      ensures q == [] && c1ctl == StopTimer && shouldLock && PowerCut()
    {
      hide Grows;
      ConnectorLock();
      CallAllowPowerOnBsp(false);
      return [], StopTimer;
    }

    /** The contactors are to be closed: the PWM runs, and it or the grant or the EV's request is new. */
    predicate ClosesNow()
      reads `pwmRunning, `lastPwmRunning, `lastAllowed, `lastCp
    {
      pwmRunning && (!lastPwmRunning || !lastAllowed || lastCp.CpB?)
    }

    /** Switches the board in state C: on at the edges, off at the end of the 6 s without PWM. */
    method SwitchInStateC(reached: bool)
      requires trace.mon.power.powerState && trace.mon.power.pwm == pwmRunning && trace.mon.power.powerOk
      requires (allowed ==> trace.mon.power.grant == Some(reason)) && (trace.mon.power.on ==> allowed)
      modifies `allowed, `reason, `trace
      ensures old(Grows()) ==> Grows()
      ensures allowed == (old(allowed) && !reached)
      ensures allowed ==> reason == old(reason) && trace.mon.power.grant == Some(reason)
      ensures trace.mon.power.on <==> old(allowed) && !reached && (old(trace).mon.power.on || ClosesNow())
      ensures trace.mon == old(trace).mon.(power :=
        old(trace).mon.power.(on := trace.mon.power.on, grant := trace.mon.power.grant))
    {
      hide Grows;
      if pwmRunning && !lastPwmRunning {
        // resume where the EV never left state C during the pause
        if allowed {
          CallAllowPowerOnBsp(true);
        }
      }
      if reached {
        // Table A.6, sequence 10.2: power off under load
        CallAllowPowerOnBsp(false);
      }
      if pwmRunning {
        if allowed && (!lastAllowed || lastCp.CpB?) {
          // Table A.6, sequence 4
          CallAllowPowerOnBsp(true);
        }
      }
    }

    /** State C, and D with ventilation: the EV asks for power. */
    method StateC(now: int) returns (q: seq<CPEvent>, c1ctl: TimerControl)
      requires PowerState(cp, hasVentilation)
      requires trace.mon.power.powerState && trace.mon.power.pwm == pwmRunning && trace.mon.power.powerOk
      requires (allowed ==> trace.mon.power.grant == Some(reason)) && (trace.mon.power.on ==> allowed)
      modifies `simplifiedMode, `pluggedIn, `allowed, `reason, `shouldLock, `trace
      ensures old(Grows()) ==> Grows()
      ensures shouldLock && pluggedIn == (old(pluggedIn) || old(PlugsIn()))
      ensures simplifiedMode == (old(simplifiedMode) || old(PlugsIn()))
      ensures c1ctl ==
        if !pwmRunning && lastPwmRunning then StartTimer
        else if pwmRunning && !lastPwmRunning then StopTimer
        else DoNothing
      ensures allowed == (old(allowed) && !c1.Reached(now))
      ensures allowed ==> reason == old(reason) && trace.mon.power.grant == Some(reason)
      ensures trace.mon.power.on <==> old(allowed) && !c1.Reached(now) && (old(trace).mon.power.on || ClosesNow())
      ensures trace.mon == old(trace).mon.(power :=
        old(trace).mon.power.(on := trace.mon.power.on, grant := trace.mon.power.grant))
      ensures q ==
        (if old(PlugsIn()) then [CarPluggedIn] else if lastCp.CpB? then [CarRequestedPower] else []) +
        (if pwmRunning && !lastPwmRunning && simplifiedMode then [CarRequestedPower] else [])
    {
      hide Grows;
      c1ctl := DoNothing;
      ConnectorLock();
      q := GreetInStateC();
      if !pwmRunning && lastPwmRunning {
        c1ctl := StartTimer;
      }
      if pwmRunning && !lastPwmRunning {
        c1ctl := StopTimer;
      }
      SwitchInStateC(c1.Reached(now));
      if pwmRunning && !lastPwmRunning && simplifiedMode {
        q := q + [CarRequestedPower];
      }
    }

    /** A car that shows up in state C has skipped B, which is the simplified mode. */
    method GreetInStateC() returns (q: seq<CPEvent>)
      modifies `simplifiedMode, `pluggedIn
      ensures pluggedIn == (old(pluggedIn) || old(PlugsIn())) &&
        simplifiedMode == (old(simplifiedMode) || old(PlugsIn()))
      ensures q == if old(PlugsIn()) then [CarPluggedIn] else if lastCp.CpB? then [CarRequestedPower] else []
    {
      q := [];
      if lastCp.CpA? || lastCp.CpDisabled? || (!pluggedIn && lastCp.CpF?) {
        q := q + [CarPluggedIn];
        pluggedIn := true;
        simplifiedMode := true;
      } else if lastCp.CpB? {
        q := q + [CarRequestedPower];
      }
    }

    method StateE() returns (q: seq<CPEvent>, c1ctl: TimerControl)
      requires cp.CpE?
      modifies `pwmRunning, `allowed, `reason, `shouldLock, `forceUnlocked, `trace
      ensures !shouldLock && !forceUnlocked
      ensures if lastCp.CpE? then PowerKept() && c1ctl == DoNothing && pwmRunning == old(pwmRunning)
        else PowerCut() && c1ctl == StopTimer && !pwmRunning
      ensures q == if lastCp.CpB? || lastCp.CpC? || lastCp.CpD? then [BCDtoEF, BCDtoE] else []
    {
      hide Grows;
      q, c1ctl := [], DoNothing;
      ConnectorUnlock();
      if !lastCp.CpE? {
        c1ctl := StopTimer;
        CallAllowPowerOnBsp(false);
        pwmRunning := false;
        Send(BoardPwmOff);
        if lastCp.CpB? || lastCp.CpC? || lastCp.CpD? {
          q := q + [BCDtoEF] + [BCDtoE];
        }
      }
    }

    method StateF(now: int) returns (q: seq<CPEvent>, c1ctl: TimerControl)
      requires cp.CpF?
      modifies `pwmRunning, `allowed, `reason, `shouldLock, `forceUnlocked, `trace
      ensures PowerCut() && c1ctl == StopTimer && pwmRunning == (old(pwmRunning) && lastCp.CpF?)
      ensures if unlockF.Reached(now) then !shouldLock && !forceUnlocked
        else shouldLock == old(shouldLock) && forceUnlocked == old(forceUnlocked)
      ensures q == if lastCp.CpB? || lastCp.CpC? || lastCp.CpD? then [BCDtoEF] else []
    {
      hide Grows;
      q, c1ctl := [], StopTimer;
      CallAllowPowerOnBsp(false);
      if !lastCp.CpF? {
        pwmRunning := false;
      }
      if lastCp.CpB? || lastCp.CpC? || lastCp.CpD? {
        q := q + [BCDtoEF];
      }
      if unlockF.Reached(now) {
        ConnectorUnlock();
      }
    }

    predicate SeesPlug()
      reads `cp, `hasVentilation
    {
      ShowsPlug(cp, hasVentilation)
    }

    predicate WasPlugged()
      reads `lastCp
    {
      lastCp.CpB? || lastCp.CpC? || lastCp.CpD?
    }

    /** Exactly these events are signalled, in whatever order, by an evaluation. */
    predicate Announces(e: CPEvent)
      reads `cp, `lastCp, `hasVentilation, `pluggedIn, `pwmRunning, `lastPwmRunning, `simplifiedMode
    {
      match e
      case CarPluggedIn => SeesPlug() && PlugsIn()
      case CarUnplugged => cp.CpA? && !lastCp.CpA? && !lastCp.CpDisabled?
      case CarRequestedPower =>
        PowerState(cp, hasVentilation) &&
        (lastCp.CpB? || (pwmRunning && !lastPwmRunning && (simplifiedMode || PlugsIn())))
      case CarRequestedStopPower => cp.CpB? && !lastCp.CpA? && !lastCp.CpB?
      case EFtoBCD => cp.CpB? && (lastCp.CpE? || lastCp.CpF?)
      case BCDtoEF => (cp.CpE? || cp.CpF?) && WasPlugged()
      case BCDtoE => cp.CpE? && WasPlugged()
      case _ => false
    }

    /** The board is powered after an evaluation exactly in this case. */
    ghost predicate Powers(now: int)
      reads `cp, `hasVentilation, `allowed, `pwmRunning, `lastPwmRunning, `lastAllowed, `lastCp, `trace, c1
    {
      && PowerState(cp, hasVentilation) && allowed && !c1.Reached(now)
      && (trace.mon.power.on || ClosesNow())
    }

    /** What one evaluation does to the board, the queue of events, the plug and the lock. */
    twostate predicate Dispatched(now: int, q: seq<CPEvent>, c1ctl: TimerControl)
      reads this
    {
      && trace.mon == old(trace).mon.(power :=
           old(trace).mon.power.(on := trace.mon.power.on, grant := trace.mon.power.grant))
      && (trace.mon.power.on <==> old(Powers(now))) && (old(Grows()) ==> Grows())
      && (allowed ==> old(allowed) && trace.mon.power.grant == Some(reason))
      && (pwmRunning ==> old(pwmRunning))
      && (trace.mon.power.on ==> allowed)
      && (PowerState(cp, hasVentilation) ==>
            && pwmRunning == old(pwmRunning) && allowed == (old(allowed) && !old(c1.Reached(now)))
            && c1ctl == (if !pwmRunning && lastPwmRunning then StartTimer
                         else if pwmRunning && !lastPwmRunning then StopTimer else DoNothing))
      && (forall e :: e in q <==> old(Announces(e)))
      && SinglePlug(q)
      && pluggedIn == SeenAfter(lastCp, old(pluggedIn), cp, hasVentilation)
      && (forceUnlocked ==> old(forceUnlocked))
      && (cp.CpB? || cp.CpC? || cp.CpD? ==>
            && shouldLock == (!cp.CpB? || lockInB)
            && forceUnlocked == (old(forceUnlocked) && (!cp.CpB? || lockInB)))
    }

    /** The states that neither charge nor wait for it. */
    method DispatchOff(now: int) returns (q: seq<CPEvent>, c1ctl: TimerControl)
      requires !cp.CpB? && !PowerState(cp, hasVentilation)
      requires trace.mon.power.powerState == PowerState(cp, hasVentilation)
      requires trace.mon.power.pwm == pwmRunning && trace.mon.power.powerOk
      requires allowed ==> trace.mon.power.grant == Some(reason)
      requires trace.mon.power.on ==> allowed && (lastCp.CpC? || lastCp.CpD?)
      modifies `pwmRunning, `simplifiedMode, `pluggedIn, `allowed, `reason, `shouldLock, `forceUnlocked, `trace
      ensures Dispatched(now, q, c1ctl)
    {
      hide Grows;
      if cp.CpDisabled? {
        q, c1ctl := StateDisabled();
      } else if cp.CpA? {
        q, c1ctl := StateA();
      } else if cp.CpD? {
        q, c1ctl := StateDUnventilated();
      } else if cp.CpE? {
        q, c1ctl := StateE();
      } else {
        q, c1ctl := StateF(now);
      }
    }

    method DispatchB(now: int) returns (q: seq<CPEvent>, c1ctl: TimerControl)
      requires cp.CpB?
      requires trace.mon.power.pwm == pwmRunning && trace.mon.power.powerOk
      requires allowed ==> trace.mon.power.grant == Some(reason)
      requires trace.mon.power.on ==> allowed && (lastCp.CpC? || lastCp.CpD?)
      modifies `pwmRunning, `simplifiedMode, `pluggedIn, `allowed, `reason, `shouldLock, `forceUnlocked, `trace
      ensures Dispatched(now, q, c1ctl)
    {
      hide Grows;
      q, c1ctl := StateB();
    }

    method DispatchC(now: int) returns (q: seq<CPEvent>, c1ctl: TimerControl)
      requires PowerState(cp, hasVentilation) && trace.mon.power.powerState
      requires trace.mon.power.pwm == pwmRunning && trace.mon.power.powerOk
      requires allowed ==> trace.mon.power.grant == Some(reason)
      requires trace.mon.power.on ==> allowed && (lastCp.CpC? || lastCp.CpD?)
      modifies `pwmRunning, `simplifiedMode, `pluggedIn, `allowed, `reason, `shouldLock, `forceUnlocked, `trace
      ensures Dispatched(now, q, c1ctl)
    {
      hide Grows;
      q, c1ctl := StateC(now);
    }

    /** The switch over the raw states. */
    method Dispatch(now: int) returns (q: seq<CPEvent>, c1ctl: TimerControl)
      requires trace.mon.power.powerState == PowerState(cp, hasVentilation)
      requires trace.mon.power.pwm == pwmRunning && trace.mon.power.powerOk
      requires allowed ==> trace.mon.power.grant == Some(reason)
      requires trace.mon.power.on ==> allowed && (lastCp.CpC? || lastCp.CpD?)
      modifies `pwmRunning, `simplifiedMode, `pluggedIn, `allowed, `reason, `shouldLock, `forceUnlocked, `trace
      ensures Dispatched(now, q, c1ctl)
    {
      hide Dispatched;
      if cp.CpB? {
        q, c1ctl := DispatchB(now);
      } else if cp.CpC? || (cp.CpD? && hasVentilation) {
        q, c1ctl := DispatchC(now);
      } else {
        q, c1ctl := DispatchOff(now);
      }
    }

    /** At most one event about the plug. */
    static predicate SinglePlug(q: seq<CPEvent>) {
      forall i, j :: 0 <= i < j < |q| ==> !(IsPlug(q[i]) && IsPlug(q[j]))
    }

    static predicate IsPlug(e: CPEvent) {
      e.CarPluggedIn? || e.CarUnplugged?
    }

    method ControlTimers(c1ctl: TimerControl, fctl: TimerControl, now: int)
      requires c1 != unlockF
      modifies c1, unlockF
      ensures match c1ctl
        case StartTimer => c1.running && c1.limit == C1_TIMEOUT && c1.startTime == now
        case StopTimer => !c1.running
        case DoNothing => c1.running == old(c1.running) && c1.limit == old(c1.limit) &&
                          c1.startTime == old(c1.startTime)
      ensures match fctl
        case StartTimer => unlockF.running && unlockF.limit == UNLOCK_F_TIMEOUT && unlockF.startTime == now
        case StopTimer => !unlockF.running
        case DoNothing => unlockF.running == old(unlockF.running) && unlockF.limit == old(unlockF.limit) &&
                          unlockF.startTime == old(unlockF.startTime)
    {
      match c1ctl {
        case StartTimer => c1.Start(C1_TIMEOUT, now);
        case StopTimer => c1.Stop();
        case DoNothing =>
      }
      match fctl {
        case StartTimer => unlockF.Start(UNLOCK_F_TIMEOUT, now);
        case StopTimer => unlockF.Stop();
        case DoNothing =>
      }
    }

    /** Before its events are signalled, an evaluation has already decided about the plug. */
    ghost predicate PlugPending(q: seq<CPEvent>)
      reads `pluggedIn, `cp, `lastCp, `trace
    {
      lastCp == cp && PlugDone(trace.mon.plug, pluggedIn, cp, q)
    }

    /** The event about the plug among those of an evaluation. */
    static function OwedBy(q: seq<CPEvent>): Option<CPEvent> {
      if CarPluggedIn in q then Some(CarPluggedIn) else if CarUnplugged in q then Some(CarUnplugged) else None
    }

    /** Before the timers are controlled, an evaluation has already decided about the board. */
    ghost predicate PowerPending(c1ctl: TimerControl, now: int)
      reads `allowed, `reason, `cp, `pwmRunning, `trace, c1
    {
      var m := trace.mon.power;
      && m.powerOk && m.timeOk && m.now == now
      && (allowed ==> m.grant == Some(reason))
      && (m.on ==>
            && allowed && m.powerState && (cp.CpC? || cp.CpD?)
            && (pwmRunning ==> m.offSince.None?)
            && (!pwmRunning ==>
                  || (c1ctl.StartTimer? && m.offSince == Some(now))
                  || (c1ctl.DoNothing? && c1.running && c1.limit == C1_TIMEOUT && m.offSince == Some(c1.startTime) &&
                      now - c1.startTime <= C1_TIMEOUT)))
    }

    method MarkEvaluated(now: int)
      requires trace.mon.power.now <= now
      modifies `trace
      ensures old(Grows()) ==> Grows()
      ensures
        var m := old(trace).mon.power;
        trace.mon == old(trace).mon.(
          power := m.(
            powerState := PowerState(cp, hasVentilation), pwm := pwmRunning, now := now,
            offSince := if pwmRunning then None else if m.offSince.None? then Some(now) else m.offSince),
          plug := Reexamined(old(trace).mon.plug, cp, hasVentilation))
    {
      Send(Evaluated(cp, hasVentilation, pwmRunning, now));
    }

    /** The decisions of an evaluation. */
    method Examine(now: int) returns (q: seq<CPEvent>, c1ctl: TimerControl)
      requires Valid() && LastEvaluation() <= now
      modifies `pwmRunning, `simplifiedMode, `pluggedIn, `allowed, `reason, `shouldLock, `forceUnlocked, `trace
      ensures PowerPending(c1ctl, now) && LastEvaluation() == now && Grows()
      ensures trace.mon.power.on <==> old(Powers(now))
      ensures trace.mon.lock == old(trace).mon.lock
      ensures trace.mon.plug == Reexamined(old(trace).mon.plug, cp, hasVentilation)
      ensures forall e :: e in q <==> old(Announces(e))
      ensures SinglePlug(q)
      ensures (allowed ==> old(allowed)) && (pwmRunning ==> old(pwmRunning))
      ensures pluggedIn == SeenAfter(lastCp, old(pluggedIn), cp, hasVentilation)
      ensures PowerState(cp, hasVentilation) ==>
        && pwmRunning == old(pwmRunning) && allowed == (old(allowed) && !old(c1.Reached(now)))
        && (!pwmRunning && lastPwmRunning ==> c1ctl == StartTimer)
      ensures forceUnlocked ==> old(forceUnlocked)
      ensures cp.CpB? || cp.CpC? || cp.CpD? ==>
        shouldLock == (!cp.CpB? || lockInB) && forceUnlocked == (old(forceUnlocked) && (!cp.CpB? || lockInB))
    {
      hide Grows;
      MarkEvaluated(now);
      q, c1ctl := Dispatch(now);
    }

    /** The end of an evaluation: lock, last values and timers. */
    method Conclude(c1ctl: TimerControl, fctl: TimerControl, now: int)
      requires c1 != unlockF && PowerPending(c1ctl, now)
      requires trace.mon.lock.lockOk && trace.mon.lock.locked == locked && trace.mon.lock.relay == relayOn
      modifies `locked, `lastCp, `lastPwmRunning, `lastAllowed, `trace, c1, unlockF
      ensures PowerInv() && LockInv() && (old(Grows()) ==> Grows())
      ensures trace.mon.power == old(trace).mon.power && trace.mon.plug == old(trace).mon.plug
      ensures locked == (relayOn || (shouldLock && !forceUnlocked))
      ensures Locks() == old(Locks()) + if locked && !old(locked) then 1 else 0
      ensures lastCp == cp && lastPwmRunning == pwmRunning && lastAllowed == allowed
      ensures c1ctl == StartTimer ==> c1.running && c1.limit == C1_TIMEOUT && c1.startTime == now
    {
      hide Grows;
      CheckConnectorLock();
      lastCp := cp;
      lastPwmRunning := pwmRunning;
      lastAllowed := allowed;
      ControlTimers(c1ctl, fctl, now);
    }

    /** One atomic evaluation; its events are returned and still to be signalled. */
    method StateMachine(now: int) returns (q: seq<CPEvent>)
      requires Valid() && LastEvaluation() <= now
      modifies `pwmRunning, `simplifiedMode, `pluggedIn, `allowed, `reason, `shouldLock, `forceUnlocked, `locked,
        `lastCp, `lastPwmRunning, `lastAllowed, `trace, c1, unlockF
      ensures c1 != unlockF && Grows() && PowerInv() && LockInv() && PlugPending(q)
      ensures (trace.mon.power.on <==> old(Powers(now))) && LastEvaluation() == now && Count() == old(Count())
      ensures forall e :: e in q <==> old(Announces(e))
      ensures locked == (relayOn || (shouldLock && !forceUnlocked))
      ensures Locks() == old(Locks()) + if locked && !old(locked) then 1 else 0
      ensures (allowed ==> old(allowed)) && (pwmRunning ==> old(pwmRunning))
      ensures lastCp == cp && lastPwmRunning == pwmRunning && lastAllowed == allowed
      ensures pluggedIn == SeenAfter(old(lastCp), old(pluggedIn), cp, hasVentilation)
      ensures PowerState(cp, hasVentilation) ==>
        && pwmRunning == old(pwmRunning) && allowed == (old(allowed) && !old(c1.Reached(now)))
        && (!pwmRunning && old(lastPwmRunning) ==> c1.running && c1.limit == C1_TIMEOUT && c1.startTime == now)
      ensures cp.CpB? || cp.CpC? || cp.CpD? ==>
        shouldLock == (!cp.CpB? || lockInB) && forceUnlocked == (old(forceUnlocked) && (!cp.CpB? || lockInB))
    {
      hide PlugDone, PlugFits, Announces, SeenAfter, PowerState, Powers, PowerPending, PowerInv;
      var fctl := DoNothing;
      if !cp.CpF? && lastCp.CpF? {
        fctl := StopTimer;
      } else if cp.CpF? && !lastCp.CpF? {
        fctl := StartTimer;
      }
      var c1ctl;
      q, c1ctl := Decide(now);
      Conclude(c1ctl, fctl, now);
    }

    /** The decisions of an evaluation, with those about the plug in line with what is owed. */
    method Decide(now: int) returns (q: seq<CPEvent>, c1ctl: TimerControl)
      requires Valid() && LastEvaluation() <= now
      modifies `pwmRunning, `simplifiedMode, `pluggedIn, `allowed, `reason, `shouldLock, `forceUnlocked, `trace
      ensures PowerPending(c1ctl, now) && LastEvaluation() == now && Grows()
      ensures (trace.mon.power.on <==> old(Powers(now))) && trace.mon.lock == old(trace).mon.lock
      ensures Count() == old(Count())
      ensures forall e :: e in q <==> old(Announces(e))
      ensures PlugDone(trace.mon.plug, pluggedIn, cp, q)
      ensures (allowed ==> old(allowed)) && (pwmRunning ==> old(pwmRunning))
      ensures pluggedIn == SeenAfter(lastCp, old(pluggedIn), cp, hasVentilation)
      ensures PowerState(cp, hasVentilation) ==>
        && pwmRunning == old(pwmRunning) && allowed == (old(allowed) && !old(c1.Reached(now)))
        && (!pwmRunning && lastPwmRunning ==> c1ctl == StartTimer)
      ensures cp.CpB? || cp.CpC? || cp.CpD? ==>
        shouldLock == (!cp.CpB? || lockInB) && forceUnlocked == (old(forceUnlocked) && (!cp.CpB? || lockInB))
    {
      hide PlugFits, PlugReported, Announces, Reexamined, SeenAfter, PowerState, SinglePlug, OwedBy, Powers,
        PowerPending;
      PlugDecided(trace.mon.plug, pluggedIn, cp, lastCp, hasVentilation);
      label before:
      q, c1ctl := Examine(now);
      AnnouncesOwed@before(q);
      PlugSignalled(trace.mon.plug, pluggedIn, cp, q);
    }

    /** The plug is decided: its event is among those to be signalled, and with it everything seen is reported. */
    static ghost predicate PlugDone(m: PlugMonitor, pluggedIn: bool, cp: RawCPState, q: seq<CPEvent>) {
      && SinglePlug(q) && PlugFits(m, pluggedIn, cp, cp) && m.owed == OwedBy(q)
      && PlugReported(PlugAfter(m, q), cp) && PlugAfter(m, q).plugOk
    }

    /** What an evaluation decides about the plug fits the last decision. */
    static lemma PlugDecided(m: PlugMonitor, pluggedIn: bool, cp: RawCPState, lastCp: RawCPState, ventilation: bool)
      requires PlugFits(m, pluggedIn, cp, lastCp) && m.owed.None?
      ensures
        var n := Reexamined(m, cp, ventilation);
        && PlugFits(n, SeenAfter(lastCp, pluggedIn, cp, ventilation), cp, cp)
        && n.owed == PlugEvent(lastCp, pluggedIn, cp, ventilation) && n.count == m.count
        && Signalled(n, cp)
    {
    }

    /** Once the owed event is signalled, what was seen was reported. */
    static ghost predicate Signalled(m: PlugMonitor, cp: RawCPState) {
      var n := if m.owed.None? then m else NextPlug(m, Signal(m.owed.value));
      && m.plugOk && (m.owed.Some? ==> m.owed.value.CarPluggedIn? || m.owed.value.CarUnplugged?)
      && n.plugOk && PlugReported(n, cp)
    }

    static lemma PlugSignalled(m: PlugMonitor, pluggedIn: bool, cp: RawCPState, q: seq<CPEvent>)
      requires Signalled(m, cp) && m.owed == OwedBy(q)
      ensures PlugReported(PlugAfter(m, q), cp) && PlugAfter(m, q).plugOk
    {
    }

    /** The plug event among the announced ones is the one that is owed. */
    twostate lemma AnnouncesOwed(q: seq<CPEvent>)
      requires forall e :: e in q <==> old(Announces(e))
      ensures OwedBy(q) == old(PlugEvent(lastCp, pluggedIn, cp, hasVentilation))
    {
    }

    /** The last event about the plug is that it was plugged in. */
    ghost predicate Reported()
      reads `trace
    {
      trace.mon.plug.plugged
    }

    /** Runs the state machine and signals its events, in order. */
    method Feed(now: int) returns (q: seq<CPEvent>)
      requires Valid() && LastEvaluation() <= now
      modifies `pwmRunning, `simplifiedMode, `pluggedIn, `allowed, `reason, `shouldLock, `forceUnlocked, `locked,
        `lastCp, `lastPwmRunning, `lastAllowed, `trace, c1, unlockF
      ensures Valid() && LastEvaluation() == now
      ensures trace.mon.power.on <==> old(Powers(now))
      ensures Count() == Counted(old(Count()), old(Announces(CarPluggedIn)), old(Announces(CarUnplugged)))
      ensures forall e :: e in q <==> old(Announces(e))
      ensures |q| <= |trace.events|
      ensures forall i :: 0 <= i < |q| ==> trace.events[|trace.events| - |q| + i] == Signal(q[i])
      ensures CarPluggedIn in q && old(pluggedIn) <==> old(SeesPlug() && pluggedIn && lastCp.CpDisabled?)
      ensures CarPluggedIn in q && old(Reported()) <==>
        old(SeesPlug() && Reported() && (lastCp.CpDisabled? || (!pluggedIn && (lastCp.CpA? || lastCp.CpF?))))
      ensures pluggedIn == SeenAfter(old(lastCp), old(pluggedIn), cp, hasVentilation)
      ensures locked == (relayOn || (shouldLock && !forceUnlocked))
      ensures Locks() == old(Locks()) + if locked && !old(locked) then 1 else 0
      ensures (allowed ==> old(allowed)) && (pwmRunning ==> old(pwmRunning))
      ensures lastCp == cp && lastPwmRunning == pwmRunning && lastAllowed == allowed
      ensures PowerState(cp, hasVentilation) ==>
        && pwmRunning == old(pwmRunning) && allowed == (old(allowed) && !old(c1.Reached(now)))
        && (!pwmRunning && old(lastPwmRunning) ==> c1.running && c1.limit == C1_TIMEOUT && c1.startTime == now)
      ensures cp.CpB? || cp.CpC? || cp.CpD? ==>
        shouldLock == (!cp.CpB? || lockInB) && forceUnlocked == (old(forceUnlocked) && (!cp.CpB? || lockInB))
    {
      q := StateMachine(now);
      SignalAll(q);
    }

    method SignalAll(q: seq<CPEvent>)
      requires c1 != unlockF && Grows() && PowerInv() && LockInv() && PlugPending(q)
      modifies `trace
      ensures Valid() && trace.mon.power == old(trace).mon.power && trace.mon.lock == old(trace).mon.lock
      ensures Count() == Counted(old(Count()), CarPluggedIn in q, CarUnplugged in q)
      ensures |trace.events| == |old(trace).events| + |q|
      ensures forall i :: 0 <= i < |q| ==> trace.events[|old(trace).events| + i] == Signal(q[i])
    {
      hide Grows;
      var k := 0;
      while k < |q|
        invariant 0 <= k <= |q|
        invariant trace.mon.power == old(trace).mon.power && trace.mon.lock == old(trace).mon.lock && Grows()
        invariant |trace.events| == |old(trace).events| + k
        invariant forall i :: 0 <= i < k ==> trace.events[|old(trace).events| + i] == Signal(q[i])
        invariant trace.mon.plug == PlugAfter(old(trace).mon.plug, q[..k])
      {
        assert q[..k + 1] == q[..k] + [q[k]];
        PlugStep(old(trace).mon.plug, q, k);
        Send(Signal(q[k]));
        k := k + 1;
      }
      assert q[..k] == q;
    }

    /** Signals about the plug, if there is at most one of them. */
    static ghost function PlugAfter(m: PlugMonitor, q: seq<CPEvent>): PlugMonitor {
      if CarPluggedIn in q then NextPlug(m, Signal(CarPluggedIn))
      else if CarUnplugged in q then NextPlug(m, Signal(CarUnplugged))
      else m
    }

    static lemma PlugStep(m: PlugMonitor, q: seq<CPEvent>, k: nat)
      requires k < |q| && SinglePlug(q)
      ensures NextPlug(PlugAfter(m, q[..k]), Signal(q[k])) == PlugAfter(m, q[..k] + [q[k]])
    {
    }

    // ----------------------------------------------------------- entry points

    /** A raw state of the board; it is looked at by the next evaluation. */
    method ProcessRawState(raw: RawCPState)
      requires Valid()
      modifies `cp, `trace
      ensures Valid()
      ensures if enabled then cp == raw && trace.events == old(trace).events + [RawReported(raw)]
        else cp == old(cp) && trace == old(trace)
      ensures LastEvaluation() == old(LastEvaluation()) && Locks() == old(Locks()) && Count() == old(Count())
    {
      if enabled {
        Send(RawReported(raw));
        cp := raw;
      }
    }

    /** Any other event of the board: tracks the relay and passes the event on. */
    method ProcessBoardEvent(e: CPEvent)
      requires Valid()
      requires e.PowerOn? || e.PowerOff? || e.EvseReplugStarted? || e.EvseReplugFinished?
      modifies `relayOn, `locked, `trace
      ensures Valid()
      ensures relayOn == if enabled && e.PowerOn? then true else if enabled && e.PowerOff? then false else old(relayOn)
      ensures enabled ==> locked == (relayOn || (shouldLock && !forceUnlocked))
      ensures Locks() == old(Locks()) + if locked && !old(locked) then 1 else 0
      ensures enabled ==> |trace.events| > 0 && trace.events[|trace.events| - 1] == Signal(e)
      ensures !enabled ==> locked == old(locked) && trace == old(trace)
      ensures LastEvaluation() == old(LastEvaluation()) && Count() == old(Count())
      ensures trace.mon.power == old(trace).mon.power
    {
      hide PlugFits, Grows;
      if enabled {
        TrackRelay(e);
        CheckConnectorLock();
        Send(Signal(e));
      }
    }

    /** The relay as confirmed by the board. */
    method TrackRelay(e: CPEvent)
      modifies `relayOn, `trace
      ensures relayOn == if e.PowerOn? then true else if e.PowerOff? then false else old(relayOn)
      ensures trace.mon == old(trace).mon.(lock := old(trace).mon.lock.(
        relay := if e.PowerOn? then true else if e.PowerOff? then false else old(trace).mon.lock.relay))
      ensures old(Grows()) ==> Grows()
    {
      if e.PowerOn? {
        Send(RelayReported(true));
        relayOn := true;
      } else if e.PowerOff? {
        Send(RelayReported(false));
        relayOn := false;
      }
    }

    /** The charger sets a duty cycle; a car in simplified mode may be limited to 10 A. */
    method SetPwm(value: real)
      requires Valid()
      modifies `pwmRunning, `trace
      ensures Valid() && LastEvaluation() == old(LastEvaluation()) && Locks() == old(Locks()) && Count() == old(Count())
      ensures pwmRunning == IsRunningDuty(value)
      ensures
        var limited := simplifiedLimit && simplifiedMode && value > SIMPLIFIED_LIMIT_PWM;
        trace.events == old(trace).events + [BoardPwmOn(100.0 * if limited then SIMPLIFIED_LIMIT_PWM else value)]
    {
      if value > 0.0 && value < 1.0 {
        pwmRunning := true;
      } else {
        pwmRunning := false;
      }
      var v := value;
      if simplifiedLimit && simplifiedMode && v > SIMPLIFIED_LIMIT_PWM {
        v := SIMPLIFIED_LIMIT_PWM;
      }
      Send(BoardPwmOn(v * 100.0));
    }

    method SetPwmOff()
      requires Valid()
      modifies `pwmRunning, `trace
      ensures Valid() && LastEvaluation() == old(LastEvaluation()) && Locks() == old(Locks()) && Count() == old(Count())
      ensures !pwmRunning && trace.events == old(trace).events + [BoardPwmOff]
    {
      pwmRunning := false;
      Send(BoardPwmOff);
    }

    method SetPwmF()
      requires Valid()
      modifies `pwmRunning, `trace
      ensures Valid() && LastEvaluation() == old(LastEvaluation()) && Locks() == old(Locks()) && Count() == old(Count())
      ensures !pwmRunning && trace.events == old(trace).events + [BoardPwmF]
    {
      pwmRunning := false;
      Send(BoardPwmF);
    }

    /** The charger grants power, to be used by a later evaluation, or forbids it, at once. */
    method AllowPowerOn(value: bool, r: PowerReason)
      requires Valid()
      modifies `allowed, `reason, `trace
      ensures Valid() && LastEvaluation() == old(LastEvaluation()) && Locks() == old(Locks()) && Count() == old(Count())
      ensures allowed == value && reason == if value then r else ReasonPowerOff
      ensures trace.mon.power.on == (old(trace).mon.power.on && value)
      ensures trace.events == old(trace).events + [Granted(value, r)] +
        if value then [] else [BoardPower(false, ReasonPowerOff)]
    {
      hide PlugFits, Grows;
      allowed := value;
      reason := r;
      Send(Granted(value, r));
      if !allowed {
        CallAllowPowerOnBsp(false);
      }
    }

    method Setup(ventilation: bool)
      requires Valid()
      modifies `hasVentilation
      ensures Valid() && hasVentilation == ventilation
    {
      hasVentilation := ventilation;
    }

    method SetSimplifiedLimit(l: bool)
      requires Valid()
      modifies `simplifiedLimit
      ensures Valid() && simplifiedLimit == l
    {
      simplifiedLimit := l;
    }

    method Enable(en: bool)
      requires Valid()
      modifies `enabled, `trace
      ensures Valid() && enabled == en && trace.events == old(trace).events + [BoardEnable(en)]
      ensures LastEvaluation() == old(LastEvaluation()) && Locks() == old(Locks()) && Count() == old(Count())
    {
      enabled := en;
      Send(BoardEnable(en));
    }

    // ------------------------------------------------------------ single calls

    /** What an evaluation does to the fields, the board and the number of plug events. */
    twostate predicate Evaluates(now: int)
      reads `cp, `lastCp, `enabled, `relayOn, `hasVentilation, `pwmRunning, `lastPwmRunning, `allowed, `pluggedIn,
        `locked, `shouldLock, `forceUnlocked, `trace, c1
    {
      && cp == old(cp) && enabled == old(enabled) && relayOn == old(relayOn) && hasVentilation == old(hasVentilation)
      && lastCp == cp && lastPwmRunning == pwmRunning
      && pluggedIn == SeenAfter(old(lastCp), old(pluggedIn), cp, hasVentilation)
      && Count() == Counted(old(Count()), old(Announces(CarPluggedIn)), old(Announces(CarUnplugged)))
      && (trace.mon.power.on <==> old(Powers(now)))
      && locked == (relayOn || (shouldLock && !forceUnlocked))
      && (cp.CpB? || cp.CpC? || cp.CpD? ==>
            shouldLock == (!cp.CpB? || lockInB) && forceUnlocked == (old(forceUnlocked) && (!cp.CpB? || lockInB)))
      && (PowerState(cp, hasVentilation) ==>
            && pwmRunning == old(pwmRunning) && allowed == (old(allowed) && !old(c1.Reached(now)))
            && (!pwmRunning && old(lastPwmRunning) ==> c1.running && c1.limit == C1_TIMEOUT && c1.startTime == now))
    }

    /** What any other call does to the fields that an evaluation looks at. */
    twostate predicate Takes(i: Input)
      reads `cp, `lastCp, `enabled, `relayOn, `hasVentilation, `pwmRunning, `lastPwmRunning, `allowed, `pluggedIn,
        `shouldLock, `forceUnlocked, `trace
    {
      && lastCp == old(lastCp) && lastPwmRunning == old(lastPwmRunning) && pluggedIn == old(pluggedIn)
      && shouldLock == old(shouldLock) && Count() == old(Count())
      && enabled == (if i.EnableInput? then i.enable else old(enabled))
      && cp == (if i.RawInput? && enabled then i.raw else old(cp))
      && relayOn == (if i.RelayInput? && enabled then i.closed else old(relayOn))
      && hasVentilation == (if i.SetupInput? then i.ventilation else old(hasVentilation))
      && forceUnlocked == (old(forceUnlocked) || (i.ForceUnlockInput? && (cp.CpB? || cp.CpC?)))
      && pwmRunning ==
         (if i.PwmInput? then IsRunningDuty(i.duty) else old(pwmRunning) && !i.PwmOffInput? && !i.PwmFInput?)
      && allowed == (if i.GrantInput? then i.grant else old(allowed))
    }
  }
}
