/**
 The rules that the charger's monitors stand for, stated about the events of a log
 and their order alone, and the proof that the monitors do stand for them.
 */
module ChargerRules {
  import opened Common
  import opened Logs
  import opened DutyCycle
  import opened ChargerTypes
  import opened ChargerMonitor

  type Log = seq<Event>

  // --------------------------------------------------------------- sessions

  const IsSessionMark := (e: Event) => e.SessionStarted? || (e.Simple? && e.event.SessionFinished?)
  const IsAuthMark := (e: Event) =>
    e.SessionStarted? || e.CancelAccepted? || (e.Simple? && (e.event.SessionFinished? || e.event.Authorized?))

  ghost predicate SessionOpen(log: Log) {
    var k := Last(log, IsSessionMark);
    k >= 0 && log[k].SessionStarted?
  }

  /** The latest event about authorization is that it was given. */
  ghost predicate IsAuthorized(log: Log) {
    var k := Last(log, IsAuthMark);
    k >= 0 && log[k].Simple? && log[k].event.Authorized?
  }

  lemma {:induction false} SessionMeaning(log: Log)
    ensures Observe(log).session.open == SessionOpen(log)
    decreases |log|
  {
    hide NextStart, NextFinish, NextBoard, NextFatal, NextAvailability;
    if log != [] {
      SessionMeaning(log[..|log| - 1]);
    }
  }

  lemma {:induction false} AuthMeaning(log: Log)
    ensures Observe(log).session.authorized == IsAuthorized(log)
    decreases |log|
  {
    hide NextStart, NextFinish, NextBoard, NextFatal, NextAvailability;
    if log != [] {
      AuthMeaning(log[..|log| - 1]);
    }
  }

  // ------------------------------------------------------ starts and grants

  const IsStartMark := (e: Event) => e.StartTransactionCalled? || e.IdleInitialised?

  /** start_transaction was called since Idle was last initialised. */
  ghost predicate StartedSinceIdle(log: Log) {
    var k := Last(log, IsStartMark);
    k >= 0 && log[k].StartTransactionCalled?
  }

  lemma {:induction false} StartMeaning(log: Log)
    ensures Observe(log).start.sinceIdle == StartedSinceIdle(log)
    decreases |log|
  {
    hide NextSession, NextFinish, NextBoard, NextFatal, NextAvailability;
    if log != [] {
      StartMeaning(log[..|log| - 1]);
    }
  }

  // ------------------------------------------------------------ transactions

  const IsTransactionMark := (e: Event) => e.StartTransactionCalled? || e.TransactionFinished?
  const IsCancelMark := (e: Event) => e.StartTransactionCalled? || e.CancelAccepted?

  /** start_transaction was called since a transaction was last reported as finished. */
  ghost predicate StartedSinceStop(log: Log) {
    var k := Last(log, IsTransactionMark);
    k >= 0 && log[k].StartTransactionCalled?
  }

  /** The latest accepted cancel since the latest start. */
  ghost function CancelSinceStart(log: Log): Option<Cancel> {
    var k := Last(log, IsCancelMark);
    if k >= 0 && log[k].CancelAccepted? then Some(Cancel(log[k].cancelReason, log[k].cancelToken)) else None
  }

  lemma {:induction false} FinishMeaning(log: Log)
    ensures Observe(log).finish.sinceStop == StartedSinceStop(log)
    ensures Observe(log).finish.cancel == CancelSinceStart(log)
    decreases |log|
  {
    hide NextSession, NextStart, NextBoard, NextFatal, NextAvailability;
    if log != [] {
      FinishMeaning(log[..|log| - 1]);
    }
  }

  // -------------------------------------------------------------------- PWM

  const IsPwm := (e: Event) => e.SetPwm? || e.SetPwmOff? || e.SetPwmF?
  const IsGrantMark := (e: Event) => e.AllowPowerOn?

  /** The duty cycle last commanded; state F before the first command. */
  ghost function LastDuty(log: Log): real {
    var k := Last(log, IsPwm);
    if k < 0 then 0.0 else DutyOf(log[k])
  }

  /** The last contactor command was a grant. */
  ghost predicate PowerGranted(log: Log) {
    var k := Last(log, IsGrantMark);
    k >= 0 && log[k].on
  }

  /** What the last contactor command was given for. */
  ghost function GrantReason(log: Log): PowerReason {
    var k := Last(log, IsGrantMark);
    if k < 0 then ReasonPowerOff else log[k].reason
  }

  const IsGrantOrTimeout := (e: Event) => e.AllowPowerOn? || e.SocTimeoutSignal?

  /** The SoC timeout fired after the last contactor command. */
  ghost predicate TimedOutSinceGrant(log: Log) {
    var k := Last(log, IsGrantOrTimeout);
    k >= 0 && log[k].SocTimeoutSignal?
  }

  const IsConfigMark := (e: Event) => e.ConfigSet?

  /** The tolerance in force. */
  ghost function LastTolerance(log: Log): Tolerance {
    var k := Last(log, IsConfigMark);
    if k < 0 then Tolerance(0.0, 0.0) else ToleranceOf(log[k].config)
  }

  lemma {:induction false} BoardMeaning(log: Log)
    ensures Observe(log).board.duty == LastDuty(log)
    decreases |log|
  {
    hide NextSession, NextStart, NextFinish, NextFatal, NextAvailability;
    if log != [] {
      BoardMeaning(log[..|log| - 1]);
    }
  }

  lemma {:induction false} GrantMeaning(log: Log)
    ensures Observe(log).board.allow == PowerGranted(log)
    ensures Observe(log).board.reason == GrantReason(log)
    decreases |log|
  {
    hide NextSession, NextStart, NextFinish, NextFatal, NextAvailability;
    if log != [] {
      GrantMeaning(log[..|log| - 1]);
    }
  }

  lemma {:induction false} TimeoutMeaning(log: Log)
    ensures Observe(log).board.socSince == TimedOutSinceGrant(log)
    decreases |log|
  {
    hide NextSession, NextStart, NextFinish, NextFatal, NextAvailability;
    if log != [] {
      TimeoutMeaning(log[..|log| - 1]);
    }
  }

  lemma {:induction false} ToleranceMeaning(log: Log)
    ensures Observe(log).board.tolerance == LastTolerance(log)
    decreases |log|
  {
    hide NextSession, NextStart, NextFinish, NextFatal, NextAvailability;
    if log != [] {
      ToleranceMeaning(log[..|log| - 1]);
    }
  }

  lemma {:induction false} FiresMeaning(log: Log)
    ensures Observe(log).avail.socFires > 0 <==> SocTimeoutSignal in log
    decreases |log|
  {
    hide NextSession, NextStart, NextFinish, NextBoard, NextFatal;
    if log != [] {
      var prefix := log[..|log| - 1];
      FiresMeaning(prefix);
      assert log == prefix + [log[|log| - 1]];
    }
  }

  /** As many SoC timeouts before as after a stretch of a log that holds none. */
  lemma {:induction false} FiresSince(sent: Log, log: Log)
    requires sent <= log && SocTimeoutSignal !in log[|sent|..]
    ensures Observe(log).avail.socFires == Observe(sent).avail.socFires
    decreases |log|
  {
    hide NextSession, NextStart, NextFinish, NextBoard, NextFatal;
    if sent != log {
      var n := |log| - 1;
      assert log[n] == log[|sent|..][n - |sent|];
      forall e | e in log[..n][|sent|..] ensures e in log[|sent|..] {
        var j :| 0 <= j < n - |sent| && log[..n][|sent|..][j] == e;
        assert log[|sent|..][j] == e;
      }
      FiresSince(sent, log[..n]);
    }
  }

  // ------------------------------------------------------------ fatal errors

  const IsShutdownMark := (e: Event) => e.ShutdownTypeSet?
  const IsCheck := (e: Event) => e.FatalCheck?
  const IsRoutineMark := (e: Event) => e.FatalCheck? || e.ShutdownRoutine?

  /** Only ever configured for AC. */
  ghost predicate FixedAC(log: Log) {
    forall j :: 0 <= j < |log| && log[j].ConfigSet? ==> log[j].config.mode == AC
  }

  /** The shutdown type that the error thread set last. */
  ghost function LastShutdown(log: Log): ShutdownType {
    var k := Last(log, IsShutdownMark);
    if k < 0 then NoShutdown else log[k].shutdown
  }

  /** The shutdown type that the state machine saw last. */
  ghost function LastObserved(log: Log): ShutdownType {
    var k := Last(log, IsCheck);
    if k < 0 then NoShutdown else log[k].observed
  }

  /** The shutdown type whose routine has to run next: the last check saw a change to it and nothing ran since. */
  ghost function OwedRoutine(log: Log): ShutdownType {
    var k := Last(log, IsRoutineMark);
    if k >= 0 && log[k].FatalCheck? && log[k].observed != LastObserved(log[..k]) then log[k].observed else NoShutdown
  }

  lemma {:induction false} FatalMeaning(log: Log)
    ensures Observe(log).fatal.acOnly == FixedAC(log)
    ensures Observe(log).fatal.shutdown == LastShutdown(log)
    decreases |log|
  {
    hide NextSession, NextStart, NextFinish, NextBoard, NextAvailability;
    if log != [] {
      FatalMeaning(log[..|log| - 1]);
    }
  }

  lemma {:induction false} ObservedMeaning(log: Log)
    ensures Observe(log).fatal.observed == LastObserved(log)
    decreases |log|
  {
    hide NextSession, NextStart, NextFinish, NextBoard, NextAvailability;
    if log != [] {
      ObservedMeaning(log[..|log| - 1]);
    }
  }

  lemma {:induction false} OwedMeaning(log: Log)
    ensures Observe(log).fatal.owed == OwedRoutine(log)
    decreases |log|
  {
    hide NextSession, NextStart, NextFinish, NextBoard, NextAvailability;
    if log != [] {
      var prefix := log[..|log| - 1];
      OwedMeaning(prefix);
      ObservedMeaning(prefix);
      if !IsRoutineMark(log[|log| - 1]) {
        var k := Last(prefix, IsRoutineMark);
        assert k == Last(log, IsRoutineMark);
        assert k >= 0 ==> log[..k] == prefix[..k] && log[k] == prefix[k];
      }
    }
  }

  // ------------------------------------------------------------ availability

  const IsAvailabilityMark := (e: Event) => e.Availability? || e.AvailabilityPublished?

  /** The availability last published; the charger starts available. */
  ghost predicate IsAvailable(log: Log) {
    var k := Last(log, IsAvailabilityMark);
    k < 0 || log[k].enabled
  }

  lemma {:induction false} AvailabilityMeaning(log: Log)
    ensures Observe(log).avail.available == IsAvailable(log)
    decreases |log|
  {
    hide NextSession, NextStart, NextFinish, NextBoard, NextFatal;
    if log != [] {
      AvailabilityMeaning(log[..|log| - 1]);
    }
  }

  // ---------------------------------------------------------------- the rules

  /** Power and a running PWM never meet before a transaction start, unless the SoC timeout fired since the grant. */
  ghost predicate PilotIsCold(log: Log) {
    IsRunningDuty(LastDuty(log)) && PowerGranted(log) ==> StartedSinceIdle(log) || TimedOutSinceGrant(log)
  }

  lemma PilotMeaning(log: Log)
    ensures PilotCold(Observe(log)) <==> PilotIsCold(log)
  {
    BoardMeaning(log);
    GrantMeaning(log);
    StartMeaning(log);
    TimeoutMeaning(log);
  }

  /** Whether the charger may send an event, given everything it sent before: the pilot is cold, and the event fits. */
  ghost predicate StepIsLawful(before: Log, e: Event) {
    PilotIsCold(before) && Fits(before, e)
  }

  /** Whether an event fits what was sent before. */
  ghost predicate Fits(before: Log, e: Event) {
    match e
    // sessions start and finish in turn
    case SessionStarted(_, _) => !SessionOpen(before)
    case Simple(s) => s.SessionFinished? ==> SessionOpen(before)
    // transactions start only when authorized
    case StartTransactionCalled => IsAuthorized(before)
    // no transaction finishes twice; each is reported with the latest cancel, or as a disconnected EV
    case TransactionFinished(reason, token) =>
      StartedSinceStop(before) && Cancel(reason, token) == ExpectedFinish(CancelSinceStart(before))
    // power is granted only after a transaction start since Idle; under a shutdown type that stops
    // charging, whether just set or seen already, only for the cable check, and never in fixed AC mode
    case AllowPowerOn(on, reason) =>
      on ==>
        && StartedSinceIdle(before)
        && (LastShutdown(before) != NoShutdown || LastObserved(before) != NoShutdown ==>
              reason == DCCableCheck && !FixedAC(before))
    // an over-current is judged by the configured tolerance; in basic charging it is one over the current
    // that the duty cycle on the wire stands for
    case RaiseOverCurrent(signalled, limit, basic) =>
      && limit == Tolerated(signalled, LastTolerance(before))
      && (basic && IsNominal(LastDuty(before)) ==> LastDuty(before) == AmpereToDutyCycle(signalled))
    // a shutdown routine runs when it is owed, and nothing is owed any more at the next check
    case ShutdownRoutine(t) => t == OwedRoutine(before) != NoShutdown
    case FatalCheck(_) => OwedRoutine(before) == NoShutdown
    // every availability event of enable_disable reverses the one before; the first one says "disabled"
    case Availability(enabled) => enabled != IsAvailable(before)
    case _ => true
  }

  /** Every event was lawful when it was sent, and no shutdown routine is still owed. */
  ghost predicate Lawful(log: Log) {
    (forall j :: 0 <= j < |log| ==> StepIsLawful(log[..j], log[j])) && OwedRoutine(log) == NoShutdown
  }

  lemma SessionStep(before: Log, e: Event)
    requires IsSessionMark(e) && NextSession(Observe(before).session, e).sessionsOk
    ensures Fits(before, e)
  {
    SessionMeaning(before);
  }

  lemma StartStep(before: Log)
    requires NextStart(Observe(before).start, Observe(before).session.authorized, StartTransactionCalled).startsOk
    ensures Fits(before, StartTransactionCalled)
  {
    AuthMeaning(before);
  }

  lemma FinishStep(before: Log, e: Event)
    requires e.TransactionFinished? && NextFinish(Observe(before).finish, e).finishesOk
    ensures Fits(before, e)
  {
    FinishMeaning(before);
  }

  lemma GrantStep(before: Log, e: Event)
    requires e.AllowPowerOn? && NextStart(Observe(before).start, Observe(before).session.authorized, e).grantsOk
    requires NextFatal(Observe(before).fatal, e).unsafeOk
    ensures Fits(before, e)
  {
    StartMeaning(before);
    FatalMeaning(before);
    ObservedMeaning(before);
  }

  lemma LimitStep(before: Log, e: Event)
    requires e.RaiseOverCurrent? && NextBoard(Observe(before).board, e).limitsOk
    ensures Fits(before, e)
  {
    BoardMeaning(before);
    ToleranceMeaning(before);
  }

  lemma RoutineStep(before: Log, e: Event)
    requires IsRoutineMark(e) && NextFatal(Observe(before).fatal, e).routinesOk
    ensures Fits(before, e)
  {
    OwedMeaning(before);
  }

  lemma AvailabilityStep(before: Log, e: Event)
    requires e.Availability? && NextAvailability(Observe(before).avail, e).availabilityOk
    ensures Fits(before, e)
  {
    AvailabilityMeaning(before);
  }

  /** No flag of the monitor can hold after a step that breaks its rule. */
  lemma StepMeaning(before: Log, e: Event)
    requires KeptSoFar(Next(Observe(before), e))
    ensures StepIsLawful(before, e)
  {
    PilotMeaning(before);
    if IsSessionMark(e) {
      SessionStep(before, e);
    } else if e.StartTransactionCalled? {
      StartStep(before);
    } else if e.TransactionFinished? {
      FinishStep(before, e);
    } else if e.AllowPowerOn? {
      GrantStep(before, e);
    } else if e.RaiseOverCurrent? {
      LimitStep(before, e);
    } else if IsRoutineMark(e) {
      RoutineStep(before, e);
    } else if e.Availability? {
      AvailabilityStep(before, e);
    }
  }

  lemma {:induction false} StepsAreLawful(log: Log)
    requires KeptSoFar(Observe(log))
    ensures forall j :: 0 <= j < |log| ==> StepIsLawful(log[..j], log[j])
    decreases |log|
  {
    hide StepIsLawful;
    if log != [] {
      var prefix := log[..|log| - 1];
      StepsAreLawful(prefix);
      StepMeaning(prefix, log[|log| - 1]);
      forall j | 0 <= j < |log| ensures StepIsLawful(log[..j], log[j]) {
        if j < |prefix| {
          assert log[..j] == prefix[..j] && log[j] == prefix[j];
        }
      }
    }
  }

  /** A log whose monitor never saw a rule broken is lawful. */
  lemma MonitorMeaning(log: Log)
    requires AllOk(Observe(log))
    ensures Lawful(log)
  {
    StepsAreLawful(log);
    OwedMeaning(log);
  }

  // ------------------------------------------------------- errors and grants

  /** Once a fatal error was seen no grant stands, but for the one of the DC cable check. */
  ghost predicate ErrorStopsPower(log: Log) {
    LastObserved(log) != NoShutdown && PowerGranted(log) ==> GrantReason(log) == DCCableCheck && !FixedAC(log)
  }

  /** The j-th event is a check that sees another shutdown type than the check before. */
  ghost predicate SeesError(log: Log, j: nat)
    requires j < |log|
  {
    log[j].FatalCheck? && log[j].observed != LastObserved(log[..j])
  }

  ghost predicate NoCommandSince(log: Log, j: nat) {
    forall k :: j < k < |log| ==> !log[k].AllowPowerOn?
  }

  /** Since position `begun` a new shutdown type was seen, and no contactor command was sent yet. */
  ghost predicate ShutsDown(log: Log, begun: nat) {
    exists j :: begun <= j < |log| && SeesError(log, j) && NoCommandSince(log, j)
  }

  lemma ShutsDownStill(log: Log, begun: nat, k: nat)
    requires begun <= k < |log| && ShutsDown(log[..k], begun) && !log[k].AllowPowerOn?
    ensures ShutsDown(log[..k + 1], begun)
  {
    hide LastObserved;
    var j :| begun <= j < k && SeesError(log[..k], j) && NoCommandSince(log[..k], j);
    assert log[..k + 1][..j] == log[..k][..j];
    assert SeesError(log[..k + 1], j);
  }

  lemma ShutsDownNow(log: Log, begun: nat, k: nat)
    requires begun <= k < |log| && SeesError(log, k)
    ensures ShutsDown(log[..k + 1], begun)
  {
    hide LastObserved;
    assert log[..k + 1][..k] == log[..k];
    assert SeesError(log[..k + 1], k) && NoCommandSince(log[..k + 1], k);
  }

  lemma GrantUnderError(before: Log, e: Event)
    requires e.AllowPowerOn? && Fits(before, e)
    ensures ErrorStopsPower(before + [e])
  {
    assert (before + [e])[..|before|] == before;
  }

  lemma SameError(before: Log, e: Event)
    requires !e.AllowPowerOn? && (e.FatalCheck? ==> e.observed == LastObserved(before)) && ErrorStopsPower(before)
    ensures ErrorStopsPower(before + [e])
  {
    assert (before + [e])[..|before|] == before;
    if FixedAC(before + [e]) {
      forall j | 0 <= j < |before| && before[j].ConfigSet? ensures before[j].config.mode == AC {
        assert (before + [e])[j] == before[j];
      }
    }
  }

  /** Within a call, too, a grant under a fatal error is one of the cable check, or about to be taken back. */
  lemma {:induction false} ErrorInCall(log: Log, begun: nat, k: nat)
    requires forall j :: 0 <= j < |log| ==> StepIsLawful(log[..j], log[j])
    requires begun <= k <= |log| && ErrorStopsPower(log[..begun])
    ensures ErrorStopsPower(log[..k]) || ShutsDown(log[..k], begun)
    decreases k
  {
    hide PilotIsCold, ShutsDown, ErrorStopsPower, Fits, LastObserved;
    if k > begun {
      var n := k - 1;
      ErrorInCall(log, begun, n);
      assert log[..k] == log[..n] + [log[n]] && StepIsLawful(log[..n], log[n]);
      if log[n].AllowPowerOn? {
        GrantUnderError(log[..n], log[n]);
      } else if SeesError(log, n) {
        ShutsDownNow(log, begun, n);
      } else if ShutsDown(log[..n], begun) {
        ShutsDownStill(log, begun, n);
      } else {
        SameError(log[..n], log[n]);
      }
    }
  }
}
