/**
 What a bystander can tell from the charger's trace. A `Monitor` is folded over the
 events; its flags ending in `Ok` say that a rule was never broken.
 */
module ChargerMonitor {
  import opened Common
  import opened DutyCycle
  import opened ChargerTypes

  datatype Cancel = Cancel(reason: StopTransactionReason, token: Option<IdToken>)

  /** Is a session open, and is it authorized? Sessions open and close in turn. */
  datatype SessionMonitor = SessionMonitor(open: bool, authorized: bool, sessionsOk: bool)

  /** Was start_transaction called since Idle was last initialised? Starts need authorization, grants need a start. */
  datatype StartMonitor = StartMonitor(sinceIdle: bool, startsOk: bool, grantsOk: bool)

  /** Was start_transaction called since the last stop, and what was the latest cancel since then? */
  datatype FinishMonitor = FinishMonitor(sinceStop: bool, cancel: Option<Cancel>, finishesOk: bool)

  /** By how much the vehicle may exceed the signalled current. */
  datatype Tolerance = Tolerance(percent: real, noise: real)

  /**
   The last contactor permission with its reason, the duty cycle sent to the board, and whether the SoC
   timeout fired since the last contactor command. Over-current is judged by duty cycle and tolerance.
   */
  datatype BoardMonitor = BoardMonitor(
    allow: bool, reason: PowerReason, socSince: bool, duty: real, tolerance: Tolerance, limitsOk: bool)

  /** Shutdown types as set by the error thread and as observed by the state machine. */
  datatype FatalMonitor = FatalMonitor(
    acOnly: bool, shutdown: ShutdownType, unsafeOk: bool,
    observed: ShutdownType, owed: ShutdownType, routinesOk: bool)

  /** Availability events alternate; how often did the SoC timeout fire? */
  datatype AvailabilityMonitor = AvailabilityMonitor(available: bool, availabilityOk: bool, socFires: nat)

  datatype Monitor = Monitor(
    session: SessionMonitor,
    start: StartMonitor,
    finish: FinishMonitor,
    board: BoardMonitor,
    fatal: FatalMonitor,
    avail: AvailabilityMonitor,
    pilotOk: bool)

  const INITIAL_MONITOR := Monitor(
    SessionMonitor(false, false, true),
    StartMonitor(false, true, true),
    FinishMonitor(false, None, true),
    BoardMonitor(false, ReasonPowerOff, false, 0.0, Tolerance(0.0, 0.0), true),
    FatalMonitor(true, NoShutdown, true, NoShutdown, NoShutdown, true),
    AvailabilityMonitor(true, true, 0),
    true)

  /** A duty cycle that was computed from a current, i.e. neither state F nor 5 percent. */
  predicate IsNominal(duty: real) {
    duty != 0.0 && duty != PWM_5_PERCENT
  }

  /** The reason and token a transaction that stops now has to be reported with. */
  function ExpectedFinish(cancel: Option<Cancel>): (c: Cancel) {
    match cancel
    case None => Cancel(EVDisconnected, None)
    case Some(c) => c
  }

  function NextSession(m: SessionMonitor, e: Event): SessionMonitor {
    if e.SessionStarted? then SessionMonitor(true, false, m.sessionsOk && !m.open)
    else if e.Simple? && e.event.SessionFinished? then SessionMonitor(false, false, m.sessionsOk && m.open)
    else if e.Simple? && e.event.Authorized? then m.(authorized := true)
    else if e.CancelAccepted? then m.(authorized := false)
    else m
  }

  function NextStart(m: StartMonitor, authorized: bool, e: Event): StartMonitor {
    if e.StartTransactionCalled? then m.(sinceIdle := true, startsOk := m.startsOk && authorized)
    else if e.IdleInitialised? then m.(sinceIdle := false)
    else if e.AllowPowerOn? && e.on then m.(grantsOk := m.grantsOk && m.sinceIdle)
    else m
  }

  function NextFinish(m: FinishMonitor, e: Event): FinishMonitor {
    if e.StartTransactionCalled? then m.(sinceStop := true, cancel := None)
    else if e.CancelAccepted? then m.(cancel := Some(Cancel(e.cancelReason, e.cancelToken)))
    else if e.TransactionFinished? then
      m.(sinceStop := false,
         finishesOk := m.finishesOk && m.sinceStop && Cancel(e.stopReason, e.stopToken) == ExpectedFinish(m.cancel))
    else m
  }

  function ToleranceOf(c: ConfigContext): Tolerance {
    Tolerance(c.tolerancePercent, c.noiseA)
  }

  /** The measured current above which the vehicle overdraws what it was told. */
  function Tolerated(signalled: real, t: Tolerance): real {
    (signalled + t.noise) * (1.0 + t.percent / 100.0)
  }

  function NextBoard(m: BoardMonitor, e: Event): BoardMonitor {
    if e.SetPwm? then m.(duty := e.duty)
    else if e.SetPwmOff? then m.(duty := 1.0)
    else if e.SetPwmF? then m.(duty := 0.0)
    else if e.AllowPowerOn? then m.(allow := e.on, reason := e.reason, socSince := false)
    else if e.SocTimeoutSignal? then m.(socSince := true)
    else if e.ConfigSet? then m.(tolerance := ToleranceOf(e.config))
    else if e.RaiseOverCurrent? then
      m.(limitsOk := m.limitsOk && e.limit == Tolerated(e.signalled, m.tolerance) &&
                     (e.basic && IsNominal(m.duty) ==> m.duty == AmpereToDutyCycle(e.signalled)))
    else m
  }

  /** The board after a contactor command "off". */
  function Revoked(m: BoardMonitor): BoardMonitor {
    m.(allow := false, reason := ReasonPowerOff, socSince := false)
  }

  function NextFatal(m: FatalMonitor, e: Event): FatalMonitor {
    if e.ConfigSet? then m.(acOnly := m.acOnly && e.config.mode == AC)
    else if e.ShutdownTypeSet? then m.(shutdown := e.shutdown)
    else if e.AllowPowerOn? && e.on && !(m.shutdown.NoShutdown? && m.observed.NoShutdown?) then
      m.(unsafeOk := m.unsafeOk && e.reason.DCCableCheck? && !m.acOnly)
    else if e.FatalCheck? then
      m.(observed := e.observed,
         owed := if e.observed != m.observed then e.observed else NoShutdown,
         routinesOk := m.routinesOk && m.owed == NoShutdown)
    else if e.ShutdownRoutine? then
      m.(owed := NoShutdown, routinesOk := m.routinesOk && e.routine != NoShutdown && e.routine == m.owed)
    else m
  }

  function NextAvailability(m: AvailabilityMonitor, e: Event): AvailabilityMonitor {
    if e.Availability? then m.(available := e.enabled, availabilityOk := m.availabilityOk && e.enabled != m.available)
    else if e.AvailabilityPublished? then m.(available := e.enabled)
    else if e.SocTimeoutSignal? then m.(socFires := m.socFires + 1)
    else m
  }

  function Next(m: Monitor, e: Event): (r: Monitor) {
    Monitor(
      NextSession(m.session, e),
      NextStart(m.start, m.session.authorized, e),
      NextFinish(m.finish, e),
      NextBoard(m.board, e),
      NextFatal(m.fatal, e),
      NextAvailability(m.avail, e),
      m.pilotOk && PilotCold(m))
  }

  /** No power grant is left over from before the transaction start, unless the SoC timeout fired since it was given. */
  predicate Cold(m: Monitor) {
    m.board.socSince || m.start.sinceIdle || !m.board.allow
  }

  /** A running PWM and a power grant never meet before the transaction start. */
  predicate PilotCold(m: Monitor) {
    IsRunningDuty(m.board.duty) ==> Cold(m)
  }

  /** No monitor looks at such an event. */
  predicate IsNeutral(e: Event) {
    match e
    case EnableBsp(_) | SwitchThreePhases(_) | OverCurrentLimit(_) | TransactionStarted(_) | MaxCurrentSignal(_) => true
    case DcSupplyOff | SlacReset | SlacStart | HlcStopCharging | HlcPauseCharging | HlcError(_) | HlcNoEnergy => true
    case RaiseError(_) | ClearErrorsOnUnplug => true
    case StateSignal(_) => true
    case Simple(s) => !s.Authorized? && !s.SessionFinished?
    case _ => false
  }

  function DutyOf(e: Event): real
    requires e.SetPwm? || e.SetPwmOff? || e.SetPwmF?
  {
    match e
    case SetPwm(d) => d
    case SetPwmOff => 1.0
    case SetPwmF => 0.0
  }

  function Observe(events: seq<Event>): (m: Monitor) {
    if events == [] then INITIAL_MONITOR
    else Next(Observe(events[..|events| - 1]), events[|events| - 1])
  }

  /** No rule was broken so far. */
  predicate KeptSoFar(m: Monitor) {
    && m.session.sessionsOk
    && m.start.startsOk
    && m.start.grantsOk
    && m.finish.finishesOk
    && m.board.limitsOk
    && m.fatal.unsafeOk
    && m.fatal.routinesOk
    && m.avail.availabilityOk
    && m.pilotOk
  }

  /** ... and no shutdown routine is still owed. */
  predicate AllOk(m: Monitor) {
    KeptSoFar(m) && m.fatal.owed == NoShutdown
  }

  datatype RawTrace = RawTrace(events: seq<Event>, mon: Monitor)

  /** A trace together with what its events add up to. */
  type Trace = t: RawTrace | forall n: nat {:trigger Recall(n)} :: Recall(n) ==> t.mon == Observe(t.events)
    witness RawTrace([], INITIAL_MONITOR)

  /** The trace with one more event. */
  function Emit(t: Trace, e: Event): (r: Trace) {
    assert Recall(0) && (t.events + [e])[..|t.events|] == t.events;
    RawTrace(t.events + [e], Next(t.mon, e))
  }

  const EMPTY_TRACE: Trace := RawTrace([], INITIAL_MONITOR)
}
