/**
 Whole runs of the charger: any sequence of calls of its entry points, with any clock
 readings and foreign answers, started from construction.
 */
module ChargerRun {
  import opened Common
  import opened DutyCycle
  import opened EnableTable
  import opened ChargerTypes
  import opened ChargerMonitor
  import opened ChargerInvariant
  import opened ChargerRules
  import opened ChargerMachine

  /** Everything the error handler told the charger, in order. */
  function ErrorEvents(inputs: seq<Input>): seq<ErrorHandlingEvent> {
    if inputs == [] then []
    else
      var i := inputs[|inputs| - 1];
      ErrorEvents(inputs[..|inputs| - 1]) + if i.ErrorInput? then i.batch else []
  }

  predicate IsUnplug(i: Input) {
    i.CpInput? && i.event.CarUnplugged?
  }

  method ApplyUser(c: Charger, i: UserInput)
    requires c.Valid()
    modifies c
    ensures c.Valid() && c.fatal.shutdownType == old(c.fatal).shutdownType
    ensures c.prior == old(c.prior) && c.history == old(c.history) && c.socFires == old(c.socFires)
    ensures c.Does(FromUser(i))
    ensures old(c.RestsWell()) ==> c.RestsWell()
    ensures i.AuthorizeCall? ==> c.auth.authorized == i.grant
  {
    hide Charger.Valid;
    match i
    case AuthorizeCall(grant, token, newId) => c.Authorize(grant, token, newId);
    case DeauthorizeCall => var _ := c.Deauthorize();
    case CancelCall(reason, token, env) => var _ := c.CancelTransaction(reason, token, env);
    case PauseCall => var _ := c.PauseCharging();
    case ResumeCall => var _ := c.ResumeCharging();
  }

  method ApplySwitch(c: Charger, connector: int, source: Entry)
    requires c.Valid()
    modifies c
    ensures c.Valid() && c.fatal.shutdownType == old(c.fatal).shutdownType
    ensures c.prior == old(c.prior) && c.history == old(c.history) && c.socFires == old(c.socFires)
    ensures c.Does(FromOperator(EnableDisableCall(connector, source)))
    ensures old(c.RestsWell()) ==> c.RestsWell()
  {
    hide Charger.Valid;
    var _ := c.EnableDisable(connector, source);
  }

  method ApplyOperator(c: Charger, i: OperatorInput)
    requires c.Valid()
    modifies c
    ensures c.Valid() && c.fatal.shutdownType == old(c.fatal).shutdownType
    ensures c.prior == old(c.prior) && c.history == old(c.history) && c.socFires == old(c.socFires)
    ensures c.Does(FromOperator(i))
    ensures old(c.RestsWell()) ==> c.RestsWell()
  {
    hide Charger.Valid;
    match i
    case EnableDisableCall(connector, source) => ApplySwitch(c, connector, source);
    case PublishAvailabilityCall => c.EnableDisableInitialStatePublish();
    case SetupCall(cfg, socTimeout) => c.Setup(cfg, socTimeout);
    case ConnectorTypeCall(isSocket) => c.SetConnectorType(isSocket);
  }

  method ApplyEnergy(c: Charger, i: EnergyInput)
    requires c.Valid()
    modifies c
    ensures c.Valid() && c.fatal.shutdownType == old(c.fatal).shutdownType
    ensures c.prior == old(c.prior) && c.history == old(c.history) && c.socFires == old(c.socFires)
    ensures c.Does(FromEnergy(i))
    ensures old(c.RestsWell()) ==> c.RestsWell()
  {
    hide Charger.Valid;
    match i
    case MaxCurrentCall(ampere, validUntil, now) => var _ := c.SetMaxCurrent(ampere, validUntil, now);
    case WaitForPowerCall => var _ := c.PauseChargingWaitForPower();
    case PowerAvailableCall(now) => var _ := c.ResumeChargingPowerAvailable(now);
    case SwitchPhasesCall(three) => var _ := c.SwitchThreePhasesWhileCharging(three);
    case CurrentDrawnCall(l1, l2, l3) => c.SetCurrentDrawnByVehicle(l1, l2, l3);
    case HlcLimitsCall(limits) => c.InformNewEvseMaxHlcLimits(limits);
  }

  method ApplyHlc(c: Charger, i: HlcInput)
    requires c.Valid()
    modifies c
    ensures c.Valid() && c.fatal.shutdownType == old(c.fatal).shutdownType
    ensures c.prior == old(c.prior) && c.history == old(c.history) && c.socFires == old(c.socFires)
    ensures c.Does(FromHlc(i))
    ensures old(c.RestsWell()) ==> c.RestsWell()
  {
    hide Charger.Valid;
    match i
    case MatchingStartedCall(started) => c.SetMatchingStarted(started);
    case RequestErrorSequenceCall => c.RequestErrorSequence();
    case CurrentDemandCall => c.NotifyCurrentDemandStarted();
    case DlinkPauseCall => c.DlinkPause();
    case DlinkTerminateCall => c.DlinkTerminate();
    case DlinkErrorCall => c.DlinkError();
    case HlcActiveCall => c.SetHlcChargingActive();
    case HlcAllowCall(on) => c.SetHlcAllowCloseContactor(on);
    case FatalErrorQuery(now) => var _ := c.StopChargingOnFatalError(now);
  }

  /** The threads of the charger itself, and the events of the IEC state machine. */
  method ApplyInternal(c: Charger, i: Input)
    requires c.Valid() && (i.StartCall? || i.TickInput? || i.CpInput? || i.ErrorInput?)
    modifies c
    ensures c.Valid() && c.prior == old(c.prior) && c.history == old(c.history)
    ensures c.fatal.shutdownType ==
      if i.ErrorInput? then AppliedAll(old(c.fatal).shutdownType, i.batch) else old(c.fatal).shutdownType
    ensures c.socFires >= old(c.socFires)
    ensures c.socFires == old(c.socFires) && old(c.RestsWell()) ==> c.RestsWell()
    ensures c.Does(i)
  {
    hide Charger.Inv, Charger.FollowsEvent, Charger.Ticked;
    match i {
      case StartCall => c.StartMainThread();
      case TickInput(now, env) => c.MainLoop(now, env);
      case CpInput(e, env, env1, env2, env3) => c.ProcessEvent(e, env, env1, env2, env3);
      case ErrorInput(batch) => c.ProcessErrorEvents(batch);
    }
  }

  function SnapshotOf(c: Charger): Snapshot
    reads c
  {
    Snapshot(c.currentState, c.ret, c.auth, c.tx, c.pwm, c.fatal, c.IsStuck(), c.Rests(), c.ClosesOnUnplug())
  }

  function NoteOf(c: Charger): Note
    reads c
  {
    Note(c.trace.events, SnapshotOf(c))
  }

  /** One call of an entry point, noted in the charger's history together with what was found before it. */
  method Apply(c: Charger, i: Input)
    requires c.Valid()
    modifies c
    ensures c.Valid() && c.prior == old(c.prior) && c.history == old(c.history) + [i] && c.note == old(NoteOf(c))
    ensures c.fatal.shutdownType ==
      if i.ErrorInput? then AppliedAll(old(c.fatal).shutdownType, i.batch) else old(c.fatal).shutdownType
    ensures c.socFires >= old(c.socFires)
    ensures c.socFires == old(c.socFires) && old(c.RestsWell()) ==> c.RestsWell()
    ensures c.Does(i)
    ensures i.FromUser? && i.user.AuthorizeCall? ==> c.auth.authorized == i.user.grant
  {
    hide Charger.Valid, Charger.RestsWell, Charger.Does, NoteOf;
    ghost var before := NoteOf(c);
    match i {
      case FromUser(u) => ApplyUser(c, u);
      case FromOperator(o) => ApplyOperator(c, o);
      case FromEnergy(e) =>
        ApplyEnergy(c, e);
      case FromHlc(h) => ApplyHlc(c, h);
      case _ => ApplyInternal(c, i);
    }
    c.history, c.note := c.history + [i], before;
  }

  /** What the fields say at rest, in terms of the log. */
  ghost predicate Agrees(s: Snapshot, log: Log) {
    && (NeedsStart(s.state, s.ret) ==> StartedSinceIdle(log))
    && s.auth.sessionActive == SessionOpen(log)
    && (s.auth.sessionActive <==> s.auth.sessionUuid != "")
    && s.auth.authorized == IsAuthorized(log)
    && (s.auth.authorized ==> s.auth.sessionActive)
    && (s.tx.active <==> StartedSinceIdle(log) && StartedSinceStop(log))
    && s.pwm.lastDc == LastDuty(log)
    && (IsNominal(s.pwm.lastDc) ==> s.pwm.lastDc == AmpereToDutyCycle(s.pwm.setAmpere))
    && s.fatal.shutdownType == LastShutdown(log)
    && s.fatal.lastShutdownType == LastObserved(log)
    && ErrorStopsPower(log)
  }

  lemma RestMeaning(log: Log, s: Snapshot)
    requires var m := Observe(log);
      && (NeedsStart(s.state, s.ret) ==> m.start.sinceIdle)
      && SessionInv(s.auth, m.session)
      && TransactionInv(s.tx, m.start, m.finish)
      && PwmInv(s.pwm, m.board)
      && m.fatal.shutdown == s.fatal.shutdownType
      && m.fatal.observed == s.fatal.lastShutdownType
      && (s.fatal.lastShutdownType != NoShutdown && m.board.allow ==> m.board.reason == DCCableCheck && !m.fatal.acOnly)
      && (IsRunningDuty(m.board.duty) ==> Cold(m))
    ensures Agrees(s, log) && PilotIsCold(log)
  {
    SessionMeaning(log);
    AuthMeaning(log);
    StartMeaning(log);
    FinishMeaning(log);
    BoardMeaning(log);
    GrantMeaning(log);
    TimeoutMeaning(log);
    FatalMeaning(log);
    ObservedMeaning(log);
  }

  /** A charger at rest: what it sent keeps every rule and tells what its fields hold. */
  lemma ValidMeaning(c: Charger)
    requires c.Valid()
    ensures Lawful(c.trace.events)
    ensures Agrees(SnapshotOf(c), c.trace.events)
    ensures PilotIsCold(c.trace.events)
    ensures c.socFires == 0 <==> SocTimeoutSignal !in c.trace.events
    ensures c.Granted() <==> PowerGranted(c.trace.events)
    ensures c.SinceStop() <==> StartedSinceStop(c.trace.events)
  {
    assert Recall(0);
    MonitorMeaning(c.trace.events);
    RestMeaning(c.trace.events, SnapshotOf(c));
    FiresMeaning(c.trace.events);
    GrantMeaning(c.trace.events);
    FinishMeaning(c.trace.events);
  }

  /** In Idle with session, authorization and transaction closed. */
  predicate IsClosed(s: Snapshot) {
    s.state == Idle && !s.tx.active && !s.auth.sessionActive && !s.auth.authorized
  }

  /**
   What the end of a run owes to its inputs. An unplug as the last call closes everything exactly as the charger
   before it tells, if that was at rest; in any case it does if the SoC timeout does not fire during the call, unless
   the charger was stuck before, which takes an earlier SoC timeout.
   */
  ghost predicate EndsAsAsked(was: Snapshot, s: Snapshot, sent: Log, log: Log, inputs: seq<Input>)
    requires sent <= log
  {
    && s.fatal.shutdownType == AppliedAll(NoShutdown, ErrorEvents(inputs))
    && (|inputs| > 0 ==>
          var last := inputs[|inputs| - 1];
          && (last.FromUser? && last.user.AuthorizeCall? ==> s.auth.authorized == last.user.grant)
          && (IsUnplug(last) && was.rests ==> (IsClosed(s) <==> was.closes))
          && (IsUnplug(last) && SocTimeoutSignal !in log[|sent|..] ==> (IsClosed(s) <==> !was.stuck))
          && (SocTimeoutSignal !in sent ==> !was.stuck))
  }

  lemma FiresOf(c: Charger)
    requires c.Valid()
    ensures Observe(c.trace.events).avail.socFires == c.socFires
    ensures c.prior <= c.trace.events
  {
    assert Recall(0);
  }

  lemma AgreesOf(c: Charger)
    requires c.Valid()
    ensures Agrees(SnapshotOf(c), c.trace.events)
  {
    ValidMeaning(c);
  }

  lemma UnplugMeaning(sent: Log, log: Log, before: nat, after: nat)
    requires sent <= log
    requires Observe(sent).avail.socFires == before && Observe(log).avail.socFires == after
    ensures SocTimeoutSignal !in log[|sent|..] ==> after == before
    ensures SocTimeoutSignal !in sent ==> before == 0
  {
    FiresMeaning(sent);
    if SocTimeoutSignal !in log[|sent|..] {
      FiresSince(sent, log);
    }
  }

  method PlayAll(c: Charger, inputs: seq<Input>)
    requires c.Valid() && c.fatal.shutdownType == NoShutdown && c.history == [] && c.RestsWell()
    modifies c
    ensures c.Valid() && c.history == inputs && (c.socFires == 0 ==> c.RestsWell())
    ensures c.fatal.shutdownType == AppliedAll(NoShutdown, ErrorEvents(inputs))
  {
    hide Charger.Valid, Charger.RestsWell;
    var k := 0;
    while k < |inputs|
      invariant 0 <= k <= |inputs|
      invariant c.Valid() && c.history == inputs[..k] && (c.socFires == 0 ==> c.RestsWell())
      invariant c.fatal.shutdownType == AppliedAll(NoShutdown, ErrorEvents(inputs[..k]))
    {
      assert inputs[..k + 1][..k] == inputs[..k];
      if inputs[k].ErrorInput? {
        AppliedInBatches(NoShutdown, ErrorEvents(inputs[..k]), inputs[k].batch);
      }
      Step(c, inputs[k]);
      k := k + 1;
    }
    assert inputs[..k] == inputs;
  }

  /** Plays the inputs on a charger that was just constructed, and looks at it before and after the last one. */
  method Play(c: Charger, inputs: seq<Input>) returns (log: Log, s: Snapshot, sent: Log, was: Snapshot)
    requires c.Valid() && c.currentState == Idle && c.fatal.shutdownType == NoShutdown && c.history == []
    modifies c
    ensures c.Valid() && c.history == inputs && log == c.trace.events && s == SnapshotOf(c)
    ensures sent <= log && Agrees(was, sent) && EndsAsAsked(was, s, sent, log, inputs)
    ensures inputs != [] ==> c.note == Note(sent, was)
  {
    hide Agrees, Observe, AppliedAll, Charger.Valid, Charger.Rests, Charger.ClosesOnUnplug, Charger.IsStuck;
    var n := if inputs == [] then 0 else |inputs| - 1;
    PlayAll(c, inputs[..n]);
    sent, was := c.trace.events, SnapshotOf(c);
    AgreesOf(c);
    if inputs == [] {
      log, s := sent, was;
      return;
    }
    ghost var fires := c.socFires;
    FiresOf(c);
    if inputs[n].ErrorInput? {
      AppliedInBatches(NoShutdown, ErrorEvents(inputs[..n]), inputs[n].batch);
    } else {
      assert ErrorEvents(inputs) == ErrorEvents(inputs[..n]);
    }
    Step(c, inputs[n]);
    log, s := c.trace.events, SnapshotOf(c);
    FiresOf(c);
    UnplugMeaning(sent, log, fires, c.socFires);
  }

  /** What the last call owes, by the number of SoC timeouts before and after it. */
  predicate LastCall(was: Snapshot, s: Snapshot, before: nat, after: nat, last: Input) {
    && (last.FromUser? && last.user.AuthorizeCall? ==> s.auth.authorized == last.user.grant)
    && (IsUnplug(last) && was.rests ==> (IsClosed(s) <==> was.closes))
    && (IsUnplug(last) && before == after ==> (IsClosed(s) <==> !was.stuck))
    && (before == 0 ==> !was.stuck)
  }

  method Step(c: Charger, i: Input)
    requires c.Valid() && (c.socFires == 0 ==> c.RestsWell())
    modifies c
    ensures c.Valid() && c.history == old(c.history) + [i] && c.note == old(NoteOf(c))
    ensures old(c.trace).events <= c.trace.events
    ensures c.fatal.shutdownType ==
      if i.ErrorInput? then AppliedAll(old(c.fatal).shutdownType, i.batch) else old(c.fatal).shutdownType
    ensures c.socFires == 0 ==> c.RestsWell()
    ensures LastCall(old(SnapshotOf(c)), SnapshotOf(c), old(c.socFires), c.socFires, i)
  {
    hide Charger.Rests, Charger.ClosesOnUnplug;
    c.BeginEntry();
    Apply(c, i);
    FiresOf(c);
  }

  /** Every run of the charger keeps every rule. */
  method RunCharger(boot: Boot, inputs: seq<Input>) returns (c: Charger, log: Log)
    ensures c.Valid() && c.history == inputs && log == c.trace.events
    ensures Lawful(log)
  {
    c := new Charger(boot);
    var all, _, _, _ := Play(c, inputs);
    log := all;
    ValidMeaning(c);
  }

  /** Every run ends as its inputs ask, with the fields in agreement with what was sent. */
  method EndOfRun(boot: Boot, inputs: seq<Input>)
    returns (c: Charger, log: Log, s: Snapshot, sent: Log, was: Snapshot)
    ensures c.Valid() && c.history == inputs && log == c.trace.events && s == SnapshotOf(c)
    ensures sent <= log && Agrees(was, sent) && EndsAsAsked(was, s, sent, log, inputs)
    ensures inputs != [] ==> c.note == Note(sent, was)
    ensures Agrees(s, log) && PilotIsCold(log)
  {
    c := new Charger(boot);
    log, s, sent, was := Play(c, inputs);
    ValidMeaning(c);
  }

  /** One call of enable_disable, and the round of the main loop after it. */
  datatype EnableCall = EnableCall(connector: int, source: Entry, now: int, env: nat -> Env)

  /** The request that each source made last. */
  ghost function Standing(calls: seq<EnableCall>): set<Entry> {
    if calls == [] then {} else Overwrite(Standing(calls[..|calls| - 1]), calls[|calls| - 1].source)
  }

  /** What is published follows the standing requests, and so does the state if no call named connector 0. */
  ghost predicate FollowsRequests(log: Log, state: EvseState, calls: seq<EnableCall>) {
    && (IsAvailable(log) <==> !DisabledBy(Standing(calls)))
    && ((forall k :: 0 <= k < |calls| ==> calls[k].connector != 0) ==>
          state == if DisabledBy(Standing(calls)) then Disabled else Idle)
  }

  /** Every event of enable_disable reverses the one before; the first one says "disabled". */
  ghost predicate AvailabilityAlternates(log: Log) {
    forall j :: 0 <= j < |log| && log[j].Availability? ==> log[j].enabled != IsAvailable(log[..j])
  }

  lemma {:induction false} StandingIsLatest(calls: seq<EnableCall>, e: Entry)
    ensures e in Standing(calls) <==> IsLatest(seq(|calls|, i requires 0 <= i < |calls| => calls[i].source), e)
    decreases |calls|
  {
    if calls != [] {
      var n := |calls| - 1;
      var history := seq(n, i requires 0 <= i < n => calls[..n][i].source);
      StandingIsLatest(calls[..n], e);
      LatestAfterWrite(history, calls[n].source, e);
      assert seq(|calls|, i requires 0 <= i < |calls| => calls[i].source) == history + [calls[n].source];
    }
  }

  /** The calls as they reach the charger. */
  function InputsOf(calls: seq<EnableCall>): seq<Input> {
    if calls == [] then []
    else
      var call := calls[|calls| - 1];
      InputsOf(calls[..|calls| - 1]) +
      [FromOperator(EnableDisableCall(call.connector, call.source))] + [TickInput(call.now, call.env)]
  }

  /**
   Runs of enable_disable from construction: its own events alternate, starting with "disabled". If every
   call names a non-zero connector, the state is Disabled exactly when the standing requests say so.
   */
  method RunEnableDisable(boot: Boot, calls: seq<EnableCall>) returns (c: Charger, log: Log, state: EvseState)
    ensures c.Valid() && c.history == InputsOf(calls) && log == c.trace.events && state == c.currentState
    ensures FollowsRequests(log, state, calls)
    ensures AvailabilityAlternates(log)
  {
    hide Charger.Inv, DisabledBy;
    c := new Charger(boot);
    NothingRequested();
    var k := 0;
    while k < |calls|
      invariant 0 <= k <= |calls|
      invariant fresh(c) && c.Valid() && c.history == InputsOf(calls[..k])
      invariant Requests(c.table) == Standing(calls[..k])
      invariant c.active.state == Disable <==> DisabledBy(Standing(calls[..k]))
      invariant c.currentState == Idle || c.currentState == Disabled
      invariant (forall j :: 0 <= j < k ==> calls[j].connector != 0) ==> c.InStep()
    {
      assert calls[..k + 1][..k] == calls[..k];
      EnableThenTick(c, calls[k]);
      k := k + 1;
    }
    assert calls[..k] == calls;
    log := c.trace.events;
    state := c.currentState;
    AvailabilityOf(c);
  }

  lemma NothingRequested()
    ensures Requests([]) == {} && !DisabledBy({})
  {
  }

  lemma AvailabilityOf(c: Charger)
    requires c.Inv()
    ensures AvailabilityAlternates(c.trace.events)
    ensures IsAvailable(c.trace.events) <==> c.active.state != Disable
  {
    assert Recall(0);
    MonitorMeaning(c.trace.events);
    AvailabilityMeaning(c.trace.events);
    forall j | 0 <= j < |c.trace.events| ensures StepIsLawful(c.trace.events[..j], c.trace.events[j]) {}
  }

  method EnableThenTick(c: Charger, call: EnableCall)
    requires c.Valid() && (c.currentState == Idle || c.currentState == Disabled)
    modifies c
    ensures c.Valid() && (c.currentState == Idle || c.currentState == Disabled)
    ensures c.history == old(c.history) + [FromOperator(EnableDisableCall(call.connector, call.source))] +
      [TickInput(call.now, call.env)]
    ensures Requests(c.table) == Overwrite(old(Requests(c.table)), call.source)
    ensures c.active.state == Disable <==> DisabledBy(Requests(c.table))
    ensures call.connector != 0 && old(c.InStep()) ==> c.InStep()
  {
    hide Charger.Inv, DisabledBy, Charger.Passed;
    Apply(c, FromOperator(EnableDisableCall(call.connector, call.source)));
    Apply(c, TickInput(call.now, call.env));
  }

  /** With connector 0 the two fall apart: disabled twice for the whole station, the charger ends up in Idle. */
  method DisableStationTwice(boot: Boot, source: EnableSource, priority: int) returns (c: Charger, log: Log)
    ensures c.Valid() && log == c.trace.events
    ensures
      var call := FromOperator(EnableDisableCall(0, Entry(source, Disable, priority)));
      c.history == [call, call]
    ensures c.currentState == Idle && !IsAvailable(log)
  {
    hide Charger.Inv;
    c := new Charger(boot);
    var entry := Entry(source, Disable, priority);
    NothingRequested();
    assert BeatsAll(entry, {entry});
    Apply(c, FromOperator(EnableDisableCall(0, entry)));
    assert Requests(c.table) == {entry};
    Apply(c, FromOperator(EnableDisableCall(0, entry)));
    assert Requests(c.table) == {entry};
    log := c.trace.events;
    AvailabilityOf(c);
  }
}
