/** Whole runs of the IEC state machine: any interleaving of board events, commands of the charger and evaluations. */
module IecRun {
  import opened Common
  import opened DutyCycle
  import opened IecMonitor
  import opened IecMachine
  import opened IecRules

  /** Leaves the relay open and the control pilot in B, C or D. */
  predicate IsQuiet(i: Input) {
    !(i.RelayInput? && i.closed) && (i.RawInput? ==> i.raw.CpB? || i.raw.CpC? || i.raw.CpD?)
  }

  /** Comes from the board or the connector, not from the charger. */
  predicate IsBoardSide(i: Input) {
    i.RawInput? || i.RelayInput? || i.ReplugInput? || i.ForceUnlockInput? || i.EvaluateInput?
  }

  /** Time passes with the evaluations only. */
  function Later(now: int, i: Input): int {
    if i.EvaluateInput? then now + i.elapsed else now
  }

  /** The time at the end of a run. */
  function Elapsed(inputs: seq<Input>): int {
    if inputs == [] then 0 else Later(Elapsed(inputs[..|inputs| - 1]), inputs[|inputs| - 1])
  }

  /** One call, noted in the history. */
  method Apply(iec: IecStateMachine, i: Input, now: int)
    requires iec.Valid() && iec.LastEvaluation() <= now
    modifies iec, iec.c1, iec.unlockF
    ensures iec.Valid() && iec.LastEvaluation() <= now
    ensures iec.history == old(iec.history) + [i] && iec.prior == old(iec.prior)
    ensures i.EvaluateInput? ==> iec.LastEvaluation() == now
    ensures if i.EvaluateInput? then iec.Evaluates(now) else iec.Takes(i) && unchanged(iec.c1)
    ensures IsBoardSide(i) ==> (iec.allowed ==> old(iec.allowed)) && (iec.pwmRunning ==> old(iec.pwmRunning))
    ensures old(iec.Held()) && IsQuiet(i) ==> iec.Held() && iec.Locks() == old(iec.Locks())
  {
    hide IecStateMachine.Valid, IecStateMachine.Held, IecStateMachine.Evaluates, IecStateMachine.Takes;
    if i.EvaluateInput? {
      Evaluate(iec, now);
    } else if IsBoardSide(i) {
      ApplyBoardSide(iec, i);
    } else {
      ApplyCommand(iec, i);
    }
    iec.history := iec.history + [i];
  }

  method Evaluate(iec: IecStateMachine, now: int)
    requires iec.Valid() && iec.LastEvaluation() <= now
    modifies iec, iec.c1, iec.unlockF
    ensures iec.Valid() && iec.LastEvaluation() == now
    ensures iec.history == old(iec.history) && iec.prior == old(iec.prior)
    ensures iec.Evaluates(now)
    ensures (iec.allowed ==> old(iec.allowed)) && (iec.pwmRunning ==> old(iec.pwmRunning))
    ensures old(iec.Held()) ==> iec.Held() && iec.Locks() == old(iec.Locks())
  {
    hide IecStateMachine.Powers, IecStateMachine.Announces, SeenAfter, IecStateMachine.PlugInv,
      IecStateMachine.PowerInv;
    var _ := iec.Feed(now);
  }

  method ApplyBoardSide(iec: IecStateMachine, i: Input)
    requires iec.Valid() && IsBoardSide(i) && !i.EvaluateInput?
    modifies iec`cp, iec`relayOn, iec`locked, iec`forceUnlocked, iec`trace
    ensures iec.Valid() && iec.LastEvaluation() == old(iec.LastEvaluation())
    ensures iec.history == old(iec.history) && iec.prior == old(iec.prior)
    ensures iec.allowed == old(iec.allowed) && iec.pwmRunning == old(iec.pwmRunning) && iec.Takes(i)
    ensures old(iec.Held()) && IsQuiet(i) ==> iec.Held() && iec.Locks() == old(iec.Locks())
  {
    hide IecStateMachine.Valid;
    match i
    case RawInput(raw) => iec.ProcessRawState(raw);
    case ForceUnlockInput => iec.ConnectorForceUnlock();
    case RelayInput(_) | ReplugInput(_) => ApplyBoardEvent(iec, i);
  }

  method ApplyBoardEvent(iec: IecStateMachine, i: Input)
    requires iec.Valid() && (i.RelayInput? || i.ReplugInput?)
    modifies iec`relayOn, iec`locked, iec`trace
    ensures iec.Valid() && iec.LastEvaluation() == old(iec.LastEvaluation()) && iec.Takes(i)
    ensures old(iec.Held()) && IsQuiet(i) ==> iec.Held() && iec.Locks() == old(iec.Locks())
  {
    hide IecStateMachine.Valid;
    match i
    case RelayInput(closed) => iec.ProcessBoardEvent(if closed then PowerOn else PowerOff);
    case ReplugInput(finished) => iec.ProcessBoardEvent(if finished then EvseReplugFinished else EvseReplugStarted);
  }

  method ApplyCommand(iec: IecStateMachine, i: Input)
    requires iec.Valid() && !IsBoardSide(i)
    modifies iec`pwmRunning, iec`allowed, iec`reason, iec`hasVentilation, iec`simplifiedLimit, iec`enabled, iec`trace
    ensures iec.Valid() && iec.LastEvaluation() == old(iec.LastEvaluation())
    ensures iec.history == old(iec.history) && iec.prior == old(iec.prior)
    ensures iec.Takes(i)
    ensures iec.Held() == old(iec.Held()) && iec.Locks() == old(iec.Locks())
  {
    hide IecStateMachine.Valid;
    match i
    case GrantInput(grant, reason) => ApplyGrant(iec, grant, reason);
    case SetupInput(ventilation) => iec.Setup(ventilation);
    case SimplifiedLimitInput(limit) => iec.SetSimplifiedLimit(limit);
    case EnableInput(enable) => iec.Enable(enable);
    case PwmInput(_) | PwmOffInput | PwmFInput => ApplyPwm(iec, i);
  }

  method ApplyGrant(iec: IecStateMachine, grant: bool, reason: PowerReason)
    requires iec.Valid()
    modifies iec`allowed, iec`reason, iec`trace
    ensures iec.Valid() && iec.LastEvaluation() == old(iec.LastEvaluation()) && iec.Takes(GrantInput(grant, reason))
    ensures iec.Locks() == old(iec.Locks())
  {
    hide IecStateMachine.Valid;
    iec.AllowPowerOn(grant, reason);
  }

  method ApplyPwm(iec: IecStateMachine, i: Input)
    requires iec.Valid() && (i.PwmInput? || i.PwmOffInput? || i.PwmFInput?)
    modifies iec`pwmRunning, iec`trace
    ensures iec.Valid() && iec.LastEvaluation() == old(iec.LastEvaluation()) && iec.Takes(i)
    ensures iec.Locks() == old(iec.Locks())
  {
    hide IecStateMachine.Valid;
    match i
    case PwmInput(duty) => iec.SetPwm(duty);
    case PwmOffInput => iec.SetPwmOff();
    case PwmFInput => iec.SetPwmF();
  }

  /** What is looked at after a run. */
  datatype Snapshot = Snapshot(
    allowed: bool, lastPwmRunning: bool, lastCp: RawCPState, c1Running: bool, c1Start: int,
    locked: bool, relayOn: bool, pluggedIn: bool, lastEvaluation: int)

  ghost predicate PowerAgrees(s: Snapshot, log: Log) {
    BoardOn(log) ==>
      && s.allowed && SawPowerState(log) && (s.lastCp.CpC? || s.lastCp.CpD?)
      && (!s.lastPwmRunning ==> s.c1Running && s.lastEvaluation - s.c1Start <= C1_TIMEOUT)
  }

  ghost predicate LockAgrees(s: Snapshot, log: Log) {
    && s.locked == IsLocked(log) && s.relayOn == RelayClosed(log)
    && (RelayClosed(log) ==> IsLocked(log))
  }

  /** The plug flag tells what the evaluations saw, and what was reported as long as the board reports known events. */
  ghost predicate PlugAgrees(s: Snapshot, log: Log) {
    && s.pluggedIn == PlugSeen(log)
    && (s.pluggedIn ==> IsPluggedIn(log))
    && (IsPluggedIn(log) && !s.pluggedIn ==> DisabledSincePlug(log))
    && (BoardIsKnown(log) ==> s.pluggedIn == IsPluggedIn(log))
  }

  function SnapshotOf(iec: IecStateMachine): Snapshot
    reads iec, iec.c1
  {
    Snapshot(iec.allowed, iec.lastPwmRunning, iec.lastCp, iec.c1.running, iec.c1.startTime,
             iec.locked, iec.relayOn, iec.pluggedIn, iec.trace.mon.power.now)
  }

  /** A state machine at rest: what it sent keeps every rule and tells what its fields hold. */
  lemma ValidMeaning(iec: IecStateMachine)
    requires iec.Valid()
    ensures Lawful(iec.trace.events)
    ensures PowerAgrees(SnapshotOf(iec), iec.trace.events)
    ensures LockAgrees(SnapshotOf(iec), iec.trace.events)
    ensures PlugAgrees(SnapshotOf(iec), iec.trace.events)
  {
    var log := iec.trace.events;
    assert Recall(0);
    StepsAreLawful(log);
    BoardMeaning(log);
    EvaluationMeaning(log);
    BoundMeaning(log);
    LockMeaning(log);
    PlugMeaning(log);
    SeenMeaning(log);
    LastMeaning(log);
  }

  /** Plays the inputs, with time passing as they say. */
  method Play(iec: IecStateMachine, start: int, inputs: seq<Input>) returns (now: int)
    requires iec.Valid() && iec.LastEvaluation() <= start
    modifies iec, iec.c1, iec.unlockF
    ensures iec.Valid() && iec.LastEvaluation() <= now && now == start + Elapsed(inputs)
    ensures iec.history == old(iec.history) + inputs && iec.prior == old(iec.prior)
    ensures |inputs| > 0 && inputs[|inputs| - 1].EvaluateInput? ==> iec.LastEvaluation() == now
    ensures |inputs| > 0 && inputs[|inputs| - 1].GrantInput? ==> iec.allowed == inputs[|inputs| - 1].grant
    ensures old(iec.Held()) && (forall k :: 0 <= k < |inputs| ==> IsQuiet(inputs[k])) ==>
      iec.Held() && iec.Locks() == old(iec.Locks())
  {
    now := start;
    var k := 0;
    while k < |inputs|
      invariant 0 <= k <= |inputs|
      invariant iec.Valid() && iec.LastEvaluation() <= now && now == start + Elapsed(inputs[..k])
      invariant iec.history == old(iec.history) + inputs[..k] && iec.prior == old(iec.prior)
      invariant k > 0 && inputs[k - 1].EvaluateInput? ==> iec.LastEvaluation() == now
      invariant k > 0 && inputs[k - 1].GrantInput? ==> iec.allowed == inputs[k - 1].grant
      invariant old(iec.Held()) && (forall j :: 0 <= j < k ==> IsQuiet(inputs[j])) ==>
        iec.Held() && iec.Locks() == old(iec.Locks())
    {
      assert inputs[..k + 1][..k] == inputs[..k];
      now := Later(now, inputs[k]);
      Apply(iec, inputs[k], now);
      k := k + 1;
    }
    assert inputs[..k] == inputs;
  }

  /** Every run keeps every rule, and leaves the fields in agreement with what was sent. */
  method RunIec(lockInB: bool, inputs: seq<Input>) returns (iec: IecStateMachine, log: Log, s: Snapshot)
    ensures iec.Valid() && iec.history == inputs && iec.lockInB == lockInB
    ensures log == iec.trace.events && s == SnapshotOf(iec)
    ensures Lawful(log)
    ensures PowerAgrees(s, log) && LockAgrees(s, log) && PlugAgrees(s, log)
    ensures |inputs| > 0 && inputs[|inputs| - 1].EvaluateInput? ==> s.lastEvaluation == Elapsed(inputs)
    ensures |inputs| > 0 && inputs[|inputs| - 1].GrantInput? ==> s.allowed == inputs[|inputs| - 1].grant
  {
    hide Lawful, PowerAgrees, LockAgrees, PlugAgrees;
    iec := new IecStateMachine(lockInB);
    var _ := Play(iec, 0, inputs);
    log := iec.trace.events;
    s := SnapshotOf(iec);
    ValidMeaning(iec);
  }

  /**
   After a forced unlock in B or C with the relay open, where the connector is locked in B, nothing locks
   the connector again as long as the relay stays open and the control pilot in B, C or D.
   */
  method RunForcedUnlock(lockInB: bool, inputs: seq<Input>, quiet: seq<Input>)
    returns (iec: IecStateMachine, before: Log, log: Log)
    requires forall k :: 0 <= k < |quiet| ==> IsQuiet(quiet[k])
    ensures iec.Valid() && iec.history == inputs + [ForceUnlockInput] + quiet && iec.lockInB == lockInB
    ensures before <= log == iec.trace.events
    ensures lockInB && !RelayClosed(before) && (LastRaw(before).CpB? || LastRaw(before).CpC?) ==>
      !IsLocked(log) && CountLocks(log) == CountLocks(before)
    ensures !RelayClosed(before) ==> |before| > 0 && before[|before| - 1] == UnlockSignal
  {
    hide IecStateMachine.Valid, IsLocked, RelayClosed, LastRaw, CountLocks, Elapsed;
    iec := new IecStateMachine(lockInB);
    var now := Play(iec, 0, inputs);
    before := ForceUnlock(iec);
    now := Play(iec, now, quiet);
    log := iec.trace.events;
    HeldMeaning(iec);
  }

  method ForceUnlock(iec: IecStateMachine) returns (before: Log)
    requires iec.Valid()
    modifies iec
    ensures iec.Valid() && iec.LastEvaluation() == old(iec.LastEvaluation()) && iec.prior == before == iec.trace.events
    ensures iec.history == old(iec.history) + [ForceUnlockInput]
    ensures iec.Locks() == CountLocks(before)
    ensures iec.lockInB && !RelayClosed(before) && (LastRaw(before).CpB? || LastRaw(before).CpC?) ==> iec.Held()
    ensures !RelayClosed(before) ==> |before| > 0 && before[|before| - 1] == UnlockSignal
  {
    hide IecStateMachine.Valid, IsLocked, RelayClosed, LastRaw, CountLocks;
    iec.ConnectorForceUnlock();
    iec.history := iec.history + [ForceUnlockInput];
    before := iec.trace.events;
    iec.Mark();
    HeldMeaning(iec);
  }

  lemma HeldMeaning(iec: IecStateMachine)
    requires iec.Valid()
    ensures iec.cp == LastRaw(iec.trace.events) && iec.relayOn == RelayClosed(iec.trace.events)
    ensures iec.locked == IsLocked(iec.trace.events) && iec.Locks() == CountLocks(iec.trace.events)
    ensures iec.Held() ==> !iec.locked
    ensures iec.prior <= iec.trace.events
  {
    assert Recall(0);
    RawMeaning(iec.trace.events);
    LockMeaning(iec.trace.events);
    CountMeaning(iec.trace.events);
  }

  lemma OnMeaning(iec: IecStateMachine)
    requires iec.Valid()
    ensures iec.trace.mon.power.on <==> BoardOn(iec.trace.events)
  {
    assert Recall(0);
    BoardMeaning(iec.trace.events);
  }

  lemma CountsMeaning(iec: IecStateMachine)
    requires iec.Valid()
    ensures iec.Count() ==
      PlugCount(CountSignals(iec.trace.events, CarPluggedIn), CountSignals(iec.trace.events, CarUnplugged))
    ensures iec.locked == IsLocked(iec.trace.events)
  {
    assert Recall(0);
    SignalMeaning(iec.trace.events);
    LockMeaning(iec.trace.events);
  }

  // --------------------------------------------------------- single runs

  /** The board reports a state, and it is evaluated at once. */
  function Shows(raw: RawCPState): seq<Input> {
    [RawInput(raw)] + [EvaluateInput(0)]
  }

  method Show(iec: IecStateMachine, raw: RawCPState)
    requires iec.Valid() && iec.enabled && iec.LastEvaluation() <= 0
    modifies iec, iec.c1, iec.unlockF
    ensures iec.Valid() && iec.enabled && iec.LastEvaluation() == 0 && iec.history == old(iec.history) + Shows(raw)
    ensures iec.hasVentilation == old(iec.hasVentilation) && iec.relayOn == old(iec.relayOn)
    ensures iec.cp == iec.lastCp == raw && iec.lastPwmRunning == iec.pwmRunning
    ensures raw.CpC? ==> iec.pwmRunning == old(iec.pwmRunning)
    ensures iec.pluggedIn == SeenAfter(old(iec.lastCp), old(iec.pluggedIn), raw, iec.hasVentilation)
    ensures
      var event := PlugEvent(old(iec.lastCp), old(iec.pluggedIn), raw, iec.hasVentilation);
      iec.Count() ==
        IecStateMachine.Counted(old(iec.Count()), event == Some(CarPluggedIn), event == Some(CarUnplugged))
    ensures iec.locked == (iec.relayOn || (iec.shouldLock && !iec.forceUnlocked))
    ensures raw.CpB? || raw.CpC? ==>
      && iec.shouldLock == (raw.CpC? || iec.lockInB)
      && iec.forceUnlocked == (old(iec.forceUnlocked) && (raw.CpC? || iec.lockInB))
  {
    hide IecStateMachine.Valid, IecStateMachine.Powers;
    Apply(iec, RawInput(raw), 0);
    Apply(iec, EvaluateInput(0), 0);
  }

  /** A state machine that the charger has enabled. */
  method Enabled(lockInB: bool) returns (iec: IecStateMachine)
    ensures fresh(iec) && fresh(iec.c1) && fresh(iec.unlockF) && iec.Valid() && iec.enabled && iec.lockInB == lockInB
    ensures iec.LastEvaluation() <= 0 && iec.Count() == PlugCount(0, 0) && iec.history == [EnableInput(true)]
    ensures iec.cp.CpDisabled? && iec.lastCp.CpDisabled? && !iec.pluggedIn && !iec.hasVentilation && !iec.relayOn
  {
    hide IecStateMachine.Valid;
    iec := new IecStateMachine(lockInB);
    Apply(iec, EnableInput(true), 0);
  }

  /** An unknown event of the board makes a car plug in twice without having been unplugged. */
  method UnknownEventPlugsInTwice(lockInB: bool) returns (iec: IecStateMachine, log: Log)
    ensures iec.Valid() && log == iec.trace.events
    ensures iec.history == [EnableInput(true)] + Shows(CpB) + Shows(CpDisabled) + Shows(CpB)
    ensures CountSignals(log, CarPluggedIn) == 2 && CountSignals(log, CarUnplugged) == 0
  {
    hide IecStateMachine.Valid, CountSignals;
    iec := Enabled(lockInB);
    Show(iec, CpB);
    Show(iec, CpDisabled);
    Show(iec, CpB);
    log := iec.trace.events;
    CountsMeaning(iec);
  }

  /** A car that shows state E before B is never reported as plugged in, only as unplugged. */
  method PlugThroughEIsMissed(lockInB: bool) returns (iec: IecStateMachine, log: Log)
    ensures iec.Valid() && log == iec.trace.events
    ensures iec.history == [EnableInput(true)] + Shows(CpA) + Shows(CpE) + Shows(CpB) + Shows(CpA)
    ensures CountSignals(log, CarPluggedIn) == 0 && CountSignals(log, CarUnplugged) == 1
  {
    hide IecStateMachine.Valid, CountSignals;
    iec := Enabled(lockInB);
    Show(iec, CpA);
    Show(iec, CpE);
    Show(iec, CpB);
    Show(iec, CpA);
    log := iec.trace.events;
    CountsMeaning(iec);
  }

  /** A car that shows state D where the site is not ventilated is never reported as plugged in, only as unplugged. */
  method PlugInDIsMissed(lockInB: bool) returns (iec: IecStateMachine, log: Log)
    ensures iec.Valid() && log == iec.trace.events
    ensures iec.history == [EnableInput(true)] + Shows(CpA) + Shows(CpD) + Shows(CpA)
    ensures CountSignals(log, CarPluggedIn) == 0 && CountSignals(log, CarUnplugged) == 1
  {
    hide IecStateMachine.Valid, CountSignals;
    iec := Enabled(lockInB);
    Show(iec, CpA);
    Show(iec, CpD);
    Show(iec, CpA);
    log := iec.trace.events;
    CountsMeaning(iec);
  }

  /** Where the connector is not locked in B, a forced unlock ends with the next visit to B. */
  method RelocksAfterB() returns (iec: IecStateMachine, log: Log)
    ensures iec.Valid() && !iec.lockInB && log == iec.trace.events
    ensures iec.history == [EnableInput(true)] + Shows(CpC) + [ForceUnlockInput] + Shows(CpB) + Shows(CpC)
    ensures IsLocked(log)
  {
    hide IecStateMachine.Valid, IsLocked;
    iec := Enabled(false);
    Show(iec, CpC);
    Apply(iec, ForceUnlockInput, 0);
    Show(iec, CpB);
    Show(iec, CpC);
    log := iec.trace.events;
    CountsMeaning(iec);
  }

  /**
   A grant that comes after the six seconds of C1 is lost: the evaluation that sees the PWM resume still finds
   the timer expired, switches the board off again and takes the grant back.
   */
  method LateGrantIsLost(lockInB: bool, duty: real, wait: nat) returns (iec: IecStateMachine, log: Log)
    requires IsRunningDuty(duty) && wait > C1_TIMEOUT
    ensures iec.Valid() && log == iec.trace.events && Lawful(log)
    ensures iec.history == PauseInputs(duty) +
      [GrantInput(true, FullPowerCharging)] + [PwmInput(duty)] + [EvaluateInput(wait)]
    ensures iec.cp.CpC? && iec.pwmRunning && !iec.allowed && !BoardOn(log)
  {
    hide IecStateMachine.Valid, Lawful, BoardOn, PauseInputs;
    iec := PauseInC(lockInB, duty);
    Apply(iec, GrantInput(true, FullPowerCharging), 0);
    Apply(iec, PwmInput(duty), 0);
    Apply(iec, EvaluateInput(wait), wait);
    log := iec.trace.events;
    ValidMeaning(iec);
    OnMeaning(iec);
  }

  function PauseInputs(duty: real): seq<Input> {
    [EnableInput(true)] + [PwmInput(duty)] + Shows(CpC) + [PwmOffInput] + [EvaluateInput(0)]
  }

  /** The PWM goes off while the EV is in state C. */
  method PauseInC(lockInB: bool, duty: real) returns (iec: IecStateMachine)
    requires IsRunningDuty(duty)
    ensures fresh(iec) && fresh(iec.c1) && fresh(iec.unlockF) && iec.Valid() && iec.LastEvaluation() == 0
    ensures iec.history == PauseInputs(duty)
    ensures iec.cp.CpC? && iec.c1.running && iec.c1.limit == C1_TIMEOUT && iec.c1.startTime == 0
  {
    hide IecStateMachine.Valid, IecStateMachine.Powers;
    iec := Enabled(lockInB);
    Apply(iec, PwmInput(duty), 0);
    Show(iec, CpC);
    Apply(iec, PwmOffInput, 0);
    Apply(iec, EvaluateInput(0), 0);
  }
}
