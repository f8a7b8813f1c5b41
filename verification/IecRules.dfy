/** The rules of the IEC state machine, stated about the events of a log and their order alone. */
module IecRules {
  import opened Common
  import opened Logs
  import opened IecMonitor
  import opened IecMachine

  type Log = seq<IecEvent>

  const IsBoardPower := (e: IecEvent) => e.BoardPower?
  const IsEvaluation := (e: IecEvent) => e.Evaluated?
  const IsGrantMark := (e: IecEvent) => e.Granted? || (e.BoardPower? && !e.on)

  /** The last contactor command to the board is "on". */
  ghost predicate BoardOn(log: Log) {
    var k := Last(log, IsBoardPower);
    k >= 0 && log[k].on
  }

  /** The last evaluation saw state C, or D with ventilation. */
  ghost predicate SawPowerState(log: Log) {
    var k := Last(log, IsEvaluation);
    k >= 0 && PowerState(log[k].cp, log[k].ventilation)
  }

  ghost predicate SawPwm(log: Log) {
    var k := Last(log, IsEvaluation);
    k >= 0 && log[k].pwm
  }

  /** The charger's grant, if it gave one since the last "off". */
  ghost function GrantSinceOff(log: Log): Option<PowerReason> {
    var k := Last(log, IsGrantMark);
    if k >= 0 && log[k].Granted? && log[k].grant then Some(log[k].grantReason) else None
  }

  lemma {:induction false} BoardMeaning(log: Log)
    ensures Observe(log).power.on == BoardOn(log)
    decreases |log|
  {
    hide NextLock, NextPlug;
    if log != [] {
      BoardMeaning(log[..|log| - 1]);
    }
  }

  lemma {:induction false} EvaluationMeaning(log: Log)
    ensures Observe(log).power.powerState == SawPowerState(log)
    ensures Observe(log).power.pwm == SawPwm(log)
    decreases |log|
  {
    hide NextLock, NextPlug;
    if log != [] {
      EvaluationMeaning(log[..|log| - 1]);
    }
  }

  lemma {:induction false} GrantMeaning(log: Log)
    ensures Observe(log).power.grant == GrantSinceOff(log)
    decreases |log|
  {
    hide NextLock, NextPlug;
    if log != [] {
      GrantMeaning(log[..|log| - 1]);
    }
  }

  // ----------------------------------------------------- power without PWM

  ghost predicate TimeAdvances(log: Log) {
    forall i, j :: 0 <= i < j < |log| && log[i].Evaluated? && log[j].Evaluated? ==> log[i].now <= log[j].now
  }

  /** No evaluation from the i-th event on saw the PWM running. */
  ghost predicate NoPwmSince(log: Log, i: nat) {
    forall k :: i <= k < |log| && log[k].Evaluated? ==> !log[k].pwm
  }

  /**
   The board stays powered without PWM for at most six seconds, as seen by the evaluations (Table A.6, sequence
   10.2).
   */
  ghost predicate PowerWithoutPwmIsBounded(log: Log) {
    BoardOn(log) ==>
      forall i, j :: 0 <= i <= j < |log| && log[i].Evaluated? && log[j].Evaluated? && NoPwmSince(log, i) ==>
        log[j].now - log[i].now <= C1_TIMEOUT
  }

  /** The monitor's times in terms of the log. */
  lemma {:induction false} TimeMeaning(log: Log)
    requires Observe(log).power.timeOk
    ensures TimeAdvances(log)
    ensures forall i :: 0 <= i < |log| && log[i].Evaluated? ==> log[i].now <= Observe(log).power.now
    decreases |log|
  {
    hide NextLock, NextPlug;
    if log != [] {
      var prefix := log[..|log| - 1];
      TimeMeaning(prefix);
      forall j | 0 <= j < |prefix| ensures log[j] == prefix[j] {}
    }
  }

  lemma {:induction false} OffSinceMeaning(log: Log, i: nat)
    requires Observe(log).power.timeOk
    requires i < |log| && log[i].Evaluated? && NoPwmSince(log, i)
    ensures Observe(log).power.offSince.Some? && Observe(log).power.offSince.value <= log[i].now
    decreases |log|
  {
    var prefix := log[..|log| - 1];
    if i < |prefix| {
      assert log[i] == prefix[i];
      forall k | i <= k < |prefix| && prefix[k].Evaluated? ensures !prefix[k].pwm {
        assert log[k] == prefix[k];
      }
      OffSinceMeaning(prefix, i);
    } else {
      OffSinceIsPast(prefix);
    }
  }

  lemma {:induction false} OffSinceIsPast(log: Log)
    requires Observe(log).power.timeOk
    ensures Observe(log).power.offSince.Some? ==> Observe(log).power.offSince.value <= Observe(log).power.now
    decreases |log|
  {
    if log != [] {
      OffSinceIsPast(log[..|log| - 1]);
    }
  }

  lemma BoundMeaning(log: Log)
    requires Observe(log).power.timeOk
    requires Observe(log).power.on && Observe(log).power.offSince.Some? ==>
      Observe(log).power.now - Observe(log).power.offSince.value <= C1_TIMEOUT
    ensures PowerWithoutPwmIsBounded(log)
  {
    BoardMeaning(log);
    TimeMeaning(log);
    if BoardOn(log) {
      forall i, j | 0 <= i <= j < |log| && log[i].Evaluated? && log[j].Evaluated? && NoPwmSince(log, i)
        ensures log[j].now - log[i].now <= C1_TIMEOUT
      {
        OffSinceMeaning(log, i);
      }
    }
  }

  // ------------------------------------------------------------------- lock

  const IsLockMark := (e: IecEvent) => e.LockSignal? || e.UnlockSignal?
  const IsRelayMark := (e: IecEvent) => e.RelayReported?

  ghost predicate IsLocked(log: Log) {
    var k := Last(log, IsLockMark);
    k >= 0 && log[k].LockSignal?
  }

  /** The relay is confirmed closed. */
  ghost predicate RelayClosed(log: Log) {
    var k := Last(log, IsRelayMark);
    k >= 0 && log[k].closed
  }

  lemma {:induction false} LockMeaning(log: Log)
    ensures Observe(log).lock.locked == IsLocked(log)
    ensures Observe(log).lock.relay == RelayClosed(log)
    decreases |log|
  {
    hide NextPower, NextPlug;
    if log != [] {
      LockMeaning(log[..|log| - 1]);
    }
  }

  /** How often the connector was locked. */
  ghost function CountLocks(log: Log): nat {
    if log == [] then 0 else CountLocks(log[..|log| - 1]) + if log[|log| - 1].LockSignal? then 1 else 0
  }

  lemma {:induction false} CountMeaning(log: Log)
    ensures Observe(log).lock.locks == CountLocks(log)
    decreases |log|
  {
    hide NextPower, NextPlug;
    if log != [] {
      CountMeaning(log[..|log| - 1]);
    }
  }

  // ------------------------------------------------------------------- plug

  const IsPlugMark := (e: IecEvent) => e.Signal? && (e.event.CarPluggedIn? || e.event.CarUnplugged?)

  const IsRawMark := (e: IecEvent) => e.RawReported?

  /** The control-pilot state that the board reported last. */
  ghost function LastRaw(log: Log): RawCPState {
    var k := Last(log, IsRawMark);
    if k < 0 then CpDisabled else log[k].raw
  }

  lemma {:induction false} RawMeaning(log: Log)
    ensures Observe(log).plug.raw == LastRaw(log)
    decreases |log|
  {
    hide NextPower, NextLock;
    if log != [] {
      RawMeaning(log[..|log| - 1]);
    }
  }

  /** The board reported nothing but known events. */
  ghost predicate BoardIsKnown(log: Log) {
    forall j :: 0 <= j < |log| && log[j].RawReported? ==> !log[j].raw.CpDisabled?
  }

  /** The last event about the plug is that it was plugged in. */
  ghost predicate IsPluggedIn(log: Log) {
    var k := Last(log, IsPlugMark);
    k >= 0 && log[k].event.CarPluggedIn?
  }

  lemma {:induction false} PlugMeaning(log: Log)
    ensures Observe(log).plug.known == BoardIsKnown(log)
    ensures Observe(log).plug.plugged == IsPluggedIn(log)
    decreases |log|
  {
    hide NextPower, NextLock;
    if log != [] {
      PlugMeaning(log[..|log| - 1]);
    }
  }

  /** How often an event was signalled. */
  ghost function CountSignals(log: Log, e: CPEvent): nat {
    if log == [] then 0 else CountSignals(log[..|log| - 1], e) + if log[|log| - 1] == Signal(e) then 1 else 0
  }

  lemma {:induction false} SignalMeaning(log: Log)
    ensures Observe(log).plug.count == PlugCount(CountSignals(log, CarPluggedIn), CountSignals(log, CarUnplugged))
    decreases |log|
  {
    hide NextPower, NextLock;
    if log != [] {
      SignalMeaning(log[..|log| - 1]);
    }
  }

  /** The state that the last evaluation saw. */
  ghost function LastEvaluated(log: Log): RawCPState {
    var k := Last(log, IsEvaluation);
    if k < 0 then CpDisabled else log[k].cp
  }

  /** An evaluation sees the plug directly after one in A, F or Disabled, or as the first of all. */
  ghost predicate PlugShows(log: Log, j: nat)
    requires j < |log|
  {
    && log[j].Evaluated? && ShowsPlug(log[j].cp, log[j].ventilation)
    && (var last := LastEvaluated(log[..j]); last.CpA? || last.CpF? || last.CpDisabled?)
  }

  /** ... and no evaluation saw A since. */
  ghost predicate PlugSeen(log: Log) {
    exists j :: 0 <= j < |log| && PlugShows(log, j) && NoASince(log, j)
  }

  ghost predicate NoASince(log: Log, j: nat) {
    forall k :: j < k < |log| && log[k].Evaluated? ==> !log[k].cp.CpA?
  }

  const IsPlugOrEvaluation := (e: IecEvent) => e.Evaluated? || IsPlugMark(e)

  /** The event about the plug that the last evaluation calls for and that was not sent yet. */
  ghost function OwedPlug(log: Log): Option<CPEvent> {
    var k := Last(log, IsPlugOrEvaluation);
    if k >= 0 && log[k].Evaluated?
    then PlugEvent(LastEvaluated(log[..k]), PlugSeen(log[..k]), log[k].cp, log[k].ventilation)
    else None
  }

  const IsPlugOrDisabled := (e: IecEvent) => (e.Evaluated? && e.cp.CpDisabled?) || IsPlugMark(e)

  /** An evaluation saw Disabled since the last event about the plug. */
  ghost predicate DisabledSincePlug(log: Log) {
    var k := Last(log, IsPlugOrDisabled);
    k >= 0 && log[k].Evaluated?
  }

  lemma {:induction false} LastMeaning(log: Log)
    ensures Observe(log).plug.last == LastEvaluated(log)
    ensures Observe(log).plug.disabledSince == DisabledSincePlug(log)
    decreases |log|
  {
    hide NextPower, NextLock;
    if log != [] {
      LastMeaning(log[..|log| - 1]);
    }
  }

  /** The car counts as plugged in exactly if its plug was seen since the last A. */
  lemma {:induction false} SeenMeaning(log: Log)
    ensures Observe(log).plug.seen == PlugSeen(log)
    ensures LastEvaluated(log).CpA? ==> !PlugSeen(log)
    decreases |log|
  {
    hide NextPower, NextLock;
    if log != [] {
      var n := |log| - 1;
      SeenMeaning(log[..n]);
      LastMeaning(log[..n]);
      SeenStep(log);
    }
  }

  lemma SeenStep(log: Log)
    requires log != [] && (LastEvaluated(log[..|log| - 1]).CpA? ==> !PlugSeen(log[..|log| - 1]))
    ensures
      var n := |log| - 1;
      var before := log[..n];
      PlugSeen(log) == if log[n].Evaluated?
        then SeenAfter(LastEvaluated(before), PlugSeen(before), log[n].cp, log[n].ventilation) else PlugSeen(before)
  {
    hide PlugSeen;
    if PlugSeen(log[..|log| - 1]) {
      SeenStays(log);
    } else {
      SeenNow(log);
    }
  }

  lemma SamePlugShows(log: Log, j: nat)
    requires j + 1 < |log|
    ensures PlugShows(log, j) == PlugShows(log[..|log| - 1], j)
  {
    assert log[..j] == log[..|log| - 1][..j];
  }

  /** What was seen stays seen until an evaluation in A. */
  lemma SeenStays(log: Log)
    requires log != [] && PlugSeen(log[..|log| - 1])
    ensures PlugSeen(log) <==> !(log[|log| - 1].Evaluated? && log[|log| - 1].cp.CpA?)
  {
    hide LastEvaluated, ShowsPlug;
    var n := |log| - 1;
    var j :| 0 <= j < n && PlugShows(log[..n], j) && NoASince(log[..n], j);
    SamePlugShows(log, j);
    if log[n].Evaluated? && log[n].cp.CpA? {
      ANeverShows(log[n].ventilation);
    } else {
      assert PlugShows(log, j) && NoASince(log, j);
    }
  }

  lemma ANeverShows(ventilation: bool)
    ensures !ShowsPlug(CpA, ventilation)
  {
  }

  /** What was not seen is seen only by an evaluation that sees it. */
  lemma SeenNow(log: Log)
    requires log != [] && !PlugSeen(log[..|log| - 1])
    ensures PlugSeen(log) <==> PlugShows(log, |log| - 1)
  {
    hide LastEvaluated, ShowsPlug;
    var n := |log| - 1;
    if PlugShows(log, n) {
      assert NoASince(log, n);
    } else if PlugSeen(log) {
      var j :| 0 <= j < |log| && PlugShows(log, j) && NoASince(log, j);
      SamePlugShows(log, j);
    }
  }

  lemma {:induction false} OwedMeaning(log: Log)
    ensures Observe(log).plug.owed == OwedPlug(log)
    decreases |log|
  {
    hide NextPower, NextLock, PlugEvent, SeenAfter, PlugSeen, OwedPlug, LastEvaluated;
    if log == [] {
      NothingOwed();
    } else {
      var before := log[..|log| - 1];
      OwedMeaning(before);
      LastMeaning(before);
      SeenMeaning(before);
      OwedStep(log);
    }
  }

  lemma NothingOwed()
    ensures OwedPlug([]) == None
  {
  }

  lemma OwedStep(log: Log)
    requires log != []
    ensures
      var n := |log| - 1;
      var before := log[..n];
      OwedPlug(log) ==
        if log[n].Evaluated? then PlugEvent(LastEvaluated(before), PlugSeen(before), log[n].cp, log[n].ventilation)
        else if IsPlugMark(log[n]) then None
        else OwedPlug(before)
  {
    hide PlugEvent, PlugSeen, LastEvaluated;
    var n := |log| - 1;
    var before := log[..n];
    if !IsPlugOrEvaluation(log[n]) {
      var k := Last(before, IsPlugOrEvaluation);
      assert k == Last(log, IsPlugOrEvaluation);
      assert k >= 0 ==> log[..k] == before[..k] && log[k] == before[k];
    }
  }

  // ---------------------------------------------------------------- the rules

  /** Whether the state machine may send an event, given everything that happened before. */
  ghost predicate StepIsLawful(before: Log, e: IecEvent) {
    match e
    // every "on" comes from an evaluation in C or D with the PWM running, and uses a grant given after the last "off"
    case BoardPower(on, reason) =>
      on ==> SawPowerState(before) && SawPwm(before) && GrantSinceOff(before) == Some(reason)
    // the connector is never unlocked while the relay is closed, and never locked twice
    case UnlockSignal => !RelayClosed(before)
    case LockSignal => !IsLocked(before)
    // events about the plug are exactly those that the evaluations call for; two CarPluggedIn have a CarUnplugged
    // or an evaluation in Disabled between them, and a CarUnplugged as long as the board reports known events
    case Signal(s) =>
      && (s.CarPluggedIn? ==>
            && OwedPlug(before) == Some(CarPluggedIn)
            && (IsPluggedIn(before) ==> DisabledSincePlug(before) && !BoardIsKnown(before)))
      && (s.CarUnplugged? ==> OwedPlug(before) == Some(CarUnplugged))
    // no evaluation comes before the last one's event about the plug was sent; as long as the board reports known
    // events, the last such event tells what the evaluations saw
    case Evaluated(_, _, _, _) =>
      OwedPlug(before) == None && (BoardIsKnown(before) ==> (IsPluggedIn(before) <==> PlugSeen(before)))
    case _ => true
  }

  /** Every event was lawful when it was sent, and power without PWM is bounded. */
  ghost predicate Lawful(log: Log) {
    (forall j :: 0 <= j < |log| ==> StepIsLawful(log[..j], log[j])) && PowerWithoutPwmIsBounded(log)
  }

  lemma PowerStep(before: Log, e: IecEvent)
    requires e.BoardPower? && NextPower(Observe(before).power, e).powerOk
    ensures StepIsLawful(before, e)
  {
    EvaluationMeaning(before);
    GrantMeaning(before);
  }

  lemma LockStep(before: Log, e: IecEvent)
    requires IsLockMark(e) && NextLock(Observe(before).lock, e).lockOk
    ensures StepIsLawful(before, e)
  {
    LockMeaning(before);
  }

  lemma PlugStep(before: Log, e: IecEvent)
    requires IsPlugOrEvaluation(e) && NextPlug(Observe(before).plug, e).plugOk
    ensures StepIsLawful(before, e)
  {
    PlugMeaning(before);
    OwedMeaning(before);
    SeenMeaning(before);
    LastMeaning(before);
  }

  /** No flag of the monitor can hold after a step that breaks its rule. */
  lemma StepMeaning(before: Log, e: IecEvent)
    requires KeptSoFar(Next(Observe(before), e))
    ensures StepIsLawful(before, e)
  {
    if e.BoardPower? {
      PowerStep(before, e);
    } else if IsLockMark(e) {
      LockStep(before, e);
    } else if IsPlugOrEvaluation(e) {
      PlugStep(before, e);
    }
  }

  lemma {:induction false} StepsAreLawful(log: Log)
    requires KeptSoFar(Observe(log))
    ensures forall j :: 0 <= j < |log| ==> StepIsLawful(log[..j], log[j])
    decreases |log|
  {
    hide StepIsLawful;
    if log != [] {
      var prefix := log[..|log| - 1];
      StepsAreLawful(prefix);
      StepMeaning(prefix, log[|log| - 1]);
      forall j | 0 <= j < |log| ensures StepIsLawful(log[..j], log[j]) {
        if j < |prefix| {
          assert log[..j] == prefix[..j] && log[j] == prefix[j];
        }
      }
    }
  }

  /**
   As long as the board reports known events, a CarUnplugged is sent for a car that was never reported exactly if
   no evaluation since the last A saw its plug directly after A, F or the start: the way through E, or through D
   without ventilation, is not seen.
   */
  lemma UnplugWithoutPlug(log: Log, j: nat, k: nat)
    requires Lawful(log) && j < |log| && log[j] == Signal(CarUnplugged) && BoardIsKnown(log[..j])
    requires k == Last(log[..j], IsEvaluation)
    ensures !IsPluggedIn(log[..j]) <==> !PlugSeen(log[..k])
  {
    assert StepIsLawful(log[..j], log[j]);
    assert k == Last(log[..j], IsPlugOrEvaluation);
    assert log[..j][..k] == log[..k];
    assert StepIsLawful(log[..k], log[k]);
    SamePlug(log[..j], k);
  }

  lemma {:induction false} SamePlug(log: Log, k: nat)
    requires k < |log| && k == Last(log, IsPlugOrEvaluation) && log[k].Evaluated?
    ensures IsPluggedIn(log) == IsPluggedIn(log[..k])
    decreases |log|
  {
    var n := |log| - 1;
    assert IsPluggedIn(log) == IsPluggedIn(log[..n]);
    if k < n {
      SamePlug(log[..n], k);
      assert log[..n][..k] == log[..k];
    }
  }
}
