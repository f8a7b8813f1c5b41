/** Classifies the active errors of all sources and keeps the Inoperative error up to date (ErrorHandling.cpp). */
module ErrorHandlers {
  import opened Common
  import opened EventQueues

  datatype ErrorSource = Evse | Bsp | ConnectorLock | AcRcd | Imd | PowerSupply | PowerMeter | OverVoltageMonitor

  /** Error types that the code names, and all others. */
  datatype ErrorType =
    | Inoperative
    | MREC3HighTemperature
    | MREC18CableOverTempDerate
    | VendorWarning
    | OtherType(name: string)

  datatype Severity = Low | Medium | High

  datatype Error = Error(kind: ErrorType, subType: string, severity: Severity)

  type Active = map<ErrorSource, seq<Error>>

  const SOURCES := [Evse, Bsp, ConnectorLock, AcRcd, Imd, PowerSupply, PowerMeter, OverVoltageMonitor]

  /** Errors of a source that do not stop charging. */
  function Ignored(s: ErrorSource): set<ErrorType> {
    match s
    case Evse => {Inoperative}
    case Bsp => {MREC3HighTemperature, MREC18CableOverTempDerate, VendorWarning}
    case PowerMeter => {}
    case _ => {VendorWarning}
  }

  predicate IsFatal(s: ErrorSource, e: Error) {
    e.kind !in Ignored(s)
  }

  /** Some connected source has an active error that stops charging. */
  ghost predicate Prevented(active: Active) {
    exists s, e :: s in active && e in active[s] && IsFatal(s, e)
  }

  predicate IsInoperative(e: Error) {
    e.kind == Inoperative && e.subType == ""
  }

  ghost predicate HasInoperative(active: Active)
    requires Evse in active
  {
    exists e :: e in active[Evse] && IsInoperative(e)
  }

  /** No errors but those of the over-voltage monitor, which process_error does not count. */
  ghost predicate ClearButOverVoltage(active: Active) {
    forall s :: s in active && s != OverVoltageMonitor ==> active[s] == []
  }

  ghost predicate AllClear(active: Active) {
    forall s :: s in active ==> active[s] == []
  }

  /** Some active error that stops charging has high severity, or has not. */
  ghost predicate HasFatal(active: Active, high: bool) {
    exists s, e :: s in active && e in active[s] && IsFatal(s, e) && (e.severity == High <==> high)
  }

  function WithoutError(errors: seq<Error>, kind: ErrorType, subType: string): (r: seq<Error>)
    ensures forall e :: e in r <==> e in errors && !(e.kind == kind && e.subType == subType)
  {
    if errors == [] then []
    else
      var n := |errors| - 1;
      var rest := WithoutError(errors[..n], kind, subType);
      if errors[n].kind == kind && errors[n].subType == subType then rest else rest + [errors[n]]
  }

  predicate IsActive(errors: seq<Error>, kind: ErrorType, subType: string) {
    exists e :: e in errors && e.kind == kind && e.subType == subType
  }

  /** All errors but Inoperative, which only reports what the others amount to. */
  function Others(active: Active): Active
    requires Evse in active
  {
    active[Evse := WithoutError(active[Evse], Inoperative, "")]
  }

  // ------------------------------------------------------------------ the cause

  /** The first error that stops charging, if any. */
  function FirstFatal(s: ErrorSource, errors: seq<Error>): Option<Error> {
    if errors == [] then None
    else
      var n := |errors| - 1;
      var before := FirstFatal(s, errors[..n]);
      if before.Some? then before else if IsFatal(s, errors[n]) then Some(errors[n]) else None
  }

  /** No error before this one stops charging. */
  ghost predicate IsFirstFatal(s: ErrorSource, errors: seq<Error>, e: Error) {
    && IsFatal(s, e)
    && exists k :: 0 <= k < |errors| && errors[k] == e && forall j :: 0 <= j < k ==> !IsFatal(s, errors[j])
  }

  lemma {:induction false} FirstFatalMeaning(s: ErrorSource, errors: seq<Error>)
    ensures FirstFatal(s, errors).None? <==> forall e :: e in errors ==> !IsFatal(s, e)
    ensures FirstFatal(s, errors).Some? ==> IsFirstFatal(s, errors, FirstFatal(s, errors).value)
    decreases |errors|
  {
    if errors != [] {
      var n := |errors| - 1;
      FirstFatalMeaning(s, errors[..n]);
      assert errors == errors[..n] + [errors[n]];
    }
  }

  /** The first error that stops charging of the first source that has one, from the k-th source on. */
  function CauseFrom(active: Active, k: nat): Option<Error>
    decreases |SOURCES| - k
  {
    if k >= |SOURCES| then None
    else if SOURCES[k] in active && FirstFatal(SOURCES[k], active[SOURCES[k]]).Some?
    then FirstFatal(SOURCES[k], active[SOURCES[k]])
    else CauseFrom(active, k + 1)
  }

  function Cause(active: Active): Option<Error> {
    CauseFrom(active, 0)
  }

  lemma {:induction false} CauseFromMeaning(active: Active, k: nat)
    requires k <= |SOURCES|
    ensures CauseFrom(active, k).None? ==> forall j, e ::
      k <= j < |SOURCES| && SOURCES[j] in active && e in active[SOURCES[j]] ==> !IsFatal(SOURCES[j], e)
    ensures CauseFrom(active, k).Some? ==> exists j ::
      && k <= j < |SOURCES| && SOURCES[j] in active
      && IsFirstFatal(SOURCES[j], active[SOURCES[j]], CauseFrom(active, k).value)
      && forall i, e :: k <= i < j && SOURCES[i] in active && e in active[SOURCES[i]] ==> !IsFatal(SOURCES[i], e)
    decreases |SOURCES| - k
  {
    if k < |SOURCES| {
      if SOURCES[k] in active {
        FirstFatalMeaning(SOURCES[k], active[SOURCES[k]]);
      }
      var here := if SOURCES[k] in active then FirstFatal(SOURCES[k], active[SOURCES[k]]) else None;
      if here.Some? {
        assert IsFirstFatal(SOURCES[k], active[SOURCES[k]], here.value);
      } else {
        CauseFromMeaning(active, k + 1);
        if CauseFrom(active, k + 1).Some? {
          var j :| && k + 1 <= j < |SOURCES| && SOURCES[j] in active
                   && IsFirstFatal(SOURCES[j], active[SOURCES[j]], CauseFrom(active, k + 1).value)
                   && forall i, e :: k + 1 <= i < j && SOURCES[i] in active && e in active[SOURCES[i]] ==>
                        !IsFatal(SOURCES[i], e);
          assert forall i, e :: k <= i < j && SOURCES[i] in active && e in active[SOURCES[i]] ==>
            !IsFatal(SOURCES[i], e);
        }
      }
    }
  }

  /** There is a cause exactly if some error stops charging, and it is one that does. */
  lemma CauseMeaning(active: Active)
    ensures Cause(active).Some? <==> Prevented(active)
    ensures Cause(active).Some? ==> HasFatal(active, Cause(active).value.severity == High)
  {
    CauseFromMeaning(active, 0);
    if Cause(active).None? {
      forall s, e | s in active && e in active[s] ensures !IsFatal(s, e) {
        AllSources(s);
        var j :| 0 <= j < |SOURCES| && SOURCES[j] == s;
      }
    }
  }

  lemma AllSources(s: ErrorSource)
    ensures s in SOURCES
  {
    assert SOURCES[0] == Evse && SOURCES[1] == Bsp && SOURCES[2] == ConnectorLock && SOURCES[3] == AcRcd;
    assert SOURCES[4] == Imd && SOURCES[5] == PowerSupply && SOURCES[6] == PowerMeter &&
      SOURCES[7] == OverVoltageMonitor;
  }

  // ---------------------------------------------------------- Inoperative is neutral

  lemma {:induction false} FirstFatalSkips(errors: seq<Error>)
    ensures FirstFatal(Evse, WithoutError(errors, Inoperative, "")) == FirstFatal(Evse, errors)
    decreases |errors|
  {
    if errors != [] {
      var n := |errors| - 1;
      FirstFatalSkips(errors[..n]);
      var rest := WithoutError(errors[..n], Inoperative, "");
      if !IsInoperative(errors[n]) {
        assert (rest + [errors[n]])[..|rest|] == rest;
      }
    }
  }

  lemma {:induction false} CauseFromSkips(active: Active, k: nat)
    requires Evse in active
    ensures CauseFrom(Others(active), k) == CauseFrom(active, k)
    decreases |SOURCES| - k
  {
    hide FirstFatal, WithoutError;
    if k < |SOURCES| {
      var s := SOURCES[k];
      assert s in active && s != Evse ==> Others(active)[s] == active[s];
      FirstFatalSkips(active[Evse]);
      CauseFromSkips(active, k + 1);
    }
  }

  /** Inoperative itself stops nothing. */
  lemma InoperativeIsNeutral(active: Active)
    requires Evse in active
    ensures Cause(Others(active)) == Cause(active)
    ensures Prevented(Others(active)) <==> Prevented(active)
  {
    CauseFromSkips(active, 0);
    CauseMeaning(active);
    CauseMeaning(Others(active));
  }

  lemma WithoutLast(errors: seq<Error>, e: Error, kind: ErrorType, subType: string)
    ensures WithoutError(errors + [e], kind, subType) ==
      if e.kind == kind && e.subType == subType then WithoutError(errors, kind, subType)
      else WithoutError(errors, kind, subType) + [e]
  {
    assert (errors + [e])[..|errors|] == errors;
  }

  lemma {:induction false} WithoutBoth(errors: seq<Error>, kind: ErrorType, subType: string)
    ensures WithoutError(WithoutError(errors, kind, subType), Inoperative, "") ==
            WithoutError(WithoutError(errors, Inoperative, ""), kind, subType)
    decreases |errors|
  {
    if errors != [] {
      var n := |errors| - 1;
      WithoutBoth(errors[..n], kind, subType);
      WithoutLast(WithoutError(errors[..n], kind, subType), errors[n], Inoperative, "");
      WithoutLast(WithoutError(errors[..n], Inoperative, ""), errors[n], kind, subType);
    }
  }

  /** An error of the EvseManager is raised, unless it is active already. */
  function WithError(active: Active, e: Error): Active
    requires Evse in active
  {
    if IsActive(active[Evse], e.kind, e.subType) then active else active[Evse := active[Evse] + [e]]
  }

  /** An error of the EvseManager is cleared. */
  function Dropped(active: Active, kind: ErrorType, subType: string): Active
    requires Evse in active
  {
    active[Evse := WithoutError(active[Evse], kind, subType)]
  }

  lemma AddMeaning(active: Active, e: Error)
    requires Evse in active && e.kind != Inoperative
    ensures Others(WithError(active, e)) == WithError(Others(active), e)
    ensures HasInoperative(WithError(active, e)) <==> HasInoperative(active)
  {
    hide WithoutError;
    WithoutLast(active[Evse], e, Inoperative, "");
    OthersStay(active, e.kind, e.subType);
    if !IsActive(active[Evse], e.kind, e.subType) {
      assert forall x :: x in active[Evse] + [e] <==> x in active[Evse] || x == e;
    }
  }

  lemma DropMeaning(active: Active, kind: ErrorType, subType: string)
    requires Evse in active && kind != Inoperative
    ensures Others(Dropped(active, kind, subType)) == Dropped(Others(active), kind, subType)
    ensures HasInoperative(Dropped(active, kind, subType)) <==> HasInoperative(active)
    ensures !IsActive(Dropped(active, kind, subType)[Evse], kind, subType)
  {
    hide WithoutError;
    WithoutBoth(active[Evse], kind, subType);
  }

  lemma ForeignMeaning(active: Active, source: ErrorSource, errors: seq<Error>)
    requires Evse in active && source != Evse
    ensures Others(active[source := errors]) == Others(active)[source := errors]
    ensures HasInoperative(active[source := errors]) <==> HasInoperative(active)
  {
    hide WithoutError;
  }

  /** Inoperative is not among the errors that come and go; dropping what is not there changes nothing. */
  lemma OthersStay(active: Active, kind: ErrorType, subType: string)
    requires Evse in active && kind != Inoperative
    ensures IsActive(Others(active)[Evse], kind, subType) <==> IsActive(active[Evse], kind, subType)
    ensures !IsActive(active[Evse], kind, subType) ==> Dropped(Others(active), kind, subType) == Others(active)
  {
    hide WithoutError;
    NothingLeft(Others(active)[Evse], kind, subType);
  }

  /** Every error of the EvseManager stops charging. */
  lemma OwnErrorIsFatal(active: Active, e: Error)
    requires Evse in active && e.kind != Inoperative
    ensures Prevented(WithError(active, e)) && IsActive(WithError(active, e)[Evse], e.kind, e.subType)
  {
    var after := WithError(active, e);
    if IsActive(active[Evse], e.kind, e.subType) {
      var x :| x in active[Evse] && x.kind == e.kind && x.subType == e.subType;
      assert IsFatal(Evse, x);
    } else {
      assert after[Evse][|active[Evse]|] == e;
      assert IsFatal(Evse, e);
    }
  }

  // --------------------------------------------------------------- the pipeline

  /** How the charger is to shut down for an error of this severity. */
  function ShutdownFor(severity: Severity): ErrorHandlingEvent {
    if severity == High then ForceEmergencyShutdown else ForceErrorShutdown
  }

  /** The shutdown type that Inoperative stands for, given the error that it was raised for. */
  function TypeFor(cause: Option<Error>): ShutdownType {
    if cause.None? then NoShutdown else if cause.value.severity == High then EmergencyShutdown else ErrorShutdown
  }

  /** What the error handler knows: the errors, and the one that Inoperative was raised for. */
  datatype Pipeline = Pipeline(errors: Active, cause: Option<Error>)

  /**
   The errors are processed: Inoperative is raised for the present cause, kept while there is any cause, else
   cleared.
   */
  function Processed(p: Pipeline): Pipeline {
    p.(cause := if Cause(p.errors).Some? && p.cause.Some? then p.cause else Cause(p.errors))
  }

  function Raised(p: Pipeline, e: Error): Pipeline
    requires Evse in p.errors
  {
    Processed(p.(errors := WithError(p.errors, e)))
  }

  function Cleared(p: Pipeline, kind: ErrorType, subType: string, always: bool): Pipeline
    requires Evse in p.errors
  {
    if always || IsActive(p.errors[Evse], kind, subType)
    then Processed(p.(errors := Dropped(p.errors, kind, subType)))
    else p
  }

  function Replaced(p: Pipeline, source: ErrorSource, errors: seq<Error>): Pipeline {
    p.(errors := p.errors[source := errors])
  }

  /** What a change of Inoperative sends to the charger. */
  function Signals(before: Option<Error>, after: Option<Error>): seq<ErrorHandlingEvent> {
    if before.None? && after.Some? then [ShutdownFor(after.value.severity)]
    else if before.Some? && after.None? then [AllErrorsPreventingChargingCleared]
    else []
  }

  class ErrorHandling {
    var active: Active // errors of the connected sources
    const queue: EventQueue<ErrorHandlingEvent> // signal_error and signal_all_errors_cleared both end here
    ghost var cause: Option<Error> // the error that Inoperative was raised for

    /** The events on their way bring any charger to the shutdown type that Inoperative stands for. */
    ghost predicate Valid()
      reads this, queue
    {
      && Evse in active && Bsp in active
      && queue.Valid()
      && (HasInoperative(active) <==> cause.Some?)
      && AppliedAll(NoShutdown, queue.pushed) == TypeFor(cause)
    }

    ghost function Now(): Pipeline
      requires Evse in active
      reads this
    {
      Pipeline(Others(active), cause)
    }

    constructor (connected: set<ErrorSource>)
      requires Evse in connected && Bsp in connected
      ensures Valid() && fresh(queue) && queue.pushed == [] && queue.taken == []
      ensures Now() == Pipeline(NoErrors(connected), None) && active == NoErrors(connected)
    {
      active := NoErrors(connected);
      queue := new EventQueue();
      cause := None;
    }

    /** Asks the sources one after the other. */
    method ErrorsPreventCharging() returns (fatal: Option<Error>)
      ensures fatal == Cause(active)
      ensures fatal.Some? <==> Prevented(active)
    {
      CauseMeaning(active);
      fatal := None;
      var k := 0;
      while k < |SOURCES|
        invariant 0 <= k <= |SOURCES| && fatal.None?
        invariant Cause(active) == CauseFrom(active, k)
      {
        if SOURCES[k] in active {
          fatal := FindFatal(SOURCES[k], active[SOURCES[k]]);
          if fatal.Some? {
            return;
          }
        }
        k := k + 1;
      }
    }

    static method FindFatal(s: ErrorSource, errors: seq<Error>) returns (fatal: Option<Error>)
      ensures fatal == FirstFatal(s, errors)
    {
      var k := 0;
      while k < |errors|
        invariant 0 <= k <= |errors|
        invariant FirstFatal(s, errors[..k]) == None
      {
        assert errors[..k + 1][..k] == errors[..k];
        if IsFatal(s, errors[k]) {
          FirstFatalStands(s, errors, k + 1);
          return Some(errors[k]);
        }
        k := k + 1;
      }
      assert errors[..k] == errors;
      return None;
    }

    /** Raises Inoperative, unless it is active already; the severity of the cause decides how to shut down. */
    method RaiseInoperativeError(causedBy: Error)
      requires Valid()
      modifies this, queue
      ensures Valid() && HasInoperative(active)
      ensures Now() == Pipeline(old(Others(active)), if old(cause).Some? then old(cause) else Some(causedBy))
      ensures queue.pushed == old(queue.pushed) + Signals(old(cause), cause) && queue.taken == old(queue.taken)
    {
      if IsActive(active[Evse], Inoperative, "") {
        return;
      }
      AddInoperative();
      cause := Some(causedBy);
      if causedBy.severity == High {
        Signal(ForceEmergencyShutdown);
      } else {
        Signal(ForceErrorShutdown);
      }
    }

    method AddInoperative()
      requires Evse in active
      modifies `active
      ensures active == old(active)[Evse := old(active)[Evse] + [Error(Inoperative, "", High)]]
      ensures HasInoperative(active) && Others(active) == old(Others(active))
    {
      WithoutLast(active[Evse], Error(Inoperative, "", High), Inoperative, "");
      active := active[Evse := active[Evse] + [Error(Inoperative, "", High)]];
      assert IsInoperative(active[Evse][|active[Evse]| - 1]);
    }

    /** Clears Inoperative if it is active. */
    method ClearInoperativeError()
      requires Valid()
      modifies this, queue
      ensures Valid() && !HasInoperative(active)
      ensures Now() == Pipeline(old(Others(active)), None)
      ensures queue.pushed == old(queue.pushed) + Signals(old(cause), None) && queue.taken == old(queue.taken)
    {
      if IsActive(active[Evse], Inoperative, "") {
        WithoutBoth(active[Evse], Inoperative, "");
        NothingLeft(WithoutError(active[Evse], Inoperative, ""), Inoperative, "");
        active := active[Evse := WithoutError(active[Evse], Inoperative, "")];
        cause := None;
        Signal(AllErrorsPreventingChargingCleared);
      }
    }

    /** signal_error and signal_all_errors_cleared: the charger puts the event into its queue. */
    method Signal(e: ErrorHandlingEvent)
      requires queue.Valid()
      modifies queue
      ensures queue.Valid() && queue.pushed == old(queue.pushed) + [e] && queue.taken == old(queue.taken)
      ensures AppliedAll(NoShutdown, queue.pushed) == Applied(NoShutdown, e)
    {
      queue.Push(e);
      assert queue.pushed[..|queue.pushed| - 1] == old(queue.pushed);
    }

    /** Number of active errors, the over-voltage monitor not included. */
    method CountErrors() returns (count: nat)
      requires Evse in active && Bsp in active
      ensures count == 0 <==> ClearButOverVoltage(active)
    {
      count := |active[Evse]| + |active[Bsp]|;
      if ConnectorLock in active {
        count := count + |active[ConnectorLock]|;
      }
      if AcRcd in active {
        count := count + |active[AcRcd]|;
      }
      if Imd in active {
        count := count + |active[Imd]|;
      }
      if PowerSupply in active {
        count := count + |active[PowerSupply]|;
      }
      if PowerMeter in active {
        count := count + |active[PowerMeter]|;
      }
    }

    /** Brings Inoperative in line with the active errors and tells the charger about a change. */
    method UpdateInoperative()
      requires Valid()
      modifies this, queue
      ensures Valid() && Now() == Processed(old(Now()))
      ensures HasInoperative(active) <==> Prevented(active)
      ensures queue.pushed == old(queue.pushed) + Signals(old(cause), cause) && queue.taken == old(queue.taken)
    {
      InoperativeIsNeutral(active);
      var fatal := ErrorsPreventCharging();
      if fatal.Some? {
        RaiseInoperativeError(fatal.value);
      } else {
        ClearInoperativeError();
      }
      InoperativeIsNeutral(active);
    }

    /** Finds out whether the active errors stop charging; "all cleared" is signalled whenever nothing is counted. */
    method ProcessError() returns (ghost cleared: bool)
      requires Valid()
      modifies this, queue
      ensures Valid() && Now() == Processed(old(Now())) && Others(active) == old(Others(active))
      ensures HasInoperative(active) <==> Prevented(active)
      ensures queue.pushed == old(queue.pushed) + Signals(old(cause), cause) + if cleared then [AllErrorCleared] else []
      ensures queue.taken == old(queue.taken)
      ensures cleared <==> ClearButOverVoltage(active)
    {
      UpdateInoperative();
      var count := CountErrors();
      cleared := count == 0;
      if count == 0 {
        Signal(AllErrorCleared);
      }
    }

    /** An error of the EvseManager itself (the raise_... methods). */
    method RaiseOwnError(kind: ErrorType, subType: string, severity: Severity)
      requires Valid() && kind != Inoperative
      modifies this, queue
      ensures Valid() && Now() == Raised(old(Now()), Error(kind, subType, severity))
      ensures Prevented(active) && HasInoperative(active) && IsActive(active[Evse], kind, subType)
      ensures queue.pushed == old(queue.pushed) + Signals(old(cause), cause) && queue.taken == old(queue.taken)
    {
      var e := Error(kind, subType, severity);
      OwnErrorIsFatal(Others(active), e);
      Add(e);
      InoperativeIsNeutral(active);
      var cleared := ProcessError();
      assert !cleared by {
        assert HasInoperative(active);
      }
    }

    method Add(e: Error)
      requires Valid() && e.kind != Inoperative
      modifies `active
      ensures Valid() && active == WithError(old(active), e)
      ensures Now() == Pipeline(WithError(old(Others(active)), e), cause)
    {
      hide HasInoperative, Others;
      AddMeaning(active, e);
      active := WithError(active, e);
    }

    /** The clear_... methods; only the one for over-current processes the errors in any case. */
    method ClearOwnError(kind: ErrorType, subType: string, always: bool)
      requires Valid() && kind != Inoperative
      modifies this, queue
      ensures Valid() && Now() == Cleared(old(Now()), kind, subType, always)
      ensures !IsActive(active[Evse], kind, subType)
      ensures always || old(IsActive(active[Evse], kind, subType)) ==> (HasInoperative(active) <==> Prevented(active))
      ensures queue.taken == old(queue.taken)
    {
      hide HasInoperative, Prevented, Processed, Dropped, Others, IsActive, ClearButOverVoltage;
      OthersStay(active, kind, subType);
      var was := IsActive(active[Evse], kind, subType);
      if was {
        Drop(kind, subType);
      }
      OthersStay(active, kind, subType);
      if was || always {
        var _ := ProcessError();
      }
      OthersStay(active, kind, subType);
    }

    method Drop(kind: ErrorType, subType: string)
      requires Valid() && kind != Inoperative
      modifies `active
      ensures Valid() && Others(active) == Dropped(old(Others(active)), kind, subType)
      ensures !IsActive(active[Evse], kind, subType)
    {
      hide HasInoperative;
      DropMeaning(active, kind, subType);
      active := Dropped(active, kind, subType);
    }

    /** The errors of another module change; its callback will process them. */
    method ForeignChange(source: ErrorSource, errors: seq<Error>)
      requires Valid() && source != Evse && source in active
      modifies `active
      ensures Valid() && active == old(active)[source := errors] && Now() == Replaced(old(Now()), source, errors)
    {
      hide HasInoperative, Others;
      ForeignMeaning(active, source, errors);
      active := active[source := errors];
    }
  }

  function NoErrors(connected: set<ErrorSource>): Active {
    map s | s in connected :: []
  }

  lemma {:induction false} FirstFatalStands(s: ErrorSource, errors: seq<Error>, k: nat)
    requires k <= |errors| && FirstFatal(s, errors[..k]).Some?
    ensures FirstFatal(s, errors) == FirstFatal(s, errors[..k])
    decreases |errors|
  {
    hide IsFatal;
    if k < |errors| {
      var n := |errors| - 1;
      assert errors[..n][..k] == errors[..k];
      FirstFatalStands(s, errors[..n], k);
    } else {
      assert errors[..k] == errors;
    }
  }

  /** Nothing is left to remove. */
  lemma {:induction false} NothingLeft(errors: seq<Error>, kind: ErrorType, subType: string)
    ensures !IsActive(errors, kind, subType) ==> WithoutError(errors, kind, subType) == errors
    decreases |errors|
  {
    if errors != [] && !IsActive(errors, kind, subType) {
      var n := |errors| - 1;
      assert errors[n] in errors;
      assert !IsActive(errors[..n], kind, subType);
      NothingLeft(errors[..n], kind, subType);
      assert errors == errors[..n] + [errors[n]];
    }
  }

  /** "All cleared" is wrong exactly when only warnings of the over-voltage monitor are left. */
  lemma ClearedMisreports(active: Active)
    requires Evse in active && (HasInoperative(active) <==> Prevented(active))
    ensures ClearButOverVoltage(active) && !AllClear(active) <==>
      && ClearButOverVoltage(active)
      && OverVoltageMonitor in active && active[OverVoltageMonitor] != []
      && forall e :: e in active[OverVoltageMonitor] ==> e.kind == VendorWarning
  {
  }

  /**
   The cause at the time when Inoperative is raised decides about the shutdown type, and not the worst error:
   a new error of the EvseManager hides whatever errors of other sources came up with it.
   */
  lemma OwnErrorHidesForeign(p: Pipeline, e: Error)
    requires Evse in p.errors && p.errors[Evse] == [] && p.cause == None && e.kind != Inoperative
    ensures Raised(p, e).cause == Some(e)
  {
    var after := WithError(p.errors, e);
    assert after[Evse] == [e] && [e][..0] == [];
    assert SOURCES[0] == Evse && IsFatal(Evse, e);
    assert FirstFatal(Evse, [e]) == Some(e);
  }
}
