/** The pipeline from the active errors through the queue to the charger's shutdown type, over whole runs. */
module ErrorRun {
  import opened Common
  import opened ErrorHandlers
  import ChargerTypes
  import opened ChargerMachine
  import ChargerRun

  datatype Input =
    | ForeignInput(source: ErrorSource, errors: seq<Error>) // another module's errors change
    | ProcessInput // a callback of another module runs process_error
    | RaiseInput(kind: ErrorType, subType: string, severity: Severity)
    | ClearInput(kind: ErrorType, subType: string, always: bool)
    | DrainInput // the error thread takes what is in the queue
    | ChargerInput(call: ChargerTypes.Input) // any other call of the charger

  /** What an input does to the errors and to the cause. */
  function Step(p: Pipeline, i: Input): (r: Pipeline)
    requires Evse in p.errors
    ensures Evse in r.errors
  {
    match i
    case ForeignInput(source, errors) =>
      if source != Evse && source in p.errors then Replaced(p, source, errors) else p
    case ProcessInput => Processed(p)
    case RaiseInput(kind, subType, severity) =>
      if kind == Inoperative then Processed(p) else Raised(p, Error(kind, subType, severity))
    case ClearInput(kind, subType, always) =>
      if kind != Inoperative then Cleared(p, kind, subType, always) else if always then Processed(p) else p
    case _ => p
  }

  /** The errors and the cause after a history. */
  function After(connected: set<ErrorSource>, inputs: seq<Input>): (r: Pipeline)
    requires Evse in connected
    ensures Evse in r.errors
  {
    if inputs == [] then Pipeline(NoErrors(connected), None)
    else Step(After(connected, inputs[..|inputs| - 1]), inputs[|inputs| - 1])
  }

  /** Does the input bring the Inoperative error up to date? */
  predicate Settles(i: Input, settled: bool) {
    match i
    case ForeignInput(_, _) => false
    case ProcessInput => true
    case RaiseInput(_, _, _) => true
    case ClearInput(_, _, always) => always || settled
    case _ => settled
  }

  ghost predicate SettledBy(inputs: seq<Input>) {
    if inputs == [] then true else Settles(inputs[|inputs| - 1], SettledBy(inputs[..|inputs| - 1]))
  }

  /** Once the errors were processed, there is a cause exactly while some error stops charging. */
  lemma {:induction false} SettledMeaning(connected: set<ErrorSource>, inputs: seq<Input>)
    requires Evse in connected
    ensures SettledBy(inputs) ==>
      (After(connected, inputs).cause.Some? <==> Prevented(After(connected, inputs).errors))
    decreases |inputs|
  {
    hide Cause, Prevented;
    CauseMeaning(After(connected, inputs).errors);
    if inputs == [] {
      CauseMeaning(NoErrors(connected));
      NothingPrevents(connected);
    } else {
      SettledMeaning(connected, inputs[..|inputs| - 1]);
    }
  }

  predicate IsOwnError(i: Input) {
    i.RaiseInput? && i.kind != Inoperative
  }

  lemma RaiseStops(p: Pipeline, i: Input)
    requires Evse in p.errors && IsOwnError(i)
    ensures Step(p, i).cause.Some? && IsActive(Step(p, i).errors[Evse], i.kind, i.subType)
  {
    hide Cause, Prevented;
    var e := Error(i.kind, i.subType, i.severity);
    OwnErrorIsFatal(p.errors, e);
    CauseMeaning(WithError(p.errors, e));
  }

  lemma NothingPrevents(connected: set<ErrorSource>)
    ensures !Prevented(NoErrors(connected))
  {
  }

  /**
   The cause is the first error that stopped charging, in the order of the sources, at the time when
   Inoperative was raised. Errors that come later do not change it while Inoperative stays.
   */
  lemma {:induction false} RaisedWhen(connected: set<ErrorSource>, inputs: seq<Input>) returns (t: nat)
    requires Evse in connected && After(connected, inputs).cause.Some?
    ensures t < |inputs| && After(connected, inputs[..t]).cause.None?
    ensures After(connected, inputs).cause == Cause(After(connected, inputs[..t + 1]).errors)
    ensures forall u :: t < u <= |inputs| ==> After(connected, inputs[..u]).cause == After(connected, inputs).cause
    decreases |inputs|
  {
    hide Cause, WithError, Dropped;
    var n := |inputs| - 1;
    var before := After(connected, inputs[..n]);
    assert inputs[..n + 1] == inputs;
    if before.cause.None? {
      t := n;
    } else {
      t := RaisedWhen(connected, inputs[..n]);
      forall u | t < u <= |inputs| ensures After(connected, inputs[..u]).cause == After(connected, inputs).cause {
        if u <= n {
          assert inputs[..n][..u] == inputs[..u];
        }
      }
      assert inputs[..n][..t] == inputs[..t] && inputs[..n][..t + 1] == inputs[..t + 1];
    }
  }

  /** The charger has applied exactly what it took from the queue. */
  ghost predicate Linked(h: ErrorHandling, c: Charger)
    reads h, h.queue, c
  {
    h.Valid() && c.Valid() && c.fatal.shutdownType == AppliedAll(NoShutdown, h.queue.taken)
  }

  /** The error thread: one batch. It waits while there is nothing to take. */
  method Drain(h: ErrorHandling, c: Charger)
    requires Linked(h, c)
    modifies h.queue, c
    ensures Linked(h, c) && h.queue.pending == [] && h.queue.pushed == old(h.queue.pushed)
  {
    if h.queue.pending != [] {
      ghost var taken := h.queue.taken;
      var events := h.queue.Wait();
      AppliedInBatches(NoShutdown, taken, events);
      ChargerRun.Apply(c, ChargerTypes.ErrorInput(events));
    }
  }

  method Apply(h: ErrorHandling, c: Charger, i: Input)
    requires Linked(h, c)
    modifies h, h.queue, c
    ensures Linked(h, c) && h.Now() == Step(old(h.Now()), i)
    ensures i.DrainInput? ==> h.queue.pending == []
  {
    hide HasInoperative, Processed, Raised, Cleared;
    match i
    case DrainInput => Drain(h, c);
    case ChargerInput(call) =>
      if !call.ErrorInput? {
        ChargerRun.Apply(c, call);
      }
    case _ => ApplyToErrors(h, i);
  }

  method ApplyToErrors(h: ErrorHandling, i: Input)
    requires h.Valid() && !i.DrainInput? && !i.ChargerInput?
    modifies h, h.queue
    ensures h.Valid() && h.Now() == Step(old(h.Now()), i) && h.queue.taken == old(h.queue.taken)
  {
    hide HasInoperative, Prevented, Processed, Raised, Cleared, ClearButOverVoltage;
    match i
    case ForeignInput(source, errors) =>
      if source != Evse && source in h.active {
        h.ForeignChange(source, errors);
      }
    case ProcessInput => var _ := h.ProcessError();
    case RaiseInput(kind, subType, severity) =>
      if kind != Inoperative {
        h.RaiseOwnError(kind, subType, severity);
      } else {
        var _ := h.ProcessError();
      }
    case ClearInput(kind, subType, always) =>
      if kind != Inoperative {
        h.ClearOwnError(kind, subType, always);
      } else if always {
        var _ := h.ProcessError();
      }
  }

  /** Plays a history, from the start. */
  method Play(boot: ChargerTypes.Boot, connected: set<ErrorSource>, inputs: seq<Input>)
    returns (h: ErrorHandling, c: Charger)
    requires Evse in connected && Bsp in connected
    ensures fresh(h) && fresh(h.queue) && fresh(c) && Linked(h, c) && h.Now() == After(connected, inputs)
    ensures |inputs| > 0 && inputs[|inputs| - 1].DrainInput? ==> h.queue.pending == []
  {
    hide HasInoperative, Prevented, Step;
    c := new Charger(boot);
    h := new ErrorHandling(connected);
    var k := 0;
    while k < |inputs|
      invariant 0 <= k <= |inputs|
      invariant fresh(c) && fresh(h) && fresh(h.queue) && Linked(h, c)
      invariant h.Now() == After(connected, inputs[..k])
      invariant k > 0 && inputs[k - 1].DrainInput? ==> h.queue.pending == []
    {
      assert inputs[..k + 1][..k] == inputs[..k];
      Apply(h, c, inputs[k]);
      k := k + 1;
    }
    assert inputs[..k] == inputs;
  }

  /**
   After any history, the errors are those of the history, Inoperative is active exactly while there is a cause,
   and what the charger has applied plus what is still on its way is the shutdown type of that very cause.
   */
  method RunErrorPipeline(boot: ChargerTypes.Boot, connected: set<ErrorSource>, inputs: seq<Input>)
    returns (h: ErrorHandling, c: Charger, active: Active, shutdown: ShutdownType, pending: seq<ErrorHandlingEvent>)
    requires Evse in connected && Bsp in connected
    ensures Linked(h, c) && h.Now() == After(connected, inputs)
    ensures active == h.active && shutdown == c.fatal.shutdownType && pending == h.queue.pending
    ensures Evse in active && Others(active) == After(connected, inputs).errors
    ensures HasInoperative(active) <==> After(connected, inputs).cause.Some?
    ensures AppliedAll(shutdown, pending) == TypeFor(After(connected, inputs).cause)
    ensures |inputs| > 0 && inputs[|inputs| - 1].DrainInput? ==> pending == []
    ensures SettledBy(inputs) ==> (HasInoperative(active) <==> Prevented(active))
    ensures |inputs| > 0 && IsOwnError(inputs[|inputs| - 1]) ==>
      HasInoperative(active) && IsActive(active[Evse], inputs[|inputs| - 1].kind, inputs[|inputs| - 1].subType)
  {
    hide HasInoperative, Prevented, Step;
    h, c := Play(boot, connected, inputs);
    active, shutdown, pending := h.active, c.fatal.shutdownType, h.queue.pending;
    AppliedInBatches(NoShutdown, h.queue.taken, pending);
    SettledMeaning(connected, inputs);
    InoperativeIsNeutral(active);
    if |inputs| > 0 && IsOwnError(inputs[|inputs| - 1]) {
      RaiseStops(After(connected, inputs[..|inputs| - 1]), inputs[|inputs| - 1]);
      OthersStay(active, inputs[|inputs| - 1].kind, inputs[|inputs| - 1].subType);
    }
  }

  /** An error of the EVSE is raised, then another one, and the charger hears of both. */
  function InTurn(first: Error, second: Error): seq<Input> {
    [RaiseInput(first.kind, first.subType, first.severity)] +
    [RaiseInput(second.kind, second.subType, second.severity)] + [DrainInput]
  }

  lemma FirstIsTheCause(first: Error, second: Error)
    requires first.kind != Inoperative && second.kind != Inoperative && first.kind != second.kind
    ensures
      var p := After({Evse, Bsp}, InTurn(first, second));
      p.cause == Some(first) && p.errors[Evse] == [first, second]
  {
    hide Cause, Raised;
    var none := Pipeline(NoErrors({Evse, Bsp}), None);
    var s := InTurn(first, second);
    assert s[..2][..1] == s[..1] && s[..1][..0] == [];
    assert After({Evse, Bsp}, s[..1]) == Raised(none, first);
    assert After({Evse, Bsp}, s[..2]) == Raised(Raised(none, first), second);
    FirstThenSecond(none, first, second);
  }

  lemma FirstThenSecond(p: Pipeline, first: Error, second: Error)
    requires Evse in p.errors && p.errors[Evse] == [] && p.cause == None
    requires first.kind != Inoperative && second.kind != Inoperative && first.kind != second.kind
    ensures Raised(Raised(p, first), second).cause == Some(first)
    ensures Raised(Raised(p, first), second).errors[Evse] == [first, second]
  {
    hide Cause;
    OwnErrorHidesForeign(p, first);
    var once := Raised(p, first);
    OwnErrorIsFatal(once.errors, second);
    CauseMeaning(WithError(once.errors, second));
  }

  /** A later error of high severity does not turn an error shutdown into an emergency shutdown. */
  method HighSeverityComesLate(boot: ChargerTypes.Boot, first: Error, second: Error)
    returns (h: ErrorHandling, c: Charger)
    requires first.kind != Inoperative && second.kind != Inoperative && first.kind != second.kind
    requires first.severity == Medium && second.severity == High
    ensures Linked(h, c) && h.Now() == After({Evse, Bsp}, InTurn(first, second)) && h.queue.pending == []
    ensures HasFatal(h.active, true) && c.fatal.shutdownType == ErrorShutdown
  {
    hide HasInoperative, Prevented, HasFatal, After;
    var active, shutdown, pending;
    h, c, active, shutdown, pending := RunErrorPipeline(boot, {Evse, Bsp}, InTurn(first, second));
    FirstIsTheCause(first, second);
    FatalWitness(active, second);
  }

  lemma FatalWitness(active: Active, e: Error)
    requires Evse in active && e in Others(active)[Evse] && e.kind != Inoperative && e.severity == High
    ensures HasFatal(active, true)
  {
    assert IsFatal(Evse, e);
  }
}
