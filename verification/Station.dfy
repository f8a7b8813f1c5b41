/**
 The charger on top of the IEC state machine. What the charger sends is delivered in order, while the
 board, the connector and evaluations interleave with it. The charger's own inputs stay arbitrary, which
 covers every way in which the events of the IEC state machine may reach it.
 */
module Station {
  import opened Common
  import opened DutyCycle
  import opened ChargerTypes
  import ChargerRules
  import ChargerRun
  import opened ChargerMachine
  import IecMonitor
  import IecRules
  import IecRun
  import opened IecMachine

  /** One call of the charger, and what the board side does before each of the charger's commands arrives. */
  datatype Round = Round(call: ChargerTypes.Input, between: nat -> seq<IecMachine.Input>, after: seq<IecMachine.Input>)

  /** Permission and PWM of the IEC state machine rest on what the charger sent. */
  ghost predicate Backed(iec: IecStateMachine, sent: seq<Event>)
    reads iec
  {
    && (iec.allowed ==> ChargerRules.PowerGranted(sent))
    && (iec.pwmRunning ==> IsRunningDuty(ChargerRules.LastDuty(sent)))
  }

  /** What the charger sent up to a moment is in order: there is no grant that the station must not rest on. */
  ghost predicate InOrder(sent: seq<Event>, begun: nat) {
    ChargerRules.PilotIsCold(sent) && (ChargerRules.ErrorStopsPower(sent) || ChargerRules.ShutsDown(sent, begun))
  }

  /** How many calls of the charger are over, and how many events it had sent by then. */
  datatype Progress = Progress(calls: nat, begun: nat)

  ghost function RestOf(c: Charger): Progress
    reads c
  {
    Progress(|c.history|, |c.trace.events|)
  }

  /**
   A moment of a run: what has been delivered of the charger's events and how far its calls have come, the calls of the
   IEC state machine, what these sent, and whether the PWM runs.
   */
  datatype Moment = Moment(
    sent: seq<Event>, at: Progress, steps: seq<IecMachine.Input>, board: seq<IecMonitor.IecEvent>, pwm: bool)

  ghost function Here(iec: IecStateMachine, sent: seq<Event>, at: Progress): Moment
    reads iec
  {
    Moment(sent, at, iec.history, iec.trace.events, iec.pwmRunning)
  }

  /** What holds at every moment, in terms of what the charger sent and of what the board was told. */
  ghost predicate IsSafe(m: Moment) {
    // the board is powered only on a standing grant and after an evaluation in C or D
    && (IecRules.BoardOn(m.board) ==> ChargerRules.PowerGranted(m.sent) && IecRules.SawPowerState(m.board))
    // with a running PWM only after a transaction start since Idle, unless the SoC timeout fired since the grant
    && (IecRules.BoardOn(m.board) && m.pwm ==>
          ChargerRules.StartedSinceIdle(m.sent) || ChargerRules.TimedOutSinceGrant(m.sent))
    // under a fatal error that the charger has seen only for the cable check, and never in fixed AC mode, but
    // for the time until the call that sees the error for the first time sends its contactor command
    && (IecRules.BoardOn(m.board) && ChargerRules.LastObserved(m.sent) != NoShutdown ==>
          || (ChargerRules.GrantReason(m.sent) == DCCableCheck && !ChargerRules.FixedAC(m.sent))
          || ChargerRules.ShutsDown(m.sent, m.at.begun))
    && IecRules.PowerWithoutPwmIsBounded(m.board)
  }

  /** What an event of the charger means to the IEC state machine, if it is a command. */
  function CommandOf(e: Event): Option<IecMachine.Input> {
    match e
    case SetPwm(duty) => Some(PwmInput(duty))
    case SetPwmOff => Some(PwmOffInput)
    case SetPwmF => Some(PwmFInput)
    case AllowPowerOn(on, reason) => Some(GrantInput(on, reason))
    case EnableBsp(enable) => Some(EnableInput(enable))
    case _ => None
  }

  function StepsOf(e: Event): seq<IecMachine.Input> {
    if CommandOf(e).Some? then [CommandOf(e).value] else []
  }

  /** The next event of the charger arrives, and is obeyed if it is a command. */
  ghost predicate Arrives(m: Moment, n: Moment) {
    && |n.sent| == |m.sent| + 1 && m.sent <= n.sent && n.at == m.at
    && n.steps == m.steps + StepsOf(n.sent[|m.sent|])
  }

  /** The board side makes a move. */
  ghost predicate Moves(m: Moment, n: Moment) {
    && n.sent == m.sent && n.at == m.at
    && |n.steps| == |m.steps| + 1 && m.steps <= n.steps && IecRun.IsBoardSide(n.steps[|m.steps|])
  }

  /** A call of the charger is over. */
  ghost predicate Returns(m: Moment, n: Moment) {
    n == m.(at := Progress(m.at.calls + 1, |m.sent|))
  }

  ghost predicate Follows(m: Moment, n: Moment) {
    m.board <= n.board && (Arrives(m, n) || Moves(m, n) || Returns(m, n))
  }

  /** Moments without a gap up to the present one, all of them safe. */
  ghost predicate Recorded(moments: seq<Moment>, present: Moment) {
    && moments != [] && moments[|moments| - 1] == present
    && (forall j :: 0 <= j < |moments| ==> IsSafe(moments[j]))
    && (forall j :: 0 < j < |moments| ==> Follows(moments[j - 1], moments[j]))
  }

  lemma Record(moments: seq<Moment>, m: Moment, n: Moment)
    requires Recorded(moments, m) && Follows(m, n) && IsSafe(n)
    ensures Recorded(moments + [n], n)
  {
    hide IsSafe, Follows;
  }

  lemma StationMeaning(iec: IecStateMachine, sent: seq<Event>, at: Progress)
    requires iec.Valid() && Backed(iec, sent) && InOrder(sent, at.begun)
    ensures IsSafe(Here(iec, sent, at))
  {
    IecRun.ValidMeaning(iec);
    IecRun.OnMeaning(iec);
  }

  /** The board side makes one move. */
  method Move(iec: IecStateMachine, i: IecMachine.Input, now: int, ghost sent: seq<Event>, ghost at: Progress,
              ghost moments: seq<Moment>)
    returns (ghost more: seq<Moment>)
    requires IecRun.IsBoardSide(i) && iec.Valid() && iec.LastEvaluation() <= now
    requires Backed(iec, sent) && InOrder(sent, at.begun) && Recorded(moments, Here(iec, sent, at))
    modifies iec, iec.c1, iec.unlockF
    ensures iec.Valid() && iec.LastEvaluation() <= now
    ensures Backed(iec, sent) && moments <= more && Recorded(more, Here(iec, sent, at))
  {
    hide IecStateMachine.Valid, IsSafe, InOrder, Recorded;
    ghost var before := Here(iec, sent, at);
    iec.Mark();
    IecRun.Apply(iec, i, now);
    IecRun.HeldMeaning(iec);
    StationMeaning(iec, sent, at);
    Record(moments, before, Here(iec, sent, at));
    more := moments + [Here(iec, sent, at)];
  }

  /** One event of the charger arrives. */
  method Deliver(iec: IecStateMachine, e: Event, now: int, ghost sent: seq<Event>, ghost at: Progress,
                 ghost moments: seq<Moment>)
    returns (ghost more: seq<Moment>)
    requires iec.Valid() && iec.LastEvaluation() <= now
    requires Backed(iec, sent) && InOrder(sent + [e], at.begun) && Recorded(moments, Here(iec, sent, at))
    modifies iec, iec.c1, iec.unlockF
    ensures iec.Valid() && iec.LastEvaluation() <= now
    ensures Backed(iec, sent + [e]) && moments <= more && Recorded(more, Here(iec, sent + [e], at))
  {
    hide IecStateMachine.Valid, IsSafe, InOrder, Recorded;
    ghost var before := Here(iec, sent, at);
    iec.Mark();
    Obey(iec, e, now, sent);
    IecRun.HeldMeaning(iec);
    StationMeaning(iec, sent + [e], at);
    Record(moments, before, Here(iec, sent + [e], at));
    more := moments + [Here(iec, sent + [e], at)];
  }

  method Obey(iec: IecStateMachine, e: Event, now: int, ghost sent: seq<Event>)
    requires iec.Valid() && iec.LastEvaluation() <= now && Backed(iec, sent)
    modifies iec, iec.c1, iec.unlockF
    ensures iec.Valid() && iec.LastEvaluation() <= now && Backed(iec, sent + [e]) && iec.prior == old(iec.prior)
    ensures iec.history == old(iec.history) + StepsOf(e)
  {
    hide IecStateMachine.Valid;
    assert (sent + [e])[..|sent|] == sent;
    match CommandOf(e)
    case Some(i) => IecRun.Apply(iec, i, now);
    case None =>
  }

  /** The board side moves; inputs that only the charger sends are not part of it. */
  method RunBoardSide(iec: IecStateMachine, inputs: seq<IecMachine.Input>, now: int, ghost sent: seq<Event>,
                      ghost at: Progress, ghost moments: seq<Moment>)
    returns (later: int, ghost more: seq<Moment>)
    requires iec.Valid() && iec.LastEvaluation() <= now
    requires Backed(iec, sent) && InOrder(sent, at.begun) && Recorded(moments, Here(iec, sent, at))
    modifies iec, iec.c1, iec.unlockF
    ensures iec.Valid() && iec.LastEvaluation() <= later
    ensures Backed(iec, sent) && moments <= more && Recorded(more, Here(iec, sent, at))
  {
    hide IecStateMachine.Valid, InOrder, Recorded, Backed;
    later, more := now, moments;
    var k := 0;
    while k < |inputs|
      invariant 0 <= k <= |inputs|
      invariant iec.Valid() && iec.LastEvaluation() <= later
      invariant Backed(iec, sent) && moments <= more && Recorded(more, Here(iec, sent, at))
    {
      if IecRun.IsBoardSide(inputs[k]) {
        later := IecRun.Later(later, inputs[k]);
        more := Move(iec, inputs[k], later, sent, at, more);
      }
      k := k + 1;
    }
  }

  /** Delivers the charger's events from position `begun` on. */
  method DeliverAll(iec: IecStateMachine, events: seq<Event>, begun: nat, between: nat -> seq<IecMachine.Input>,
                    now: int, ghost at: Progress, ghost moments: seq<Moment>)
    returns (later: int, ghost more: seq<Moment>)
    requires iec.Valid() && iec.LastEvaluation() <= now && at.begun == begun <= |events|
    requires forall k :: begun <= k <= |events| ==> InOrder(events[..k], begun)
    requires Backed(iec, events[..begun]) && Recorded(moments, Here(iec, events[..begun], at))
    modifies iec, iec.c1, iec.unlockF
    ensures iec.Valid() && iec.LastEvaluation() <= later
    ensures Backed(iec, events) && moments <= more && Recorded(more, Here(iec, events, at))
  {
    hide IecStateMachine.Valid, InOrder, Recorded, Backed;
    later, more := now, moments;
    var k := begun;
    while k < |events|
      invariant begun <= k <= |events|
      invariant iec.Valid() && iec.LastEvaluation() <= later
      invariant Backed(iec, events[..k]) && moments <= more && Recorded(more, Here(iec, events[..k], at))
    {
      later, more := RunBoardSide(iec, between(k), later, events[..k], at, more);
      assert events[..k + 1] == events[..k] + [events[k]];
      more := Deliver(iec, events[k], later, events[..k], at, more);
      k := k + 1;
    }
    assert events[..k] == events;
  }

  /** Everything that a call sends is in order, event by event. */
  lemma IsInOrder(log: seq<Event>, begun: nat, k: nat)
    requires ChargerRules.Lawful(log) && ChargerRules.PilotIsCold(log)
    requires begun <= k <= |log| && ChargerRules.ErrorStopsPower(log[..begun])
    ensures InOrder(log[..k], begun)
  {
    hide ChargerRules.ErrorStopsPower, ChargerRules.ShutsDown, ChargerRules.PilotIsCold, ChargerRules.Fits;
    ChargerRules.ErrorInCall(log, begun, k);
    if k < |log| {
      assert ChargerRules.StepIsLawful(log[..k], log[k]);
    } else {
      assert log[..k] == log;
    }
  }

  lemma CallIsInOrder(c: Charger, begun: nat)
    requires c.Valid() && begun <= |c.trace.events| && ChargerRules.ErrorStopsPower(c.trace.events[..begun])
    ensures forall k :: begun <= k <= |c.trace.events| ==> InOrder(c.trace.events[..k], begun)
  {
    hide InOrder, Charger.Valid, ChargerRules.ErrorStopsPower, ChargerRules.Lawful, ChargerRules.PilotIsCold;
    ChargerRun.ValidMeaning(c);
    forall k | begun <= k <= |c.trace.events| ensures InOrder(c.trace.events[..k], begun) {
      IsInOrder(c.trace.events, begun, k);
    }
  }

  lemma RestIsInOrder(c: Charger)
    requires c.Valid()
    ensures InOrder(c.trace.events, |c.trace.events|) && ChargerRules.ErrorStopsPower(c.trace.events)
  {
    hide Charger.Valid, ChargerRules.ErrorStopsPower, ChargerRules.PilotIsCold;
    ChargerRun.ValidMeaning(c);
  }

  lemma AppendsOnly(c: Charger)
    requires c.Valid()
    ensures c.prior <= c.trace.events
  {
    assert Recall(0);
  }

  /** One call of the charger; what it sends starts at position `begun`. */
  method Call(c: Charger, call: ChargerTypes.Input) returns (begun: nat)
    requires c.Valid()
    modifies c
    ensures c.Valid() && c.history == old(c.history) + [call]
    ensures begun == |old(c.trace).events| <= |c.trace.events| && c.trace.events[..begun] == old(c.trace).events
    ensures forall k :: begun <= k <= |c.trace.events| ==> InOrder(c.trace.events[..k], begun)
  {
    hide Charger.Valid, Charger.Does, InOrder, ChargerRules.ErrorStopsPower;
    begun := |c.trace.events|;
    RestIsInOrder(c);
    c.BeginEntry();
    ChargerRun.Apply(c, call);
    AppendsOnly(c);
    assert c.trace.events[..begun] == old(c.trace).events;
    CallIsInOrder(c, begun);
  }

  /** One call, the delivery of what it sends, and what the board side does then. */
  method PlayRound(c: Charger, iec: IecStateMachine, round: Round, now: int, ghost moments: seq<Moment>)
    returns (later: int, ghost more: seq<Moment>)
    requires c.Valid() && iec.Valid() && iec.LastEvaluation() <= now && Backed(iec, c.trace.events)
    requires Recorded(moments, Here(iec, c.trace.events, RestOf(c)))
    modifies c, iec, iec.c1, iec.unlockF
    ensures c.Valid() && iec.Valid() && iec.LastEvaluation() <= later && Backed(iec, c.trace.events)
    ensures c.history == old(c.history) + [round.call]
    ensures moments <= more && Recorded(more, Here(iec, c.trace.events, RestOf(c)))
  {
    hide Charger.Valid, IecStateMachine.Valid, InOrder, Recorded, Backed, IsSafe;
    ghost var at := RestOf(c);
    var begun := Call(c, round.call);
    later, more := DeliverAll(iec, c.trace.events, begun, round.between, now, at, moments);
    more := EndCall(c, iec, at, more);
    later, more := RunBoardSide(iec, round.after, later, c.trace.events, RestOf(c), more);
  }

  ghost method EndCall(c: Charger, iec: IecStateMachine, at: Progress, moments: seq<Moment>)
    returns (more: seq<Moment>)
    requires c.Valid() && iec.Valid() && Backed(iec, c.trace.events)
    requires at.calls + 1 == |c.history| && Recorded(moments, Here(iec, c.trace.events, at))
    ensures InOrder(c.trace.events, |c.trace.events|)
    ensures moments <= more && Recorded(more, Here(iec, c.trace.events, RestOf(c)))
  {
    hide Charger.Valid, IecStateMachine.Valid, InOrder, Recorded, IsSafe;
    RestIsInOrder(c);
    var m := Here(iec, c.trace.events, RestOf(c));
    StationMeaning(iec, c.trace.events, RestOf(c));
    Record(moments, Here(iec, c.trace.events, at), m);
    more := moments + [m];
  }

  /** The calls of the charger in a run. */
  function Calls(rounds: seq<Round>): seq<ChargerTypes.Input> {
    if rounds == [] then [] else Calls(rounds[..|rounds| - 1]) + [rounds[|rounds| - 1].call]
  }

  /** Charger and IEC state machine are configured, and nothing else has happened. */
  ghost predicate IsFirst(m: Moment, boot: Boot, ventilation: bool) {
    m.sent == [ConfigSet(boot.cfg)] && m.at == Progress(0, 1) && m.steps == [SetupInput(ventilation)]
  }

  /** Every run of the station is safe at every moment: after each event that arrives and each board-side move. */
  method RunStation(boot: Boot, lockInB: bool, ventilation: bool, rounds: seq<Round>)
    returns (c: Charger, iec: IecStateMachine, ghost moments: seq<Moment>)
    ensures c.Valid() && c.history == Calls(rounds) && iec.Valid()
    ensures moments != [] && IsFirst(moments[0], boot, ventilation)
    ensures Recorded(moments, Here(iec, c.trace.events, RestOf(c)))
  {
    hide Charger.Valid, IecStateMachine.Valid, InOrder, Recorded, Backed, IsSafe;
    c := new Charger(boot);
    iec, moments := StartStation(c, boot, lockInB, ventilation);
    var now := 0;
    var k := 0;
    while k < |rounds|
      invariant 0 <= k <= |rounds|
      invariant fresh(c) && c.Valid() && c.history == Calls(rounds[..k])
      invariant fresh(iec) && fresh(iec.c1) && fresh(iec.unlockF)
      invariant iec.Valid() && iec.LastEvaluation() <= now && Backed(iec, c.trace.events)
      invariant moments != [] && IsFirst(moments[0], boot, ventilation)
      invariant Recorded(moments, Here(iec, c.trace.events, RestOf(c)))
    {
      assert rounds[..k + 1][..k] == rounds[..k];
      now, moments := PlayRound(c, iec, rounds[k], now, moments);
      k := k + 1;
    }
    assert rounds[..k] == rounds;
  }

  method StartStation(c: Charger, ghost boot: Boot, lockInB: bool, ventilation: bool)
    returns (iec: IecStateMachine, ghost moments: seq<Moment>)
    requires c.Valid() && c.trace.events == [ConfigSet(boot.cfg)] && c.history == []
    ensures fresh(iec) && fresh(iec.c1) && fresh(iec.unlockF)
    ensures iec.Valid() && iec.LastEvaluation() <= 0 && Backed(iec, c.trace.events)
    ensures |moments| == 1 && IsFirst(moments[0], boot, ventilation)
    ensures Recorded(moments, Here(iec, c.trace.events, RestOf(c)))
  {
    hide Charger.Valid, IecStateMachine.Valid, InOrder, IsSafe;
    iec := new IecStateMachine(lockInB);
    IecRun.Apply(iec, SetupInput(ventilation), 0);
    moments := [Here(iec, c.trace.events, RestOf(c))];
    RestIsInOrder(c);
    StationMeaning(iec, c.trace.events, RestOf(c));
  }
}
