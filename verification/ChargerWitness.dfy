/** Runs of the charger that show where it does less than one would expect. */
module ChargerWitness {
  import opened Common
  import opened EnableTable
  import opened ChargerTypes
  import opened ChargerRules
  import opened ChargerRun
  import opened ChargerMachine

  /** Every pass meets the same clock readings and answers. */
  function Always(env: Env): nat -> Env {
    n => env
  }

  function Tick(env: Env): Input {
    TickInput(0, Always(env))
  }

  function Cp(event: CPEvent, env: Env): Input {
    CpInput(event, env, Always(env), Always(env), Always(env))
  }

  function Allowed(token: IdToken, id: SessionId): Input {
    FromUser(AuthorizeCall(true, token, id))
  }

  /** One source enables or disables the first connector. */
  function Switch(entry: Entry): Input {
    FromOperator(EnableDisableCall(1, entry))
  }

  /** The meters start a transaction, and the cable can be told. */
  predicate NothingInTheWay(env: Env) {
    env.meters == [] && env.ppAmpacity != 0.0
  }

  /** A car is plugged in, the user is authorized, and the transaction starts. */
  function StartInputs(token: IdToken, id: SessionId, env: Env): seq<Input> {
    [Cp(CarPluggedIn, env)] + [Allowed(token, id)] + [Tick(env)]
  }

  /** The start in DC, without the SoC timeout. */
  method StartInDC(boot: Boot, token: IdToken, id: SessionId, env: Env) returns (c: Charger)
    requires boot.cfg.mode == DC && !boot.anySoc.enabled && NothingInTheWay(env)
    ensures fresh(c) && c.Valid() && c.history == StartInputs(token, id, env)
    ensures c.currentState == PrepareCharging && c.tx.active
    ensures c.config.mode == DC && !c.soc.enabled && c.fatal.shutdownType == NoShutdown
    ensures c.table == [] && c.active == DEFAULT_ENTRY && c.connectorEnabled
  {
    hide Charger.Valid, Charger.Passed, Charger.Rests, Charger.IsStuck, Charger.FollowsUnplug;
    c := PlugIn(boot, env);
    Apply(c, Allowed(token, id));
    Apply(c, Tick(env));
  }

  method PlugIn(boot: Boot, env: Env) returns (c: Charger)
    requires !boot.anySoc.enabled
    ensures fresh(c) && c.Valid() && c.history == [Cp(CarPluggedIn, env)] && c.config == boot.cfg
    ensures c.currentState == WaitingForAuthentication && !c.soc.enabled && c.fatal.shutdownType == NoShutdown
    ensures c.table == [] && c.active == DEFAULT_ENTRY && c.connectorEnabled
  {
    hide Charger.Valid, Charger.Rests, Charger.IsStuck, Charger.FollowsUnplug;
    c := new Charger(boot);
    Apply(c, Cp(CarPluggedIn, env));
  }

  /** EV and HLC both ask for power. */
  method AskForPower(c: Charger, env: Env)
    requires c.Valid() && c.currentState == PrepareCharging && c.config.mode == DC && !c.soc.enabled
    modifies c
    ensures c.Valid() && c.currentState == PrepareCharging && c.config.mode == DC && !c.soc.enabled
    ensures c.history == old(c.history) + [Cp(CarRequestedPower, env)] + [FromHlc(HlcAllowCall(true))]
    ensures c.hlc.allow && c.iecAllow && c.fatal.shutdownType == old(c.fatal).shutdownType
  {
    hide Charger.Valid, Charger.IsStuck, Charger.FollowsUnplug;
    Apply(c, Cp(CarRequestedPower, env));
    Apply(c, FromHlc(HlcAllowCall(true)));
  }

  /** One round of the main loop while EV and HLC ask for power: the grant stands unless a shutdown routine was due. */
  method KeepAsking(c: Charger, env: Env)
    requires c.Valid() && c.currentState == PrepareCharging && c.config.mode == DC && !c.soc.enabled
    requires c.hlc.allow && c.iecAllow
    modifies c
    ensures c.Valid() && c.currentState == PrepareCharging && c.config.mode == DC && !c.soc.enabled
    ensures c.hlc.allow && c.iecAllow && c.history == old(c.history) + [Tick(env)]
    ensures c.fatal.lastShutdownType == c.fatal.shutdownType == old(c.fatal).shutdownType
    ensures c.Granted() <==> !old(c.RoutineDue())
  {
    hide Charger.Valid, Charger.IsStuck;
    Apply(c, Tick(env));
  }

  /**
   In DC a grant stands under a fatal error: PrepareCharging grants again in every pass, and the shutdown
   routine takes the grant back only in the first one.
   */
  method GrantStandsUnderError(boot: Boot, token: IdToken, id: SessionId, env: Env) returns (c: Charger, log: Log)
    requires boot.cfg.mode == DC && !boot.anySoc.enabled && NothingInTheWay(env)
    ensures c.Valid() && log == c.trace.events && Lawful(log)
    ensures c.history == StartInputs(token, id, env) +
      [Cp(CarRequestedPower, env)] + [FromHlc(HlcAllowCall(true))] +
      [ErrorInput([ForceErrorShutdown])] + [Tick(env)] + [Tick(env)]
    ensures PowerGranted(log) && LastObserved(log) == ErrorShutdown
  {
    c := StartInDC(boot, token, id, env);
    AskForPower(c, env);
    FailAndKeepAsking(c, env);
    log := c.trace.events;
    ValidMeaning(c);
  }

  method FailAndKeepAsking(c: Charger, env: Env)
    requires c.Valid() && c.currentState == PrepareCharging && c.config.mode == DC && !c.soc.enabled
    requires c.hlc.allow && c.iecAllow && c.fatal.shutdownType == NoShutdown
    modifies c
    ensures c.Valid() && c.history == old(c.history) + [ErrorInput([ForceErrorShutdown])] + [Tick(env)] + [Tick(env)]
    ensures c.Granted() && c.fatal.lastShutdownType == ErrorShutdown
  {
    hide Charger.Valid;
    Apply(c, ErrorInput([ForceErrorShutdown]));
    KeepAsking(c, env);
    KeepAsking(c, env);
  }

  method DisableThenTick(c: Charger, off: Entry, env: Env)
    requires c.Valid() && c.table == [] && c.active == DEFAULT_ENTRY && c.tx.active && !c.soc.enabled
    requires off.state == Disable
    modifies c
    ensures c.Valid() && c.currentState == Disabled && c.tx.active && !c.soc.enabled && c.lastDetect == Disabled
    ensures Requests(c.table) == {off} && c.history == old(c.history) + [Switch(off)] + [Tick(env)]
  {
    hide Charger.Inv, Charger.IsStuck;
    NothingRequested();
    assert BeatsAll(off, {off});
    Apply(c, Switch(off));
    assert Requests(c.table) == {off};
    TickInDisabled(c, env);
  }

  method TickInDisabled(c: Charger, env: Env)
    requires c.Valid() && c.currentState == Disabled && c.tx.active && !c.soc.enabled
    modifies c
    ensures c.Valid() && c.currentState == Disabled && c.tx.active && !c.soc.enabled && c.lastDetect == Disabled
    ensures c.table == old(c.table) && c.history == old(c.history) + [Tick(env)]
  {
    hide Charger.Valid, Charger.IsStuck;
    Apply(c, Tick(env));
  }

  method EnableThenTick(c: Charger, off: Entry, on: Entry, env: Env)
    requires c.Valid() && c.currentState == Disabled && c.tx.active && !c.soc.enabled && c.lastDetect == Disabled
    requires Requests(c.table) == {off} && off.source == on.source && on.state == Enable
    modifies c
    ensures c.Valid() && c.currentState == Idle && !c.tx.active && c.SinceStop()
    ensures c.history == old(c.history) + [Switch(on)] + [Tick(env)]
  {
    hide Charger.Valid, Charger.IsStuck;
    Apply(c, Switch(on));
    assert Requests(c.table) == {on};
    Apply(c, Tick(env));
  }

  /** Disabling and enabling the charger drops an active transaction without a report. */
  method TransactionIsLost(boot: Boot, token: IdToken, id: SessionId, env: Env, source: EnableSource, priority: int)
    returns (c: Charger, log: Log)
    requires boot.cfg.mode == DC && !boot.anySoc.enabled && NothingInTheWay(env)
    ensures c.Valid() && log == c.trace.events && Lawful(log)
    ensures c.history == StartInputs(token, id, env) +
      [Switch(Entry(source, Disable, priority))] + [Tick(env)] + [Switch(Entry(source, Enable, priority))] + [Tick(env)]
    ensures c.currentState == Idle && StartedSinceStop(log) && !StartedSinceIdle(log)
  {
    hide Charger.Valid;
    c := StartInDC(boot, token, id, env);
    var off, on := Entry(source, Disable, priority), Entry(source, Enable, priority);
    DisableThenTick(c, off, env);
    EnableThenTick(c, off, on, env);
    log := c.trace.events;
    ValidMeaning(c);
  }

  // --------------------------------------------------------------- the SoC timeout

  /** Rounds of the main loop until the SoC timer, as set up, has four passes left. */
  const ROUNDS := (SOC_TIMER_MS - 200) / 50

  /** The calls so far, then n rounds of the main loop. */
  function ThenTicks(calls: seq<Input>, env: Env, n: nat): seq<Input> {
    if n == 0 then calls else ThenTicks(calls, env, n - 1) + [Tick(env)]
  }

  function SetUp(cfg: ConfigContext): seq<Input> {
    [FromOperator(SetupCall(cfg, true))]
  }

  /** The charger is set up for AC with the SoC timeout and waits for a car until the time is nearly up. */
  method WaitForCar(boot: Boot, cfg: ConfigContext, env: Env) returns (c: Charger)
    requires cfg.mode == AC
    ensures fresh(c) && c.Valid() && c.history == ThenTicks(SetUp(cfg), env, ROUNDS)
    ensures c.currentState == Idle && !c.auth.authorized && !c.hlc.active && c.config == cfg
    ensures c.soc == SocTimer(true, 200)
  {
    hide Charger.Valid, Charger.IsStuck;
    c := new Charger(boot);
    Apply(c, FromOperator(SetupCall(cfg, true)));
    var k := 0;
    while k < ROUNDS
      invariant 0 <= k <= ROUNDS
      invariant fresh(c) && c.Valid() && c.history == ThenTicks(SetUp(cfg), env, k)
      invariant c.currentState == Idle && !c.auth.authorized && !c.hlc.active && c.config == cfg
      invariant c.soc == SocTimer(true, SOC_TIMER_MS - 50 * k)
    {
      IdleTick(c, env);
      k := k + 1;
    }
  }

  method IdleTick(c: Charger, env: Env)
    requires c.Valid() && c.currentState == Idle && !c.auth.authorized && !c.hlc.active && c.config.mode == AC
    requires c.soc.enabled && c.soc.remaining >= 50
    modifies c
    ensures c.Valid() && c.history == old(c.history) + [Tick(env)]
    ensures c.currentState == Idle && !c.auth.authorized && !c.hlc.active && c.config == old(c.config)
    ensures c.soc == SocTimer(true, old(c.soc).remaining - 50)
  {
    hide Charger.Valid, Charger.IsStuck;
    Apply(c, Tick(env));
  }

  /**
   The SoC timeout fires in the very pass that is to initialise StoppingCharging: the car is gone, but its
   session stays open, however many rounds of the main loop follow.
   */
  method UnplugIsCutShort(boot: Boot, cfg: ConfigContext, env: Env, more: nat) returns (c: Charger, log: Log)
    requires cfg.mode == AC
    ensures c.Valid() && log == c.trace.events && Lawful(log)
    ensures c.history ==
      ThenTicks(ThenTicks(SetUp(cfg), env, ROUNDS) + [Cp(CarPluggedIn, env)] + [Cp(CarUnplugged, env)], env, more)
    ensures c.currentState == StoppingCharging && SessionOpen(log)
  {
    hide Charger.Valid;
    c := WaitForCar(boot, cfg, env);
    PlugAndUnplug(c, env);
    GoOn(c, env, more);
    log := c.trace.events;
    ValidMeaning(c);
  }

  method GoOn(c: Charger, env: Env, more: nat)
    requires c.Valid() && c.IsStuck() && c.auth.sessionActive
    modifies c
    ensures c.Valid() && c.IsStuck() && c.auth.sessionActive && c.history == ThenTicks(old(c.history), env, more)
  {
    hide Charger.Valid, Charger.IsStuck;
    var k := 0;
    while k < more
      invariant 0 <= k <= more
      invariant c.Valid() && c.IsStuck() && c.auth.sessionActive && c.history == ThenTicks(old(c.history), env, k)
    {
      Apply(c, Tick(env));
      k := k + 1;
    }
  }

  method PlugAndUnplug(c: Charger, env: Env)
    requires c.Valid() && c.currentState == Idle && !c.auth.authorized && !c.hlc.active && c.config.mode == AC
    requires c.soc == SocTimer(true, 200)
    modifies c
    ensures c.Valid() && c.IsStuck() && c.auth.sessionActive
    ensures c.history == old(c.history) + [Cp(CarPluggedIn, env)] + [Cp(CarUnplugged, env)]
  {
    hide Charger.Valid;
    Apply(c, Cp(CarPluggedIn, env));
    Apply(c, Cp(CarUnplugged, env));
  }
}
