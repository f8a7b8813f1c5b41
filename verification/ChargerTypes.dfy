/** The data of the high-level charger (Charger.hpp), and everything it sends out. */
module ChargerTypes {
  import opened Common
  import opened EnableTable

  datatype ChargeMode = AC | DC

  datatype EvseState =
    | Disabled
    | Idle
    | WaitingForAuthentication
    | PrepareCharging
    | WaitingForEnergy
    | Charging
    | ChargingPausedEV
    | ChargingPausedEVSE
    | StoppingCharging
    | Finished
    | TStepEF
    | TStepX1
    | SwitchPhases
    | Replug

  datatype HlcTerminatePause = Unknown | Terminate | Pause

  datatype IdToken = IdToken(value: string, plugAndCharge: bool)

  datatype StartSessionReason = EVConnected | StartAuthorized

  datatype StopTransactionReason =
    | EmergencyStop | EVDisconnected | PowerLoss | Local | Remote | DeAuthorized | OtherReason(code: nat)

  /** A session id as generated by the uuid/base64 helpers: never the empty string. */
  type SessionId = s: string | s != "" witness "x"

  datatype MeterStatus = MeterOk | MeterNotSupported | MeterUnexpectedError

  /** The answer of one billing meter to a start or stop request. */
  datatype MeterAnswer = MeterAnswer(status: MeterStatus, startValue: Option<nat>, stopValue: Option<nat>)

  /** What the environment answers during one pass: the two clocks in ms, meters, cable, id generator. */
  datatype Env = Env(sysNow: int, steadyNow: int, meters: seq<MeterAnswer>, ppAmpacity: real, newId: SessionId)

  datatype DcLimits = DcLimits(current: real, power: real)

  datatype ConfigContext = ConfigContext(
    mode: ChargeMode,
    acHlcEnabled: bool,
    acHlcUse5Percent: bool,
    acEnforceHlc: bool,
    switchDelayS: int,
    switchCpStateF: bool,
    softOverCurrentTimeoutMs: int,
    stateFAfterFaultMs: int,
    failOnMeterErrors: bool,
    raiseMrec9: bool,
    tolerancePercent: real,
    noiseA: real)

  // The members of SharedContext and InternalContext, grouped by what they are about.

  /** Session and authorization. */
  datatype AuthContext = AuthContext(
    sessionActive: bool,
    sessionUuid: string,
    startReason: StartSessionReason,
    authorized: bool,
    authorizedPnc: bool,
    idToken: IdToken)

  /** Transaction and its billing data. */
  datatype TransactionContext = TransactionContext(
    active: bool,
    stopReason: Option<StopTransactionReason>,
    stopToken: Option<IdToken>,
    startMeterValue: Option<nat>,
    stopMeterValue: Option<nat>)

  /** Last PWM command. */
  datatype PwmContext = PwmContext(
    running: bool,
    lastDc: real,
    lastUpdate: int,
    setAmpere: real,
    fActive: bool)

  /** Where the waiting states return to, and with which PWM. */
  datatype ReturnContext = ReturnContext(
    efState: EvseState,
    efPwm: real,
    efAmpere: real,
    efX1Pause: bool,
    x1State: EvseState,
    x1Pwm: real,
    switchState: EvseState)

  /** BCB toggle detector. */
  datatype BcbContext = BcbContext(started: bool, count: nat, pulseStart: int, sequenceStart: int)

  /** Fatal errors: as set by the error thread, and as last handled. */
  datatype FatalContext = FatalContext(
    shutdownType: ShutdownType,
    lastShutdownType: ShutdownType,
    since: int,
    timerRunning: bool)

  /** Current budget and measured current. */
  datatype CurrentContext = CurrentContext(
    max: real,
    validUntil: int,
    cable: real,
    drawn: (real, real, real),
    overCurrent: bool,
    overCurrentSince: int)

  /** High-level communication with the EV. */
  datatype HlcContext = HlcContext(
    allow: bool,
    active: bool,
    terminatePause: HlcTerminatePause,
    matchingStarted: bool,
    use5Percent: bool,
    acEnabled: bool,
    limits: DcLimits)

  datatype PhaseSwitch = PhaseSwitch(three: bool, ongoing: bool)

  datatype SocTimer = SocTimer(enabled: bool, remaining: int)

  /** What a charger is constructed with. Members that the source leaves uninitialised start with arbitrary values. */
  datatype Boot = Boot(
    cfg: ConfigContext,
    isSocket: bool,
    ppAmpacity: real,
    anyState: EvseState,
    anyAuth: AuthContext,
    anyPwm: PwmContext,
    anyReturns: ReturnContext,
    anyHlc: HlcContext,
    anySoc: SocTimer)

  /** Published by signal_simple_event. */
  datatype SessionEvent =
    | Authorized | Deauthorized | EvEnabled | EvDisabled | AuthRequired | EvPrepareCharging | ChargingStarted
    | EvPausedEV | EvPausedEVSE | EvWaitingForEnergy | ChargingResumed | EvStoppingCharging | ChargingFinished
    | SessionFinished | ReplugStarted | ReplugFinished | PluginTimeout | SwitchingPhases

  datatype HlcErrorKind = HlcEmergencyShutdown | HlcUtilityInterrupt

  datatype ChargerError = AuthorizationTimeout | MeterStartFailed

  /**
   One entry of the charger's trace. Most entries are calls or signals that leave
   the charger; the last group are marks for what happened inside.
   */
  datatype Event =
    // commands to the IEC state machine
    | SetPwm(duty: real)
    | SetPwmOff
    | SetPwmF
    | AllowPowerOn(on: bool, reason: PowerReason)
    | EnableBsp(enable: bool)
    | SwitchThreePhases(three: bool)
    | OverCurrentLimit(amps: real)
    // signals
    | StateSignal(state: EvseState)
    | Simple(event: SessionEvent)
    | Availability(enabled: bool) // Enabled/Disabled as published by enable_disable itself
    | AvailabilityPublished(enabled: bool) // Enabled/Disabled as published by enable_disable_initial_state_publish
    | SessionStarted(startReason: StartSessionReason, startToken: Option<IdToken>)
    | TransactionStarted(token: IdToken)
    | TransactionFinished(stopReason: StopTransactionReason, stopToken: Option<IdToken>)
    | MaxCurrentSignal(ampere: real)
    | SocTimeoutSignal
    | DcSupplyOff
    | SlacReset
    | SlacStart
    | HlcStopCharging
    | HlcPauseCharging
    | HlcError(kind: HlcErrorKind)
    | HlcNoEnergy
    // calls into the error handler
    | RaiseError(error: ChargerError)
    | RaiseOverCurrent(signalled: real, limit: real, basic: bool)
    | ClearErrorsOnUnplug
    // marks
    | ConfigSet(config: ConfigContext)
    | IdleInitialised
    | StartTransactionCalled
    | CancelAccepted(cancelReason: StopTransactionReason, cancelToken: Option<IdToken>)
    | ShutdownTypeSet(shutdown: ShutdownType)
    | FatalCheck(observed: ShutdownType)
    | ShutdownRoutine(routine: ShutdownType)

  /** Calls from the user's side of the EvseManager. */
  datatype UserInput =
    | AuthorizeCall(grant: bool, token: IdToken, newId: SessionId)
    | DeauthorizeCall
    | CancelCall(reason: StopTransactionReason, stopToken: Option<IdToken>, env: Env)
    | PauseCall
    | ResumeCall

  /** Calls from whoever operates the station. */
  datatype OperatorInput =
    | EnableDisableCall(connector: int, source: Entry)
    | PublishAvailabilityCall
    | SetupCall(cfg: ConfigContext, socTimeout: bool)
    | ConnectorTypeCall(isSocket: bool)

  /** Calls that bring energy limits and measurements. */
  datatype EnergyInput =
    | MaxCurrentCall(ampere: real, validUntil: int, now: int)
    | WaitForPowerCall
    | PowerAvailableCall(now: int)
    | SwitchPhasesCall(three: bool)
    | CurrentDrawnCall(l1: real, l2: real, l3: real)
    | HlcLimitsCall(limits: DcLimits)

  /** Calls of the high-level communication. */
  datatype HlcInput =
    | MatchingStartedCall(started: bool)
    | RequestErrorSequenceCall
    | CurrentDemandCall
    | DlinkPauseCall
    | DlinkTerminateCall
    | DlinkErrorCall
    | HlcActiveCall
    | HlcAllowCall(on: bool)
    | FatalErrorQuery(now: int)

  /** One call of an entry point, with the clock readings and foreign answers that it meets. */
  datatype Input =
    | StartCall
    | TickInput(now: int, passEnv: nat -> Env)
    | CpInput(event: CPEvent, env: Env, env1: nat -> Env, env2: nat -> Env, env3: nat -> Env)
    | ErrorInput(batch: seq<ErrorHandlingEvent>)
    | FromUser(user: UserInput)
    | FromOperator(operator: OperatorInput)
    | FromEnergy(energy: EnergyInput)
    | FromHlc(hlc: HlcInput)

  const LEGACY_WAKEUP_TIMEOUT := 30000
  const PREPARING_TIMEOUT_PAUSED_BY_EV := 10000
  const TP_EV_VALD_STATE_DURATION_MIN := 150
  const TP_EV_VALD_STATE_DURATION_MAX := 450
  const TT_EVSE_VALD_TOGGLE := 3700
  const T_STEP_X1 := 3000
  const T_STEP_EF := 4000
  const IEC_PWM_MAX_UPDATE_INTERVAL := 5000
  const STAY_IN_X1_AFTER_TSTEP_EF_MS := 750
  const CHARGER_ABSOLUTE_MAX_CURRENT := 1000.0
  const SOC_TIMER_MS := 3600000
  const SOC_REPLUG_TIMER_MS := 120000

  /**
   What is looked at after a run. A charger is stuck if no pass will ever leave StoppingCharging, it rests if the next
   pass does not leave its state, and it closes if unplugging the car would end the session.
   */
  datatype Snapshot = Snapshot(
    state: EvseState, ret: ReturnContext, auth: AuthContext, tx: TransactionContext,
    pwm: PwmContext, fatal: FatalContext, stuck: bool, rests: bool, closes: bool)

  /** What was sent before a call, and what was found. */
  datatype Note = Note(sent: seq<Event>, was: Snapshot)
}
