# Verified model of the EVSE charging controller

A Dafny model of the charging controller of EVerest's EvseManager and of two smaller arithmetic cores of the
same repository, with proofs of what they keep over whole runs.

## What is modelled

| file | what it models |
|---|---|
| `Charger.dfy` | the high-level `Charger`: 14 states, the do-while loop of `run_state_machine`, PWM helpers, sessions, transactions, fatal errors, and every entry point that changes its state |
| `ChargerTypes.dfy`, `ChargerMonitor.dfy`, `ChargerInvariant.dfy` | its data, what a bystander can tell from the events it sends, and what every reachable state satisfies |
| `Bcb.dfy` | the detector of the BCB toggle |
| `ChargerRules.dfy`, `ChargerRun.dfy`, `ChargerWitness.dfy` | the rules for its events, stated about the log alone, the theorem for every run, and runs that show where it does less than expected |
| `Iec.dfy`, `IecMonitor.dfy`, `IecRules.dfy`, `IecRun.dfy`, `Timeout.dfy` | the control-pilot state machine with its timers and the connector lock, in the same way |
| `Station.dfy` | the charger on top of the control-pilot state machine |
| `ErrorHandling.dfy`, `EventQueue.dfy`, `ErrorRun.dfy` | the pipeline from active errors through the queue to the charger's shutdown type |
| `EnableTable.dfy`, `DutyCycle.dfy` | the enable/disable table, the duty cycle of the control pilot |
| `DcSupply.dfy` | the DC setpoint from the EV's request to the power supply |
| `ModbusCrc.dfy` | the Modbus CRC-16 and the request frames |

Objects that change in place are classes whose methods follow the source; everything they send is appended to a
log. Clock readings, meter answers, cable ratings and session ids are parameters (`Env`), and so are the initial
values of members that the source leaves uninitialised. Each call under a mutex is one atomic step; a raw
control-pilot state and its evaluation are separate steps, so evaluations may come late and skip states. Currents,
voltages and duty cycles are reals. Session ids are assumed to be non-empty.

A run is proved by an invariant over fields and monitors (`Charger.Inv`, `IecStateMachine.Valid`); the monitors are
then shown to mean rules about the log alone (`StepIsLawful` in both rules modules). So every object that satisfies
its invariant has a lawful log that agrees with its fields (`ValidMeaning` in both run modules). The drivers return
the object they ran: its ghost `history` holds the calls, and the log they speak about is its own. Runs that serve as
examples give their calls one by one in `history`. Invariants are folded behind the term `Recall`: a method that only
passes an invariant on never looks inside, one that needs it mentions `Recall(0)`.

## Where the code does less than one might expect

The members named show it at an input, or say exactly when it happens.

- The DC cable check is granted before the error check and again in every pass, while the shutdown routine runs only
  once. So a grant stands under a fatal error from the second pass on (`GrantStandsUnderError`). It stands exactly if
  it stood before or both sides ask, and no routine is due (`Charger.GrantThenCheck`); it is the only grant that does
  (`EndOfRun`, `RunStation`), and never in fixed AC mode. Between the check that sees an error and the contactor
  command of its routine, within one call, other grants still stand (`ChargerRules.ErrorInCall`).
- The SoC timeout ends a pass before the present state is initialised, and the next pass no longer sees a new state.
  So an unplugged charger can stay in StoppingCharging for good (`UnplugIsCutShort`), or leave Finished for Idle
  without closing its session, and with an active transaction dropped unreported. `Charger.ProcessEvent` says exactly
  when an unplug closes everything, for every charger that rests, by its timer, HLC flag, session and authorization
  before the call (`Charger.ClosesOnUnplug`). A timeout during the first of the three runs of `process_event` is
  harmless, and without a timeout during the call everything is closed unless the charger was stuck before. This is
  a failure of the class under arbitrary calls. In EvseManager only `setup_AC_mode` turns the timer on
  (`EvseManager.cpp:1408-1410`), and the slot for CarUnplugged that turns it off (`EvseManager.cpp:910-915`) is
  connected before the one that calls `process_event` (`EvseManager.cpp:926`).
- Going from Disabled back to Idle initialises Idle, which drops an active transaction without TransactionFinished
  (`TransactionIsLost`). A transaction is active exactly if it was started since Idle and since the last finish
  (`Agrees`), so it is lost exactly if it was started since the last finish but not since Idle.
- With connector 0, `enable_disable` lets state and decision fall apart (`DisableStationTwice`;
  `Charger.EnableDisable` gives the exact condition).
- The severity of a shutdown is that of the error which raised Inoperative, which is the first one in the order of the
  sources at that time. A severe error that comes later, or with an error of an earlier source, changes nothing
  (`HighSeverityComesLate`, `OwnErrorHidesForeign`; `RaisedWhen` and `RunErrorPipeline` say so for every history).
- "All errors cleared" ignores the over-voltage monitor (`ClearedMisreports`).
- An unknown board event makes a car plug in twice (`UnknownEventPlugsInTwice`). `IecStateMachine.Feed` gives the
  exact condition; an evaluation in Disabled always comes between (`IecRules.StepMeaning`).
- A car that shows E first, or D without ventilation, is never reported as plugged in, only as unplugged
  (`PlugThroughEIsMissed`, `PlugInDIsMissed`; `UnplugWithoutPlug` gives the exact condition).
- A grant that arrives after the six seconds of C1 are over is taken back by the evaluation that sees the PWM
  resume, because the expired timer is only stopped afterwards (`LateGrantIsLost`; `IecStateMachine.Powers`).
- A DC target that is within 0.000001 of the present one is not stored, so it may exceed a lowered limit by that much
  (`LoweredLimitIsMissed`; `DcSupply.HandleDynamicMode`).
- The setpoint sent may exceed the EV's limit (`SetpointIsTooHigh`; `SetpointExceedsLimit` says exactly when).
- Even an invalid pulse starts the time after which a BCB toggle counts as seen (`ToggleMeaning`).
- Responses over Modbus are accepted without a look at their CRC (`CorruptResponseIsTaken`; `ParseResponse`).
- `doc.rst` lists MREC11CableCheckFault among the errors that do not make the EvseManager inoperative; the code's
  ignore list does not hold it, and the model follows the code.

## Model

| member | source | states |
|---|---|---|
| ChargerRun.RunCharger | modules/EVSE/EvseManager/Charger.cpp:28-2059 | over every run of the constructor and any sequence of calls of all entry points, with any clocks and foreign answers: the charger that comes out has exactly these calls as its history, and every event in its own log is lawful given what it sent before (see `ChargerRules.StepMeaning`), with no shutdown routine left owed |
| ChargerRun.EndOfRun | modules/EVSE/EvseManager/Charger.cpp:28-2059 | at the end of every such run the fields of the charger agree with its log: charging states, and waiting states that lead there, imply a transaction start since Idle was initialised; session flag and id agree with the open session; authorized implies a session; a transaction is active exactly if one was started since Idle and since the last finish; the last duty cycle is that of the last signalled current unless it is F or 5 percent; in every mode a standing grant under a fatal error that was seen is one for the DC cable check; power and a running PWM never meet before a transaction start unless the SoC timeout fired since the grant; a CarUnplugged as the last call, whatever came before it, ends in Idle with session, authorization and transaction closed: from a charger at rest exactly as the state noted before the call tells (see `ProcessEvent`), and from any charger, if no SoC timeout is logged during the call, exactly if it was not stuck already, which takes an earlier SoC timeout; the shutdown type is what all events of the error handler amount to |
| ChargerRun.Play | modules/EVSE/EvseManager/Charger.cpp:89-146 | plays any calls on a charger that was just constructed: log, fields and history are that charger's own, and so are what it had sent and what was found before the last call; the invariant holds, and the end is what the calls ask for |
| ChargerRun.ValidMeaning | modules/EVSE/EvseManager/Charger.cpp:148-837 | every charger that satisfies the invariant, however it was reached: its own log is lawful and agrees with its fields, and power meets a running PWM only after a transaction start, unless the SoC timeout fired since the grant |
| ChargerWitness.GrantStandsUnderError | modules/EVSE/EvseManager/Charger.cpp:512-537 | the run of eight given calls in DC, with two rounds of the main loop after a fatal error: the error was seen and its routine run, and yet power is granted |
| ChargerWitness.TransactionIsLost | modules/EVSE/EvseManager/Charger.cpp:214-236 | the run of seven given calls in which disabling and enabling drops an active transaction: started since the last finish, but not since Idle, and never reported as finished |
| ChargerWitness.UnplugIsCutShort | modules/EVSE/EvseManager/Charger.cpp:171-177 | setup for AC with the SoC timeout, 71996 rounds of the main loop, plug in, unplug: the timeout fires in the pass that is to initialise StoppingCharging, and the charger stays there with its session open, however many rounds follow |
| ChargerRun.RunEnableDisable | modules/EVSE/EvseManager/Charger.cpp:1525-1581 | over every run of enable_disable calls from any construction, with rounds of the main loop between them, by history, log and state of the charger that comes out: its events alternate, starting with "disabled"; the published availability is the decision over the latest request of each source; if every call names a non-zero connector the state is Disabled exactly when that decision is "disabled" |
| ChargerRun.DisableStationTwice | modules/EVSE/EvseManager/Charger.cpp:1539-1547 | with connector 0 the state and the decision fall apart: after two given calls that disable the station the charger is in Idle while the availability in its log is "disabled" |
| ChargerRun.StandingIsLatest | modules/EVSE/EvseManager/Charger.cpp:1662-1676 | the requests that decide are, for each source, the last one it made |
| IecRun.RunIec | modules/EVSE/EvseManager/IECStateMachine.cpp:82-531 | over every interleaving of board events, PWM commands, grants, forced unlocks and evaluations: the state machine that comes out has exactly these calls as its history, and every event in its own log is lawful given the events before (see `IecRules.StepMeaning`); if the board was last told "on", the charger's permission stands and the last evaluation saw state C, or D with ventilation; power without PWM is bounded by six seconds between evaluations; relay closed implies connector locked; the plug flag is set exactly if the evaluations saw the plug since the last A |
| IecRun.RunForcedUnlock | modules/EVSE/EvseManager/IECStateMachine.cpp:500-519 | a run with a forced unlock in its history and its log cut in two there: where the connector is locked in B, after a forced unlock in B or C with the relay open nothing locks the connector again, whatever happens, as long as the relay stays open and the control pilot in B, C or D |
| IecRun.RelocksAfterB | modules/EVSE/EvseManager/IECStateMachine.cpp:191-201 | without locking in B a forced unlock does not last: over the given calls, C, forced unlock, B, C, the log ends with the connector locked |
| IecRun.UnknownEventPlugsInTwice | modules/EVSE/EvseManager/IECStateMachine.cpp:162-171 | over the given calls, B, an unknown board event, B, the log has two CarPluggedIn and no CarUnplugged |
| IecRun.PlugThroughEIsMissed | modules/EVSE/EvseManager/IECStateMachine.cpp:210-221 | over the given calls, A, E, B, A, the log has a CarUnplugged and no CarPluggedIn |
| IecRun.PlugInDIsMissed | modules/EVSE/EvseManager/IECStateMachine.cpp:224-231 | over the given calls without ventilation, A, D, A, the log has a CarUnplugged and no CarPluggedIn |
| IecRun.LateGrantIsLost | modules/EVSE/EvseManager/IECStateMachine.cpp:252-284 | over the given calls a grant after the six seconds of C1 is taken back by the evaluation that sees the PWM resume |
| Station.RunStation | modules/EVSE/EvseManager/IECStateMachine.cpp:366-434 | charger and IEC state machine together, the charger's events delivered one by one and in order, the board side moving between any two of them: at every moment of every run, after each event that arrives and each move of the board side, power on the board rests on a standing grant and on state C or D; with the PWM running also on a transaction start since Idle, unless the SoC timeout fired since the grant; under a fatal error that the charger has seen only on a grant for the cable check, and never in fixed AC mode, except while the call that sees the error has not sent its contactor command yet; power without PWM is bounded |
| ErrorRun.RunErrorPipeline | modules/EVSE/EvseManager/ErrorHandling.cpp:130-261 | after any history of raised, cleared, processed and drained errors, interleaved with any other calls of any charger, for the very handler and charger that come out: the errors are those of the history, Inoperative is active exactly while there is a cause, and what the charger has applied plus what is still queued is exactly the shutdown type of that cause; once the errors were processed Inoperative is active exactly while a connected source has an error that is not ignored |
| ErrorRun.Play | modules/EVSE/EvseManager/ErrorHandling.cpp:130-261 | plays any history on a new error handler and a new charger: errors and cause are those of the history, and the charger has applied exactly what it took from the queue |
| ErrorRun.RaisedWhen | modules/EVSE/EvseManager/ErrorHandling.cpp:163-253 | the cause is the first error that is not ignored, in the order in which the sources are asked, at the time when Inoperative was raised; errors that come later do not change it while Inoperative stays |
| ErrorRun.SettledMeaning | modules/EVSE/EvseManager/ErrorHandling.cpp:130-138 | once the errors were processed there is a cause exactly while some error is not ignored |
| ErrorRun.HighSeverityComesLate | modules/EVSE/EvseManager/ErrorHandling.cpp:230-253 | two own errors raised in turn and drained: error handler and charger after these three inputs, with the high-severity error active and the queue empty, are still in an error shutdown |
| DcSupply.RunSupply | modules/EVSE/EvseManager/EvseManager.cpp:530-691 | over every run, by the log of the supply that comes out: each target is the largest that the request and the limits received last allow, and each dynamic target has the largest current within the common bounds at the voltage that applied, and the voltage of its direction; each setpoint lies in the voltage range and, unless derating left it empty, in the current range that the supply reported last, derated as received last, and follows the direction received last; the supply counts as on exactly when the last mode command was not Off |
| ChargerRules.StepMeaning | modules/EVSE/EvseManager/Charger.cpp:148-837 | the rule book: before every event, power and a running PWM meet only after a transaction start since Idle, unless the SoC timeout fired since the grant; sessions alternate; transactions start only when authorized; a transaction is reported as finished only once per start and with the latest cancel since the start, or as EVDisconnected; power is granted only after a transaction start since Idle, under a fatal error, whether just set or seen already, only for the DC cable check and never in fixed AC mode; over-current is judged by the configured tolerance over the signalled current, which in basic charging is that of the duty cycle on the wire; a shutdown routine runs exactly once per observed change; availability events alternate |
| ChargerRules.StepsAreLawful | modules/EVSE/EvseManager/Charger.cpp:148-837 | if no monitor flag is broken at the end of a log, every event of the log was lawful when it was sent |
| ChargerRules.MonitorMeaning | modules/EVSE/EvseManager/Charger.cpp:2009-2028 | ... and no shutdown routine is left owed at the end |
| ChargerRules.PilotMeaning | modules/EVSE/EvseManager/Charger.cpp:238-282 | the monitors say exactly that power and a running PWM meet only after a transaction start, unless the SoC timeout fired since the grant |
| ChargerRules.ErrorInCall | modules/EVSE/EvseManager/Charger.cpp:2009-2028 | within a call of a lawful log, too: after every single event a grant under a fatal error that was seen is one for the cable check, or the error was seen in this call and no contactor command was sent since |
| ChargerRules.SessionMeaning | modules/EVSE/EvseManager/Charger.cpp:1211-1230 | the monitor's flag is that the last session event was a start |
| ChargerRules.AuthMeaning | modules/EVSE/EvseManager/Charger.cpp:1456-1504 | the monitor's flag is that the last event about authorization granted it |
| ChargerRules.StartMeaning | modules/EVSE/EvseManager/Charger.cpp:1232-1235 | the monitor's flag is that a transaction start came after the last initialisation of Idle |
| ChargerRules.FinishMeaning | modules/EVSE/EvseManager/Charger.cpp:1176-1209 | the monitor holds the latest cancel since the latest start, and whether a start came after the last finish |
| ChargerRules.BoardMeaning | modules/EVSE/EvseManager/Charger.cpp:989-1047 | the monitor holds the last duty cycle sent |
| ChargerRules.GrantMeaning | modules/EVSE/EvseManager/Charger.cpp:526-537 | the monitor holds the last contactor command and its reason |
| ChargerRules.TimeoutMeaning | modules/EVSE/EvseManager/Charger.cpp:171-177 | the monitor holds whether the SoC timeout fired after the last contactor command |
| ChargerRules.FiresMeaning | modules/EVSE/EvseManager/Charger.cpp:171-177 | the monitor counts the SoC timeouts of the log |
| ChargerRules.FiresSince | modules/EVSE/EvseManager/Charger.cpp:171-177 | the count does not change over a stretch of the log without a SoC timeout |
| ChargerRules.ToleranceMeaning | modules/EVSE/EvseManager/Charger.cpp:1754-1791 | the monitor holds the tolerance configured last |
| ChargerRules.FatalMeaning | modules/EVSE/EvseManager/Charger.cpp:116-146 | the monitor holds the shutdown type set last, and whether the charger was ever configured for DC |
| ChargerRules.ObservedMeaning | modules/EVSE/EvseManager/Charger.cpp:2009-2028 | the monitor holds the shutdown type seen last |
| ChargerRules.OwedMeaning | modules/EVSE/EvseManager/Charger.cpp:2009-2028 | a routine is owed exactly after a check that saw a change to a type that stops charging |
| ChargerRules.AvailabilityMeaning | modules/EVSE/EvseManager/Charger.cpp:1506-1581 | the monitor holds the availability published last |
| ChargerRun.RestMeaning | modules/EVSE/EvseManager/Charger.cpp:148-837 | the invariant of the fields, restated about the log alone |
| ChargerMachine.Charger.constructor | modules/EVSE/EvseManager/Charger.cpp:28-80 | starts in Idle, enabled, without session and transaction; members the source leaves uninitialised are arbitrary, the SoC timer and the HLC flag of the session among them |
| ChargerMachine.Charger.StartMainThread | modules/EVSE/EvseManager/Charger.cpp:89-96 | sends enable, the maximum current and the state |
| ChargerMachine.Charger.MainLoop | modules/EVSE/EvseManager/Charger.cpp:98-113 | one round keeps the invariant; a charger at rest, be it Idle, Disabled, with an unauthorized car, in PrepareCharging in DC or under an error, paused, or in a StoppingCharging that was cut short, stays in its state, its SoC timer goes down by 50, and the timeout fires exactly if less than 50 was left; in DC an authorized car goes on to PrepareCharging with its transaction active |
| ChargerMachine.Charger.ProcessErrorEvents | modules/EVSE/EvseManager/Charger.cpp:116-146 | a batch sets the shutdown type to what its events amount to in order, and changes nothing else |
| ChargerMachine.Charger.RunStateMachine | modules/EVSE/EvseManager/Charger.cpp:148-837 | terminates after one to five passes from every reachable state, so the warning at ten runs is never reached; keeps the invariant; a car that left ends in Idle with everything closed unless the SoC timeout fires in this very run |
| ChargerMachine.Charger.Pass | modules/EVSE/EvseManager/Charger.cpp:153-836 | a freshly entered state only leaves to one of lower rank; the SoC timeout fires exactly when its time is up, and then state, session, transaction and PWM stay as they are, so that a freshly entered state is never initialised; in PrepareCharging power stays granted exactly if it was, or is granted for the cable check, and no shutdown routine was due |
| ChargerMachine.Charger.CountDownSoc | modules/EVSE/EvseManager/Charger.cpp:171-177 | counts down while enabled; up exactly when below zero |
| ChargerMachine.Charger.AnnounceState | modules/EVSE/EvseManager/Charger.cpp:179-194 | a new state is announced with its start time; an interrupted phase switch is completed |
| ChargerMachine.Charger.PassDisabled | modules/EVSE/EvseManager/Charger.cpp:196-201 | initialisation publishes Disabled and signals F |
| ChargerMachine.Charger.PassReplug | modules/EVSE/EvseManager/Charger.cpp:203-212 | initialisation publishes ReplugStarted and shortens an enabled SoC timer |
| ChargerMachine.Charger.InitIdle | modules/EVSE/EvseManager/Charger.cpp:216-235 | forgets car, authorization and transaction, PWM off first, errors of the last session cleared last |
| ChargerMachine.Charger.PassIdle | modules/EVSE/EvseManager/Charger.cpp:214-236 | only initialisation changes anything; a transaction that was active is dropped without a report |
| ChargerMachine.Charger.InitWaitingForAuthentication | modules/EVSE/EvseManager/Charger.cpp:243-282 | takes any grant back before the PWM may start; opens a session unless one is open or the car was replugged; chooses HLC and 5 percent as configured |
| ChargerMachine.Charger.CheckCableAndEnergy | modules/EVSE/EvseManager/Charger.cpp:284-311 | goes on exactly when a socket has its cable rating |
| ChargerMachine.Charger.LeaveForCharging | modules/EVSE/EvseManager/Charger.cpp:342-419 | the way into charging of figures 3 to 8 of ISO 15118-3, by HLC, matching and 5 percent mode |
| ChargerMachine.Charger.ProceedIfAuthorized | modules/EVSE/EvseManager/Charger.cpp:332-450 | leaves exactly when authorized and past the billing meters, with a transaction active |
| ChargerMachine.Charger.PassWaitingForAuthentication | modules/EVSE/EvseManager/Charger.cpp:238-452 | left exactly when authorized, past the billing meters and with a cable rating, and then with an active transaction; opens the session |
| ChargerMachine.Charger.PassSwitchPhases | modules/EVSE/EvseManager/Charger.cpp:454-470 | waits the configured time in F or X1, then commands the phases and returns to the stored state |
| ChargerMachine.Charger.PassTStepEF | modules/EVSE/EvseManager/Charger.cpp:472-493 | F for 4 s, X1 for 750 ms, then the stored PWM and the stored state |
| ChargerMachine.Charger.PassTStepX1 | modules/EVSE/EvseManager/Charger.cpp:495-510 | X1 for 3 s, then the stored state; the stored PWM is always "off" |
| ChargerMachine.Charger.InitPrepareCharging | modules/EVSE/EvseManager/Charger.cpp:513-524 | announces the state, resets the toggle detector, reports missing energy in DC |
| ChargerMachine.Charger.GrantForCableCheck | modules/EVSE/EvseManager/Charger.cpp:526-530 | grants power exactly in DC when HLC and control pilot both ask |
| ChargerMachine.Charger.GrantThenCheck | modules/EVSE/EvseManager/Charger.cpp:526-537 | the grant comes before the error check: it stands exactly if no routine was due, however many passes the error lasts; an error restarts the time in the state |
| ChargerMachine.Charger.EnablePwm | modules/EVSE/EvseManager/Charger.cpp:539-544 | 5 percent or the duty cycle of the present limit |
| ChargerMachine.Charger.ProceedToCharging | modules/EVSE/EvseManager/Charger.cpp:546-580 | energy, request, one legacy wake-up after 30 s, pause by the EV 10 s after it |
| ChargerMachine.Charger.PassPrepareCharging | modules/EVSE/EvseManager/Charger.cpp:512-591 | stays under a fatal error and in DC, where power stays granted exactly if no routine was due; otherwise goes where energy, request and time lead |
| ChargerMachine.Charger.SignalFault | modules/EVSE/EvseManager/Charger.cpp:608-621 | F when a fatal error first shows in basic charging, X1 after the configured time of an emergency |
| ChargerMachine.Charger.KeepCharging | modules/EVSE/EvseManager/Charger.cpp:637-658 | grants power exactly when charging starts or resumes; PWM updates at most every five seconds |
| ChargerMachine.Charger.PassCharging | modules/EVSE/EvseManager/Charger.cpp:593-661 | leaves only for lack of energy in AC; a fatal error takes the grant back exactly when its routine is due |
| ChargerMachine.Charger.PauseUnderHlc | modules/EVSE/EvseManager/Charger.cpp:680-713 | power off, then stop, wake-up by a BCB toggle, or wait |
| ChargerMachine.Charger.PauseInBasicCharging | modules/EVSE/EvseManager/Charger.cpp:715-730 | waits for energy exactly when the budget is gone |
| ChargerMachine.Charger.PassChargingPausedEV | modules/EVSE/EvseManager/Charger.cpp:663-730 | keeps the invariant in both kinds of pause; an HLC pause takes the grant back |
| ChargerMachine.Charger.PassChargingPausedEVSE | modules/EVSE/EvseManager/Charger.cpp:732-758 | X1 in basic charging; stops exactly when HLC terminated |
| ChargerMachine.Charger.PassWaitingForEnergy | modules/EVSE/EvseManager/Charger.cpp:760-767 | X1 unless 5 percent is in use |
| ChargerMachine.Charger.InitStoppingCharging | modules/EVSE/EvseManager/Charger.cpp:770-790 | basic charging goes on to Finished at once |
| ChargerMachine.Charger.PassStoppingCharging | modules/EVSE/EvseManager/Charger.cpp:769-805 | HLC restarts on a BCB toggle exactly while the transaction is active |
| ChargerMachine.Charger.PassFinished | modules/EVSE/EvseManager/Charger.cpp:807-826 | closes what is open, then Idle |
| ChargerMachine.Charger.ProcessCpEventIndependent | modules/EVSE/EvseManager/Charger.cpp:956-987 | the new state, contactor flag, request flag and transaction of an event in any state |
| ChargerMachine.Charger.ProcessCpEventState | modules/EVSE/EvseManager/Charger.cpp:870-954 | the new state, request flag and toggle detector of an event, and exactly what is sent to the supply and to HLC, by the present state |
| ChargerMachine.Charger.ProcessEvent | modules/EVSE/EvseManager/Charger.cpp:839-868 | keeps the invariant; contactor and request flags follow the event; from every state at rest CarUnplugged ends in Idle with session, authorization and transaction closed exactly if `ClosesOnUnplug` holds before the call: not stuck, and if the SoC timer is on with 50 to 149 left, then at least 100 left and the session authorized or none open, of which one is enough under HLC; it ends stuck in StoppingCharging exactly if it was, or without HLC with 50 to 99 left; where Finished is cut off an active transaction is dropped unreported; from any state, if the timeout does not fire, everything ends closed exactly if the charger was not stuck; plugging in opens a session and waits for authorization |
| ChargerMachine.Charger.ActInAnyState | modules/EVSE/EvseManager/Charger.cpp:956-987 | from any rest CarUnplugged leads to Idle with everything closed, or to a cut-off Finished that the next run leaves with everything closed, exactly if the SoC timer leaves time for two more passes, or for one if the session is authorized or none is open; under HLC one pass less |
| ChargerMachine.Charger.UpdatePwm5PercentIfChanged | modules/EVSE/EvseManager/Charger.cpp:1017-1021 | sends 5 percent exactly when it is not the present duty cycle |
| ChargerMachine.Charger.UpdatePwmNowIfChangedAmpere | modules/EVSE/EvseManager/Charger.cpp:1023-1029 | sends the duty cycle of a current exactly when it changes, and then remembers the current |
| ChargerMachine.Charger.UpdatePwmMaxEvery5Seconds | modules/EVSE/EvseManager/Charger.cpp:989-1000 | the same, but at most every five seconds |
| ChargerMachine.Charger.ResumePwmAfterEF | modules/EVSE/EvseManager/Charger.cpp:478-487 | restores the stored duty cycle together with its current |
| ChargerMachine.Charger.PwmOff | modules/EVSE/EvseManager/Charger.cpp:1031-1038 | X1, and no signalled current |
| ChargerMachine.Charger.PwmF | modules/EVSE/EvseManager/Charger.cpp:1040-1047 | F, and no signalled current |
| ChargerMachine.Charger.PowerAvailable | modules/EVSE/EvseManager/Charger.cpp:1793-1803 | a budget a full second overdue falls to zero with a signal; available exactly above 5.9 A |
| ChargerMachine.Charger.CheckSoftOverCurrent | modules/EVSE/EvseManager/Charger.cpp:1754-1791 | raises the error exactly when the overdraw has lasted the configured time, with the current the EV was told |
| BcbToggle.ReplayCounts | modules/EVSE/EvseManager/Charger.cpp:1932-1974 | after any pulses since a reset the detector counts exactly the unbroken run of valid pulses at the end, timed from its first one |
| BcbToggle.ToggleMeaning | modules/EVSE/EvseManager/Charger.cpp:1976-1987 | a toggle is seen exactly from the third valid pulse in a row on, or when the time since the sequence began is over, which even an invalid pulse begins |
| ChargerMachine.Charger.RunEmergencyShutdown | modules/EVSE/EvseManager/Charger.cpp:2030-2044 | PWM off if running, DC supply off, contactors open |
| ChargerMachine.Charger.RunErrorShutdown | modules/EVSE/EvseManager/Charger.cpp:2046-2059 | DC supply off, contactors open, error to HLC, PWM kept |
| ChargerMachine.Charger.HandleShutdownType | modules/EVSE/EvseManager/Charger.cpp:2009-2028 | check first, then the routine of the type exactly when it is due |
| ChargerMachine.Charger.StopChargingOnFatalErrorInternal | modules/EVSE/EvseManager/Charger.cpp:2009-2028 | reports exactly the types that stop charging; takes the grant back exactly when a routine is due |
| ChargerMachine.Charger.StartSession | modules/EVSE/EvseManager/Charger.cpp:1211-1223 | opens a session with a new id, by plug-in or by authorization |
| ChargerMachine.Charger.StopSession | modules/EVSE/EvseManager/Charger.cpp:1225-1230 | closes session and authorization, clears the id |
| ChargerMachine.Charger.StartTransaction | modules/EVSE/EvseManager/Charger.cpp:1232-1268 | active in any case; fails exactly if a meter fails and that is configured to matter |
| ChargerMachine.Charger.StopTransaction | modules/EVSE/EvseManager/Charger.cpp:1270-1298 | ends the active transaction and reports it with the latest cancel since the start or as EVDisconnected; meter values of the first meter with a definite answer |
| ChargerMachine.Charger.DeauthorizeInternal | modules/EVSE/EvseManager/Charger.cpp:1483-1504 | withdraws exactly an authorization that is not in use |
| ChargerMachine.Charger.SetMaxCurrent | modules/EVSE/EvseManager/Charger.cpp:1079-1102 | accepts exactly a valid budget within bounds; signals the cable-limited value with the sign of the request |
| ChargerMachine.Charger.PauseCharging | modules/EVSE/EvseManager/Charger.cpp:1105-1116 | pauses exactly from Charging |
| ChargerMachine.Charger.ResumeCharging | modules/EVSE/EvseManager/Charger.cpp:1118-1134 | resumes exactly a user pause of an active transaction |
| ChargerMachine.Charger.PauseChargingWaitForPower | modules/EVSE/EvseManager/Charger.cpp:1137-1150 | leaves exactly Charging and ChargingPausedEV |
| ChargerMachine.Charger.ResumeChargingPowerAvailable | modules/EVSE/EvseManager/Charger.cpp:1153-1162 | resumes exactly a wait for energy of an active transaction with a valid budget above 5.9 A |
| ChargerMachine.Charger.CancelTransaction | modules/EVSE/EvseManager/Charger.cpp:1176-1209 | accepted exactly with an active transaction; stopped now exactly if the contactor is open, with reason and token of the request |
| ChargerMachine.Charger.SwitchThreePhasesWhileCharging | modules/EVSE/EvseManager/Charger.cpp:1353-1376 | refused under HLC; waits in a state of its own from Charging and WaitingForEnergy, otherwise direct |
| ChargerMachine.Charger.Setup | modules/EVSE/EvseManager/Charger.cpp:1378-1411 | takes the configuration over, keeps the invariant |
| ChargerMachine.Charger.Authorize | modules/EVSE/EvseManager/Charger.cpp:1456-1476 | opens a session first if none is open; withdrawal closes it |
| ChargerMachine.Charger.Deauthorize | modules/EVSE/EvseManager/Charger.cpp:1478-1481 | as the internal operation |
| ChargerMachine.Charger.EnableDisableInitialStatePublish | modules/EVSE/EvseManager/Charger.cpp:1506-1523 | publishes the startup state and enters it into the table |
| ChargerMachine.Charger.Decide | modules/EVSE/EvseManager/Charger.cpp:1528-1537 | the request replaces that of its source; the decision is the one of all standing requests; announced exactly if it changed |
| ChargerMachine.Charger.EnableDisable | modules/EVSE/EvseManager/Charger.cpp:1525-1581 | new state, connector flag and events; from any state, in step or not, the exact condition on the call and the state before it for state and decision to be in step after it |
| ChargerMachine.Charger.RequestErrorSequence | modules/EVSE/EvseManager/Charger.cpp:1805-1819 | T_step_EF exactly from WaitingForAuthentication and PrepareCharging, to return there with 5 percent or X1 |
| ChargerMachine.Charger.NotifyCurrentDemandStarted | modules/EVSE/EvseManager/Charger.cpp:1826-1833 | charging starts exactly from PrepareCharging |
| ChargerMachine.Charger.DlinkPause | modules/EVSE/EvseManager/Charger.cpp:1858-1863 | HLC permission gone, PWM off, pause noted |
| ChargerMachine.Charger.DlinkTerminate | modules/EVSE/EvseManager/Charger.cpp:1866-1871 | HLC permission gone, PWM off, termination noted |
| ChargerMachine.Charger.DlinkError | modules/EVSE/EvseManager/Charger.cpp:1873-1919 | restarts through X1 and E/F exactly if the 5 percent PWM is running |
| ChargerMachine.Charger.StopChargingOnFatalError | modules/EVSE/EvseManager/Charger.cpp:1989-1992 | as the internal operation |
| DutyCycle.DutyCycleMonotone | modules/EVSE/EvseManager/Charger.cpp:1054-1077 | monotone on 5.9 A to 80.1 A; never 0 or 5 percent |
| DutyCycle.DutyCycleRunning | modules/EVSE/EvseManager/IECStateMachine.cpp:366-374 | counts as running exactly for 5.9 A to 80.1 A, and is 1.0 outside |
| DutyCycle.DutyCycleRoundTrip | modules/EVSE/EvseManager/Charger.cpp:1054-1077 | what an EV reads back by Annex A of IEC 61851-1 is at most the requested current exactly from 6 A on, and at most 1.5 A below it |
| EnableTable.UpdateTable | modules/EVSE/EvseManager/Charger.cpp:1662-1676 | last write wins, one entry per source |
| EnableTable.ReplayTable | modules/EVSE/EvseManager/Charger.cpp:1662-1676 | after any history of writes the table holds exactly the latest request of each source |
| EnableTable.LatestAfterWrite | modules/EVSE/EvseManager/Charger.cpp:1662-1676 | one more write replaces the latest request of its source and no other |
| EnableTable.ParseTable | modules/EVSE/EvseManager/Charger.cpp:1583-1660 | disabled exactly if some Disable request has a priority number no larger than every assigned request; the winner beats all, Disable wins ties |
| EnableTable.DecisionMeaning | modules/EVSE/EvseManager/Charger.cpp:1583-1660 | a winner that beats all decides as the unordered rule does |
| EnableTable.OrderIrrelevant | modules/EVSE/EvseManager/Charger.cpp:1583-1660 | the decision does not depend on the order of the table |
| IecRules.StepMeaning | modules/EVSE/EvseManager/IECStateMachine.cpp:145-334 | the rule book: every "on" comes from an evaluation in C or ventilated D with PWM running and uses a grant given after the last "off", with its reason; no unlock while the relay is closed, no double lock; CarPluggedIn and CarUnplugged are exactly those that the evaluations call for, each sent before the next evaluation; two CarPluggedIn have a CarUnplugged or an evaluation in Disabled between them |
| IecRules.StepsAreLawful | modules/EVSE/EvseManager/IECStateMachine.cpp:145-334 | if no monitor flag is broken at the end of a log, every event of the log was lawful when it was sent |
| IecRules.BoundMeaning | modules/EVSE/EvseManager/IECStateMachine.cpp:252-275 | while the board is on, any two evaluations of a stretch without PWM are at most six seconds apart |
| IecRules.OffSinceMeaning | modules/EVSE/EvseManager/IECStateMachine.cpp:252-256 | the monitor's time is not later than any evaluation of the present stretch without PWM |
| IecRules.GrantMeaning | modules/EVSE/EvseManager/IECStateMachine.cpp:410-434 | the monitor holds the charger's grant since the last "off" |
| IecRules.LockMeaning | modules/EVSE/EvseManager/IECStateMachine.cpp:521-531 | the monitor holds the last lock signal and the last relay report |
| IecRules.PlugMeaning | modules/EVSE/EvseManager/IECStateMachine.cpp:173-221 | the monitor holds whether the last plug event was CarPluggedIn |
| IecRules.SeenMeaning | modules/EVSE/EvseManager/IECStateMachine.cpp:173-222 | the car counts as plugged in exactly if an evaluation saw its plug directly after A, F, Disabled or the start, and none saw A since |
| IecRules.OwedMeaning | modules/EVSE/EvseManager/IECStateMachine.cpp:173-293 | the monitor holds the plug event that the last evaluation calls for and that was not sent yet |
| IecRules.SignalMeaning | modules/EVSE/EvseManager/IECStateMachine.cpp:131-139 | the monitor counts the plug events of the log |
| IecRules.LastMeaning | modules/EVSE/EvseManager/IECStateMachine.cpp:145-171 | the monitor holds the state of the last evaluation, and whether one in Disabled came after the last plug event |
| IecRules.UnplugWithoutPlug | modules/EVSE/EvseManager/IECStateMachine.cpp:173-189 | in any lawful log with known board events, a CarUnplugged follows no CarPluggedIn exactly if no evaluation since the last A saw the plug directly after A, F or the start |
| IecRun.ValidMeaning | modules/EVSE/EvseManager/IECStateMachine.cpp:145-334 | every state machine that satisfies the invariant: its own log is lawful and agrees with its fields |
| IecRun.HeldMeaning | modules/EVSE/EvseManager/IECStateMachine.cpp:500-531 | a forced unlock in effect means an unlocked connector |
| IecMachine.IecStateMachine.constructor | modules/EVSE/EvseManager/IECStateMachine.cpp:82-98 | everything off, unlocked, not enabled |
| IecMachine.IecStateMachine.CheckConnectorLock | modules/EVSE/EvseManager/IECStateMachine.cpp:521-531 | locked exactly if the relay is closed, or it should be and is not forced open; signals exactly the change |
| IecMachine.IecStateMachine.ConnectorForceUnlock | modules/EVSE/EvseManager/IECStateMachine.cpp:500-519 | unlocked exactly if the relay is open; lasting in B and C |
| IecMachine.IecStateMachine.StateA | modules/EVSE/EvseManager/IECStateMachine.cpp:173-189 | unplug: PWM, power, lock and plug flag go, CarUnplugged unless the car was not there |
| IecMachine.IecStateMachine.StateB | modules/EVSE/EvseManager/IECStateMachine.cpp:191-222 | lock as configured; power off and CarRequestedStopPower unless the car just came; plug-in |
| IecMachine.IecStateMachine.StateC | modules/EVSE/EvseManager/IECStateMachine.cpp:235-293 | lock; plug-in or request; power exactly by permission, edges and the six-second timer; timer control |
| IecMachine.IecStateMachine.SwitchInStateC | modules/EVSE/EvseManager/IECStateMachine.cpp:258-284 | on exactly if permitted, the six seconds are not over, and it was on or PWM, permission or request is new |
| IecMachine.IecStateMachine.StateDUnventilated | modules/EVSE/EvseManager/IECStateMachine.cpp:224-231 | lock, power off |
| IecMachine.IecStateMachine.StateE | modules/EVSE/EvseManager/IECStateMachine.cpp:295-308 | unlock; on entry PWM and power off and the transition events |
| IecMachine.IecStateMachine.StateF | modules/EVSE/EvseManager/IECStateMachine.cpp:310-325 | power off; unlock exactly after five seconds; the transition event |
| IecMachine.IecStateMachine.StateDisabled | modules/EVSE/EvseManager/IECStateMachine.cpp:162-171 | on entry everything off and unlocked |
| IecMachine.IecStateMachine.StateMachine | modules/EVSE/EvseManager/IECStateMachine.cpp:145-364 | one evaluation: on exactly as `Powers` says, events exactly as `Announces` says, lock in line, power without PWM only with the timer running and at most six seconds old |
| IecMachine.IecStateMachine.Feed | modules/EVSE/EvseManager/IECStateMachine.cpp:131-139 | an evaluation whose events are signalled in order, plug events counted; a second CarPluggedIn for a plugged car comes exactly from an evaluation that sees the plug after one in Disabled |
| IecMachine.IecStateMachine.ProcessRawState | modules/EVSE/EvseManager/IECStateMachine.cpp:100-109 | remembered for the next evaluation if the board is enabled, otherwise ignored |
| IecMachine.IecStateMachine.ProcessBoardEvent | modules/EVSE/EvseManager/IECStateMachine.cpp:110-123 | relay tracked, lock brought in line, event passed on |
| IecMachine.IecStateMachine.SetPwm | modules/EVSE/EvseManager/IECStateMachine.cpp:366-385 | runs exactly strictly between 0 and 1; the simplified-mode limit caps what the board gets |
| IecMachine.IecStateMachine.SetPwmOff | modules/EVSE/EvseManager/IECStateMachine.cpp:388-396 | X1 |
| IecMachine.IecStateMachine.SetPwmF | modules/EVSE/EvseManager/IECStateMachine.cpp:399-407 | F |
| IecMachine.IecStateMachine.AllowPowerOn | modules/EVSE/EvseManager/IECStateMachine.cpp:410-424 | a grant is only remembered, a refusal reaches the board at once |
| IecMachine.IecStateMachine.Enable | modules/EVSE/EvseManager/IECStateMachine.cpp:476-479 | enables or disables board events |
| ErrorHandlers.ErrorHandling.ProcessError | modules/EVSE/EvseManager/ErrorHandling.cpp:130-160 | Inoperative is active exactly while some error is not ignored, raised for the first such error in the order of the sources; exactly the event of its severity is sent when it is raised, one when it is cleared, none otherwise; "all cleared" exactly when no source but the over-voltage monitor has an error; no other error changes |
| ErrorHandlers.ClearedMisreports | modules/EVSE/EvseManager/ErrorHandling.cpp:145-159 | "all cleared" is wrong exactly when only warnings of the over-voltage monitor are left |
| ErrorHandlers.ErrorHandling.UpdateInoperative | modules/EVSE/EvseManager/ErrorHandling.cpp:130-138 | Inoperative follows the errors with the first one as its cause, the events follow the cause, and nothing else changes |
| ErrorHandlers.ErrorHandling.ErrorsPreventCharging | modules/EVSE/EvseManager/ErrorHandling.cpp:163-228 | returns exactly the first error that is not ignored of the first source that has one |
| ErrorHandlers.FirstFatalMeaning | modules/EVSE/EvseManager/ErrorHandling.cpp:165-172 | the first error that is not ignored, or none exactly if all are |
| ErrorHandlers.CauseFromMeaning | modules/EVSE/EvseManager/ErrorHandling.cpp:175-227 | no source before that of the cause has an error that is not ignored, and none before it in its source |
| ErrorHandlers.CauseMeaning | modules/EVSE/EvseManager/ErrorHandling.cpp:163-228 | there is a cause exactly if some connected source has an error that is not ignored |
| ErrorHandlers.OwnErrorHidesForeign | modules/EVSE/EvseManager/ErrorHandling.cpp:163-228 | a new error of the EvseManager is the cause whatever other sources have, and however severe |
| ErrorHandlers.ErrorHandling.RaiseInoperativeError | modules/EVSE/EvseManager/ErrorHandling.cpp:230-253 | raised once; the severity of the cause decides the event; other errors keep their order |
| ErrorHandlers.ErrorHandling.ClearInoperativeError | modules/EVSE/EvseManager/ErrorHandling.cpp:255-261 | cleared if active, with its event |
| ErrorHandlers.ErrorHandling.CountErrors | modules/EVSE/EvseManager/ErrorHandling.cpp:143-155 | zero exactly when no source but the over-voltage monitor has an error |
| ErrorHandlers.ErrorHandling.RaiseOwnError | modules/EVSE/EvseManager/ErrorHandling.cpp:112-119 | an own error always makes Inoperative active; nothing is sent if it already was, else the event of the first cause |
| ErrorHandlers.ErrorHandling.ClearOwnError | modules/EVSE/EvseManager/ErrorHandling.cpp:121-127 | exactly this error is gone and all others stay; they are processed always for over-current, otherwise only if it was active |
| ErrorHandlers.OwnErrorIsFatal | modules/EVSE/EvseManager/ErrorHandling.cpp:35-47 | every own error but Inoperative stops charging |
| ErrorHandlers.InoperativeIsNeutral | modules/EVSE/EvseManager/ErrorHandling.cpp:37-38 | raising or clearing Inoperative does not change whether charging is prevented |
| Common.AppliedInBatches | modules/EVSE/EvseManager/Charger.cpp:116-146 | applying two batches is applying their concatenation |
| EventQueues.EventQueue.Push | modules/EVSE/EvseManager/EventQueue.hpp:23-29 | appended at the end |
| EventQueues.EventQueue.GetEvents | modules/EVSE/EvseManager/EventQueue.hpp:31-36 | everything pending is handed over in order, nothing stays |
| EventQueues.EventQueue.Wait | modules/EVSE/EvseManager/EventQueue.hpp:38-45 | the same, once something is pending |
| DcSupply.LimitRequest | modules/EVSE/EvseManager/EvseManager.cpp:538-566 | the largest current up to the request that keeps the EV's, the EVSE's and the power limit, at the requested voltage or the EV's limit |
| DcSupply.LimitByPower | modules/EVSE/EvseManager/EvseManager.cpp:559-566 | the largest current up to the given one that keeps the power limit |
| DcSupply.MinOptional | modules/EVSE/EvseManager/EvseManager.cpp:2242-2254 | the smaller of the values that are there |
| DcSupply.Derated | modules/EVSE/EvseManager/EvseManager.cpp:2265-2285 | never more than the supply or the derating allows, and one of the two |
| DcSupply.CommonBounds | modules/EVSE/EvseManager/EvseManager.cpp:612-654 | never more and never less power, and never more current, than either side allows, for charging and for feeding back |
| DcSupply.DynamicCurrent | modules/EVSE/EvseManager/EvseManager.cpp:667-671 | no larger current keeps the common current bound and, at a positive voltage, the common power bound |
| DcSupply.DcSupply.HandleTarget | modules/EVSE/EvseManager/EvseManager.cpp:530-590 | the stored target is the best one within every limit; a changed one is passed on with exactly the mode, setpoint and switching commands it calls for, an unchanged one not at all; ignored exactly for the cars of the hack option |
| DcSupply.DcSupply.HandleDynamicMode | modules/EVSE/EvseManager/EvseManager.cpp:592-691 | refused exactly for contradicting power bounds; stored exactly unless both values are within 0.000001 of the present target; passed on exactly if stored or if the energy flow turned, and the supply switched on exactly if the contactors are closed then |
| DcSupply.DcSupply.PowerSupplyOn | modules/EVSE/EvseManager/EvseManager.cpp:1989-1996 | export mode is commanded exactly if the supply was off |
| DcSupply.DcSupply.PowerSupplyOff | modules/EVSE/EvseManager/EvseManager.cpp:2096-2103 | off is commanded exactly if the supply was on; the phase is reset |
| DcSupply.DcSupply.PowerSupplySet | modules/EVSE/EvseManager/EvseManager.cpp:2000-2094 | exactly one mode command when the direction turned or the phase changed while on, and exactly one setpoint for a voltage in range: a current in range as it is, any other as the nearer end of the range, towards the EV or the grid |
| DcSupply.SetpointExceedsLimit | modules/EVSE/EvseManager/EvseManager.cpp:2012-2094 | the setpoint for a target within the EV's limit exceeds that limit exactly if the supply cannot deliver less, or an option for particular cars raised the current and the supply can deliver more |
| DcSupply.SetpointIsTooHigh | modules/EVSE/EvseManager/EvseManager.cpp:2061-2093 | the run of one given request: the last event is a setpoint of 10 A for an EV whose limit in force is 5 A |
| DcSupply.LoweredLimitIsMissed | modules/EVSE/EvseManager/EvseManager.cpp:672-678 | over two given requests a dynamic limit lowered by half of the tolerance is not followed |
| DcSupply.LawfulStep | modules/EVSE/EvseManager/EvseManager.cpp:530-691 | a lawful event after a lawful log leaves a lawful log |
| DcSupply.DcSupply.SetImportDirection | modules/EVSE/EvseManager/EvseManager.cpp:2025-2060 | turns the supply towards the grid and keeps the import limits |
| DcSupply.DcSupply.SetExportDirection | modules/EVSE/EvseManager/EvseManager.cpp:2061-2093 | turns the supply back after a change and keeps the export limits |
| DcSupply.DcSupply.ApplyNewTarget | modules/EVSE/EvseManager/EvseManager.cpp:2226-2230 | a positive target is set with exactly the commands it calls for, a target of zero not at all |
| ModbusCrc.ModbusCrc16 | modules/AnalogChannelReader/analog_reader/analog_readerImpl.cpp:137-151 | the loops compute the register of the frame |
| ModbusCrc.ShiftInByte | modules/AnalogChannelReader/analog_reader/analog_readerImpl.cpp:142-148 | the inner loop is eight steps of the register |
| ModbusCrc.ResidueIsZero | modules/AnalogChannelReader/analog_reader/analog_readerImpl.cpp:137-169 | a frame followed by two bytes has CRC zero exactly if they are the CRC of the frame, low byte first |
| ModbusCrc.CrcLinear | modules/AnalogChannelReader/analog_reader/analog_readerImpl.cpp:137-151 | the CRC of the sum of two frames is the sum of their CRCs |
| ModbusCrc.UpdateInjective | modules/AnalogChannelReader/analog_reader/analog_readerImpl.cpp:141-149 | injective in the register for a given byte and in the byte for a given register |
| ModbusCrc.CrcInjective | modules/AnalogChannelReader/analog_reader/analog_readerImpl.cpp:137-151 | registers that differ stay different over any common tail |
| ModbusCrc.BurstDetected | modules/AnalogChannelReader/analog_reader/analog_readerImpl.cpp:137-151 | two frames of equal length that differ at most in a burst of 16 bits, over up to three bytes, have equal CRCs exactly if they are equal |
| ModbusCrc.AdjacentBytesDetected | modules/AnalogChannelReader/analog_reader/analog_readerImpl.cpp:137-151 | in particular for frames that differ in two adjacent bytes |
| ModbusCrc.ShiftKeepsParity | modules/AnalogChannelReader/analog_reader/analog_readerImpl.cpp:142-148 | a step of the register keeps the parity of the number of its bits |
| ModbusCrc.CrcParity | modules/AnalogChannelReader/analog_reader/analog_readerImpl.cpp:137-151 | the CRC of the sum of two frames has an odd number of bits exactly if the frames differ in an odd number of bits |
| ModbusCrc.OddErrorsDetected | modules/AnalogChannelReader/analog_reader/analog_readerImpl.cpp:137-151 | two frames of equal length that differ in an odd number of bits have different CRCs |
| ModbusCrc.BuildReadInputRegister | modules/AnalogChannelReader/analog_reader/analog_readerImpl.cpp:158-169 | the request frame has CRC zero, and its fields can be read back |
| ModbusCrc.ParseResponse | modules/AnalogChannelReader/analog_reader/analog_readerImpl.cpp:182-193 | accepted exactly by length and header; both bytes of the value are kept |
| ModbusCrc.CorruptResponseIsTaken | modules/AnalogChannelReader/analog_reader/analog_readerImpl.cpp:182-193 | a response whose register was changed on the way is taken although its CRC differs |

## Left out

- Threads, mutexes and their timeouts: calls are atomic steps; where the source releases a mutex between two parts of a call (`set_max_current`, the timers after an evaluation), the model does not.
- Rounding of floating point numbers: the model uses reals.
- `cleanup_transactions_on_startup`: reports a transaction of an earlier run of the process, before the runs modelled here begin.
- Reading the cable rating in `IECStateMachine::read_pp_ampacity`: an answer of the environment.
- `set_overcurrent_limit` of the IEC state machine, `evse_replug`, the destructor, all getters and string conversions: no effect of their own on the events and states that the properties speak about; a replug comes in as an event of the board.
- Session log, stopwatch, persistent store, telemetry, vendor ids and descriptions of errors: no effect on the modelled state.
- A third charge mode: the source reports it as an internal error.
- `cable_check`, pre-charge and the isolation monitor: mostly waiting on foreign devices; their calls of the power supply are arbitrary inputs.
- Negative voltages and power limits of the DC supply: the source would divide by zero or by a negative voltage there.
- Power derating of the DC supply: it is not used for setpoints.
- Polling, serial port handling and the conversion of readings in the Modbus reader.
- ErrorHandlers.ErrorHandling.RaiseOwnError: one method with the error as a parameter stands for the six raise methods, likewise ClearOwnError for the six clear methods.
- Station.RunStation: the charger's inputs are arbitrary rather than tied to the events that the IEC state machine signals, which covers more runs than there are.
