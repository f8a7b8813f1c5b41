/**
 Everything the IEC state machine sends out, and what a bystander can tell from it:
 monitors folded over the events, whose flags ending in `Ok` say that a rule was never broken.
 */
module IecMonitor {
  import opened Common

  /** The control-pilot states of IEC 61851-1; Disabled also stands for events of the board that are not known. */
  datatype RawCPState = CpDisabled | CpA | CpB | CpC | CpD | CpE | CpF

  datatype IecEvent =
    // signals to the charger
    | Signal(event: CPEvent)
    // calls of the board
    | BoardPower(on: bool, reason: PowerReason)
    | BoardPwmOn(percent: real)
    | BoardPwmOff
    | BoardPwmF
    | BoardEnable(enable: bool)
    // signals to the connector lock
    | LockSignal
    | UnlockSignal
    // marks
    | Granted(grant: bool, grantReason: PowerReason) // the charger called allow_power_on
    | RawReported(raw: RawCPState) // the board reported a raw state
    | RelayReported(closed: bool) // the board confirmed the relay
    | Evaluated(cp: RawCPState, ventilation: bool, pwm: bool, now: int) // an evaluation of the state machine

  /** The control pilot allows power: state C, or D where the site is ventilated. */
  predicate PowerState(cp: RawCPState, ventilation: bool) {
    cp.CpC? || (cp.CpD? && ventilation)
  }

  /**
   The last board command, the charger's grant since the last "off", what the last evaluation saw,
   and when an evaluation first saw the PWM off.
   */
  datatype PowerMonitor = PowerMonitor(
    on: bool, grant: Option<PowerReason>, powerState: bool, pwm: bool, now: int, offSince: Option<int>,
    powerOk: bool, timeOk: bool)

  /** Connector lock, relay, and how often the connector was locked. */
  datatype LockMonitor = LockMonitor(locked: bool, relay: bool, locks: nat, lockOk: bool)

  /**
   The last raw state, and whether the board only reported known events; the state that the last evaluation
   saw, whether the car was seen plugged in, and the event that this evaluation owes; whether the last plug event is
   "plugged in", whether an evaluation in Disabled came after it, and how many of them there were.
   */
  datatype PlugMonitor = PlugMonitor(
    raw: RawCPState, known: bool, last: RawCPState, seen: bool, owed: Option<CPEvent>,
    plugged: bool, disabledSince: bool, count: PlugCount, plugOk: bool)

  /** How often the car was reported as plugged in, and how often as unplugged. */
  datatype PlugCount = PlugCount(ins: nat, outs: nat)

  datatype Monitor = Monitor(power: PowerMonitor, lock: LockMonitor, plug: PlugMonitor)

  const INITIAL_MONITOR := Monitor(
    PowerMonitor(false, None, false, false, 0, None, true, true),
    LockMonitor(false, false, 0, true),
    PlugMonitor(CpDisabled, true, CpDisabled, false, None, false, false, PlugCount(0, 0), true))

  function NextPower(m: PowerMonitor, e: IecEvent): PowerMonitor {
    if e.BoardPower? then
      if e.on then m.(on := true, powerOk := m.powerOk && m.powerState && m.pwm && m.grant == Some(e.reason))
      else m.(on := false, grant := None)
    else if e.Granted? then m.(grant := if e.grant then Some(e.grantReason) else None)
    else if e.Evaluated? then
      m.(powerState := PowerState(e.cp, e.ventilation), pwm := e.pwm,
         now := e.now, timeOk := m.timeOk && m.now <= e.now,
         offSince := if e.pwm then None else if m.offSince.None? then Some(e.now) else m.offSince)
    else m
  }

  function NextLock(m: LockMonitor, e: IecEvent): LockMonitor {
    if e.LockSignal? then m.(locked := true, locks := m.locks + 1, lockOk := m.lockOk && !m.locked)
    else if e.UnlockSignal? then m.(locked := false, lockOk := m.lockOk && !m.relay)
    else if e.RelayReported? then m.(relay := e.closed)
    else m
  }

  /** The car is seen with its plug in. */
  predicate ShowsPlug(cp: RawCPState, ventilation: bool) {
    cp.CpB? || PowerState(cp, ventilation)
  }

  /** The car was not there at the last evaluation. */
  predicate WasAway(last: RawCPState, seen: bool) {
    last.CpA? || last.CpDisabled? || (!seen && last.CpF?)
  }

  /** The event about the plug that an evaluation calls for. */
  function PlugEvent(last: RawCPState, seen: bool, cp: RawCPState, ventilation: bool): Option<CPEvent> {
    if ShowsPlug(cp, ventilation) && WasAway(last, seen) then Some(CarPluggedIn)
    else if cp.CpA? && !last.CpA? && !last.CpDisabled? then Some(CarUnplugged)
    else None
  }

  /** Is the car plugged in as far as the evaluations can tell? */
  predicate SeenAfter(last: RawCPState, seen: bool, cp: RawCPState, ventilation: bool) {
    if cp.CpA? && !last.CpA? then false else seen || (ShowsPlug(cp, ventilation) && WasAway(last, seen))
  }

  function Reexamined(m: PlugMonitor, cp: RawCPState, ventilation: bool): PlugMonitor {
    m.(last := cp, seen := SeenAfter(m.last, m.seen, cp, ventilation),
       owed := PlugEvent(m.last, m.seen, cp, ventilation),
       disabledSince := m.disabledSince || cp.CpDisabled?,
       plugOk := m.plugOk && m.owed.None? && (m.known ==> m.plugged == m.seen))
  }

  function NextPlug(m: PlugMonitor, e: IecEvent): PlugMonitor {
    if e.RawReported? then m.(raw := e.raw, known := m.known && !e.raw.CpDisabled?)
    else if e.Evaluated? then Reexamined(m, e.cp, e.ventilation)
    else if e.Signal? && e.event.CarPluggedIn? then
      m.(plugged := true, disabledSince := false, owed := None, count := m.count.(ins := m.count.ins + 1),
         plugOk := m.plugOk && m.owed == Some(CarPluggedIn) && (m.plugged ==> m.disabledSince && !m.known))
    else if e.Signal? && e.event.CarUnplugged? then
      m.(plugged := false, disabledSince := false, owed := None, count := m.count.(outs := m.count.outs + 1),
         plugOk := m.plugOk && m.owed == Some(CarUnplugged))
    else m
  }

  function Next(m: Monitor, e: IecEvent): Monitor {
    Monitor(NextPower(m.power, e), NextLock(m.lock, e), NextPlug(m.plug, e))
  }

  function Observe(events: seq<IecEvent>): (m: Monitor) {
    if events == [] then INITIAL_MONITOR
    else Next(Observe(events[..|events| - 1]), events[|events| - 1])
  }

  /** No rule was broken so far. */
  predicate KeptSoFar(m: Monitor) {
    m.power.powerOk && m.lock.lockOk && m.plug.plugOk
  }

  datatype RawTrace = RawTrace(events: seq<IecEvent>, mon: Monitor)

  /** A trace together with what its events add up to. */
  type Trace = t: RawTrace | forall n: nat {:trigger Recall(n)} :: Recall(n) ==> t.mon == Observe(t.events)
    witness RawTrace([], INITIAL_MONITOR)

  /** The trace with one more event. */
  function Emit(t: Trace, e: IecEvent): (r: Trace) {
    assert Recall(0) && (t.events + [e])[..|t.events|] == t.events;
    RawTrace(t.events + [e], Next(t.mon, e))
  }

  const EMPTY_TRACE: Trace := RawTrace([], INITIAL_MONITOR)
}
