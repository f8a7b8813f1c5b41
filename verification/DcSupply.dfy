/**
 The way of a DC setpoint from the EV's request to the power supply (EvseManager.cpp): limits of the EV and
 of the EVSE, external derating, range of the supply, and the modes of the supply. Currents, voltages and
 powers are reals; voltages and power limits are taken as non-negative.
 */
module DcSupply {
  import opened Common

  type NonNegative = r: real | r >= 0.0

  datatype Mode = Off | Export | Import

  datatype ChargingPhase = PhaseOther | PhaseCableCheck | PhasePreCharge | PhaseCharging

  datatype Capabilities = Capabilities(
    minExportVoltage: real, maxExportVoltage: real,
    minExportCurrent: real, maxExportCurrent: real,
    minImportVoltage: Option<real>, maxImportVoltage: Option<real>,
    minImportCurrent: Option<real>, maxImportCurrent: Option<real>)

  datatype Derating = Derating(maxExportCurrent: Option<real>, maxImportCurrent: Option<real>)

  datatype SupplyConfig = SupplyConfig(skodaEnyaq: bool, integerCurrents: bool, saeBpt: bool)

  /** What limits an EV request, as far as it is known. */
  datatype Limits = Limits(
    evCurrent: Option<real>, evVoltage: Option<NonNegative>, evseCurrent: real, evsePower: NonNegative,
    presentVoltage: Option<NonNegative>)

  /** A request in the dynamic mode of ISO 15118-20; discharge limits may be missing or carry either sign. */
  datatype DynamicRequest = DynamicRequest(
    maxChargePower: real, minChargePower: real, maxChargeCurrent: real,
    minVoltage: NonNegative, maxVoltage: NonNegative,
    maxDischargePower: Option<real>, minDischargePower: Option<real>, maxDischargeCurrent: Option<real>)

  /** The EVSE's side of the same limits. */
  datatype EvseLimits = EvseLimits(
    maxPower: real, minPower: real, maxCurrent: real, minVoltage: NonNegative,
    maxDischargePower: Option<real>, minDischargePower: Option<real>, maxDischargeCurrent: Option<real>)

  /** What both sides allow. */
  datatype Bounds = Bounds(maxPower: real, minPower: real, maxCurrent: real)

  /** How the energy may flow, and flows. */
  datatype Direction = Direction(exporting: bool, bidirectional: bool, demandActive: bool)

  /** Calls of the power supply; and, as marks, what came in, and the targets that were stored. */
  datatype Event =
    | SetMode(mode: Mode, phase: ChargingPhase)
    | SetExport(voltage: real, current: real)
    | SetImport(voltage: real, current: real)
    | CapabilitiesReported(caps: Capabilities)
    | DeratingReceived(derating: Derating)
    | LimitsReceived(limits: Limits)
    | DirectionReceived(direction: Direction)
    | TargetRequested(requestVoltage: NonNegative, requestCurrent: real)
    | DynamicRequested(request: DynamicRequest, evse: EvseLimits)
    | TargetStored(target: NonNegative, targetCurrent: real)
    | DynamicStored(target: NonNegative, targetCurrent: real)
    | TargetReset

  /**
   What is in force after a log: everything as it came in last, the mode last commanded and the target last
   stored.
   */
  datatype Knowledge = Knowledge(
    mode: Mode, caps: Capabilities, derating: Derating, limits: Limits, direction: Direction,
    request: (NonNegative, real), dynamic: Option<(DynamicRequest, EvseLimits)>, target: NonNegative)

  const NO_CAPABILITIES := Capabilities(0.0, 0.0, 0.0, 0.0, None, None, None, None)

  function Learned(k: Knowledge, e: Event): Knowledge {
    match e
    case SetMode(m, _) => k.(mode := m)
    case CapabilitiesReported(c) => k.(caps := c)
    case DeratingReceived(d) => k.(derating := d)
    case LimitsReceived(l) => k.(limits := l)
    case DirectionReceived(d) => k.(direction := d)
    case TargetRequested(v, i) => k.(request := (v, i))
    case DynamicRequested(r, l) => k.(dynamic := Some((r, l)))
    case TargetStored(v, _) => k.(target := v)
    case DynamicStored(v, _) => k.(target := v)
    case TargetReset => k.(target := 0.0)
    case _ => k
  }

  function Known(log: seq<Event>): Knowledge {
    if log == [] then
      Knowledge(Off, NO_CAPABILITIES, Derating(None, None), Limits(None, None, 0.0, 0.0, None),
                Direction(false, false, false), (0.0, 0.0), None, 0.0)
    else Learned(Known(log[..|log| - 1]), log[|log| - 1])
  }

  /** The voltage that the power limit is applied at. */
  function ActualVoltage(limits: Limits, target: NonNegative): NonNegative {
    match limits.presentVoltage
    case Some(v) => v
    case None => target
  }

  predicate KeepsPower(current: real, voltage: NonNegative, power: NonNegative) {
    current * voltage <= power
  }

  /** A target current never exceeds the EV's limit, the EVSE's limit, or the power limit at the present voltage. */
  predicate WithinLimits(voltage: NonNegative, current: real, limits: Limits) {
    && (limits.evCurrent.Some? ==> current <= limits.evCurrent.value)
    && (limits.evVoltage.Some? ==> voltage <= limits.evVoltage.value)
    && current <= limits.evseCurrent
    && KeepsPower(current, ActualVoltage(limits, voltage), limits.evsePower)
  }

  /** At most the current, and at a positive voltage at most the power, that both sides allow. */
  predicate WithinBounds(current: real, bounds: Bounds, actual: NonNegative) {
    current <= bounds.maxCurrent && (actual > 0.0 ==> current * actual <= bounds.maxPower)
  }

  function Smaller(a: real, b: real): real { if a > b then b else a }

  function Larger(a: real, b: real): real { if a < b then b else a }

  /** The smaller of two magnitudes, or zero if one is missing. */
  function SmallerOf(a: Option<real>, b: Option<real>): real {
    if a.Some? && b.Some? then Smaller(Abs(a.value), Abs(b.value)) else 0.0
  }

  function LargerOf(a: Option<real>, b: Option<real>): real {
    if a.Some? && b.Some? then Larger(Abs(a.value), Abs(b.value)) else 0.0
  }

  /** The common bounds of EV and EVSE, for feeding back or for charging. */
  function CommonBounds(feedsBack: bool, r: DynamicRequest, l: EvseLimits): (b: Bounds)
    ensures !feedsBack ==> b.maxPower <= r.maxChargePower && b.maxPower <= l.maxPower
    ensures !feedsBack ==> b.maxCurrent <= r.maxChargeCurrent && b.maxCurrent <= l.maxCurrent
    ensures feedsBack && r.maxDischargeCurrent.Some? ==> b.maxCurrent <= Abs(r.maxDischargeCurrent.value)
    ensures feedsBack && l.maxDischargeCurrent.Some? ==> b.maxCurrent <= Abs(l.maxDischargeCurrent.value)
    ensures feedsBack && r.maxDischargePower.Some? ==> b.maxPower <= Abs(r.maxDischargePower.value)
    ensures feedsBack && l.maxDischargePower.Some? ==> b.maxPower <= Abs(l.maxDischargePower.value)
    ensures !feedsBack ==> b.minPower >= r.minChargePower && b.minPower >= l.minPower
    ensures feedsBack && r.minDischargePower.Some? && l.minDischargePower.Some? ==>
      b.minPower >= Abs(r.minDischargePower.value) && b.minPower >= Abs(l.minDischargePower.value)
  {
    if feedsBack then
      Bounds(SmallerOf(r.maxDischargePower, l.maxDischargePower),
             LargerOf(r.minDischargePower, l.minDischargePower),
             SmallerOf(r.maxDischargeCurrent, l.maxDischargeCurrent))
    else
      Bounds(Smaller(r.maxChargePower, l.maxPower),
             Larger(r.minChargePower, l.minPower),
             Smaller(r.maxChargeCurrent, l.maxCurrent))
  }

  const EPSILON := 0.000001

  predicate AlmostEqual(a: real, b: real) {
    Abs(a - b) <= EPSILON
  }

  /** In the voltage range of the supply, and in its current range unless derating left that empty. */
  predicate InExportRange(voltage: real, current: real, range: Capabilities) {
    && range.minExportVoltage <= voltage <= range.maxExportVoltage
    && range.minExportCurrent <= current
    && (current <= range.maxExportCurrent <==> range.minExportCurrent <= range.maxExportCurrent)
  }

  predicate InImportRange(voltage: real, current: real, range: Capabilities) {
    && range.minImportVoltage.Some? && range.maxImportVoltage.Some?
    && range.minImportVoltage.value <= voltage <= range.maxImportVoltage.value
    && (range.minImportCurrent.Some? ==> range.minImportCurrent.value <= current)
    && (range.maxImportCurrent.Some? &&
        (range.minImportCurrent.Some? ==> range.minImportCurrent.value <= range.maxImportCurrent.value) ==>
          current <= range.maxImportCurrent.value)
  }

  /** The session may feed back and does so now. */
  predicate FeedsBack(d: Direction) {
    d.bidirectional && d.demandActive && d.exporting
  }

  /** The range of the supply as derated. */
  function RangeOf(k: Knowledge): Capabilities {
    Derated(k.caps, k.derating)
  }

  /** No more than was requested, and no less than the limits make necessary. */
  ghost predicate IsBest(v: NonNegative, i: real, voltage: NonNegative, current: real, limits: Limits) {
    && WithinLimits(v, i, limits) && v <= voltage && i <= current
    && (v == voltage || limits.evVoltage == Some(v))
    && forall j :: j <= current && WithinLimits(v, j, limits) ==> j <= i
  }

  /** What both sides allow in the dynamic mode. */
  function DynamicBounds(d: Direction, r: DynamicRequest, l: EvseLimits): Bounds {
    CommonBounds(d.exporting && d.demandActive, r, l)
  }

  /** EvMaxVoltage for charging, EvMinVoltage for discharging. */
  function DynamicTarget(d: Direction, r: DynamicRequest, l: EvseLimits): NonNegative {
    if d.exporting then Larger(r.minVoltage, l.minVoltage) else r.maxVoltage
  }

  /** No larger current is within the bounds. */
  ghost predicate IsLargest(current: real, bounds: Bounds, actual: NonNegative) {
    WithinBounds(current, bounds, actual) && forall j :: WithinBounds(j, bounds, actual) ==> j <= current
  }

  /** Whether a call may be made or a target stored, given everything that came in before. */
  ghost predicate StepIsLawful(before: seq<Event>, e: Event) {
    var k := Known(before);
    match e
    // the supply is turned towards the grid only while it is on and the session feeds back
    case SetMode(m, _) => (m == Import ==> k.mode != Off && FeedsBack(k.direction)) && (m == Off ==> k.mode != Off)
    // setpoints stay in the range that the supply reported last, as derated last, and follow the direction
    case SetExport(v, i) => InExportRange(v, i, RangeOf(k)) && !FeedsBack(k.direction)
    case SetImport(v, i) => InImportRange(v, i, RangeOf(k)) && FeedsBack(k.direction)
    // targets keep the limits that were known last; the EV gets what it requested as far as they allow
    case TargetStored(v, i) => IsBest(v, i, k.request.0, k.request.1, k.limits)
    case DynamicStored(v, i) =>
      && k.dynamic.Some?
      && var (r, l) := k.dynamic.value;
         var bounds := DynamicBounds(k.direction, r, l);
         && bounds.minPower <= bounds.maxPower && v == DynamicTarget(k.direction, r, l)
         && IsLargest(i, bounds, ActualVoltage(k.limits, k.target))
    case _ => true
  }

  ghost predicate Lawful(log: seq<Event>) {
    forall j :: 0 <= j < |log| ==> StepIsLawful(log[..j], log[j])
  }

  lemma LawfulStep(log: seq<Event>, e: Event)
    requires Lawful(log) && StepIsLawful(log, e)
    ensures Lawful(log + [e]) && Known(log + [e]) == Learned(Known(log), e)
  {
    hide StepIsLawful, Learned;
    assert (log + [e])[..|log|] == log;
    forall j | 0 <= j < |log + [e]| ensures StepIsLawful((log + [e])[..j], (log + [e])[j]) {
      if j < |log| {
        assert (log + [e])[..j] == log[..j];
      }
    }
  }

  /** The smaller of the values that are there (min_optional). */
  function MinOptional(a: Option<real>, b: Option<real>): (r: Option<real>)
    ensures r.None? <==> a.None? && b.None?
    ensures r == a || r == b
    ensures r.Some? && a.Some? ==> r.value <= a.value
    ensures r.Some? && b.Some? ==> r.value <= b.value
  {
    match (a, b)
    case (Some(x), Some(y)) => if y < x then b else a
    case (Some(_), None) => a
    case (None, _) => b
  }

  /** Capabilities after external derating: never more than the supply or the derating allows. */
  function Derated(caps: Capabilities, d: Derating): (r: Capabilities)
    ensures r.maxExportCurrent <= caps.maxExportCurrent
    ensures d.maxExportCurrent.Some? ==> r.maxExportCurrent <= d.maxExportCurrent.value
    ensures r.maxExportCurrent == caps.maxExportCurrent || Some(r.maxExportCurrent) == d.maxExportCurrent
    ensures r.maxImportCurrent == MinOptional(caps.maxImportCurrent, d.maxImportCurrent)
    ensures r == caps.(maxExportCurrent := r.maxExportCurrent, maxImportCurrent := r.maxImportCurrent)
  {
    caps.(maxExportCurrent := MinOptional(Some(caps.maxExportCurrent), d.maxExportCurrent).value,
          maxImportCurrent := MinOptional(caps.maxImportCurrent, d.maxImportCurrent))
  }

  /** Conversion to int in C++: towards zero. */
  function Truncate(r: real): int {
    if r >= 0.0 then r.Floor else -((-r).Floor)
  }

  /** The request cut down to what the EV and the EVSE allow. */
  method LimitRequest(voltage: NonNegative, current: real, limits: Limits) returns (v: NonNegative, i: real)
    ensures IsBest(v, i, voltage, current, limits)
  {
    hide KeepsPower;
    v, i := voltage, current;
    if limits.evCurrent.Some? && i > limits.evCurrent.value {
      i := limits.evCurrent.value;
    }
    if limits.evVoltage.Some? && v > limits.evVoltage.value {
      v := limits.evVoltage.value;
    }
    if i > limits.evseCurrent {
      i := limits.evseCurrent;
    }
    i := LimitByPower(i, ActualVoltage(limits, v), limits.evsePower);
  }

  /** The largest current up to the given one that keeps the power limit. */
  method LimitByPower(current: real, v: NonNegative, p: NonNegative) returns (i: real)
    ensures i <= current && KeepsPower(i, v, p)
    ensures forall j :: j <= current && KeepsPower(j, v, p) ==> j <= i
  {
    i := current;
    if i * v > p {
      PowerNeedsVoltage(i, v, p);
      i := p / v;
      forall j | KeepsPower(j, v, p) ensures j <= i {
        if i < j {
          ScalingKeepsOrder(i, j, v);
        }
      }
    }
  }

  lemma ScalingKeepsOrder(i: real, j: real, v: real)
    requires i < j && v > 0.0
    ensures i * v < j * v
  {
  }

  /** Only a current at a positive voltage exceeds a power limit, and the quotient is below that current. */
  lemma PowerNeedsVoltage(i: real, v: NonNegative, p: NonNegative)
    requires i * v > p
    ensures v > 0.0 && p / v < i && p / v * v == p
  {
    assert v != 0.0;
    assert p / v * v == p;
  }

  /** The largest current within the bounds. */
  function DynamicCurrent(bounds: Bounds, actual: NonNegative): (i: real)
    ensures IsLargest(i, bounds, actual)
    ensures i == bounds.maxCurrent || (actual > 0.0 && i * actual == bounds.maxPower)
  {
    if actual <= 0.0 then bounds.maxCurrent
    else
      SmallerIsLargest(bounds, actual);
      Smaller(bounds.maxPower / actual, bounds.maxCurrent)
  }

  lemma PowerBounds(j: real, q: real, actual: real, power: real)
    requires actual > 0.0 && q * actual == power && j * actual <= power
    ensures j <= q
  {
    if q < j {
      ScalingKeepsOrder(q, j, actual);
      assert false;
    }
  }

  lemma SmallerIsLargest(bounds: Bounds, actual: NonNegative)
    requires actual > 0.0
    ensures IsLargest(Smaller(bounds.maxPower / actual, bounds.maxCurrent), bounds, actual)
    ensures bounds.maxPower / actual * actual == bounds.maxPower
  {
    var q := bounds.maxPower / actual;
    assert q * actual == bounds.maxPower;
    if bounds.maxCurrent < q {
      ScalingKeepsOrder(bounds.maxCurrent, q, actual);
    }
    forall j | WithinBounds(j, bounds, actual) ensures j <= q {
      PowerBounds(j, q, actual, bounds.maxPower);
    }
  }

  /** The current as the options for particular cars would have it. */
  function Adjusted(cfg: SupplyConfig, offered: real, current: real): real {
    var c := if cfg.integerCurrents && offered - Truncate(current) as real < 1.0 then offered else current;
    if cfg.saeBpt && c < 0.0 then -c else c
  }

  /** A current that is in range is passed on as it is, any other as the end of the range next to it. */
  function Clamped(requested: real, low: Option<real>, high: Option<real>): (sent: real)
    ensures low.Some? ==> low.value <= sent
    ensures high.Some? && (low.Some? ==> low.value <= high.value) ==> sent <= high.value
    ensures (low.Some? ==> low.value <= requested) && (high.Some? ==> requested <= high.value) ==> sent == requested
    ensures low.Some? && requested < low.value ==> sent == low.value
    ensures high.Some? && requested > high.value && (low.Some? ==> low.value <= high.value) ==> sent == high.value
  {
    var c := if high.Some? && requested > high.value then high.value else requested;
    if low.Some? && c < low.value then low.value else c
  }

  /**
   The setpoint sent for a target within the EV's limit exceeds that limit exactly if the supply cannot deliver
   less, or if an option for particular cars raised the current and the supply can deliver more.
   */
  lemma SetpointExceedsLimit(cfg: SupplyConfig, limits: Limits, range: Capabilities, current: real)
    requires limits.evCurrent.Some? && current <= limits.evCurrent.value
    ensures
      var limit := limits.evCurrent.value;
      Clamped(Adjusted(cfg, limits.evseCurrent, current), Some(range.minExportCurrent), Some(range.maxExportCurrent)) >
      limit <==>
        || range.minExportCurrent > limit
        || (range.maxExportCurrent > limit && RaisedAbove(cfg, limits.evseCurrent, current, limit))
  {
  }

  /**
   An option raises a current above a limit: the full offer for an integer request, or the magnitude of a
   negative one.
   */
  predicate RaisedAbove(cfg: SupplyConfig, offered: real, current: real, limit: real) {
    var whole := cfg.integerCurrents && offered - Truncate(current) as real < 1.0;
    || (whole && offered > limit)
    || (cfg.saeBpt && (if whole then -offered else -current) > limit)
  }

  /** What decides about the commands to the supply. */
  datatype Setting = Setting(
    config: SupplyConfig, isOn: bool, phase: ChargingPhase, phaseChanged: bool,
    direction: Direction, lastExporting: bool,
    caps: Capabilities, derating: Derating, limits: Limits, contactorOpen: bool)

  predicate InImportVoltage(caps: Capabilities, voltage: real) {
    && caps.minImportVoltage.Some? && caps.maxImportVoltage.Some?
    && caps.minImportVoltage.value <= voltage <= caps.maxImportVoltage.value
  }

  predicate InExportVoltage(caps: Capabilities, voltage: real) {
    caps.minExportVoltage <= voltage <= caps.maxExportVoltage
  }

  /** A supply that is on is turned around when the direction changes, and told about a new phase. */
  function TurnCommands(s: Setting): seq<Event> {
    if !s.isOn then []
    else if FeedsBack(s.direction) then if s.lastExporting then [] else [SetMode(Import, s.phase)]
    else if s.phaseChanged || (s.direction.bidirectional && s.lastExporting && s.direction.demandActive)
    then [SetMode(Export, s.phase)]
    else []
  }

  /** The supply is set if the voltage is in its range; the current is brought into its range. */
  function PointCommands(s: Setting, voltage: real, current: real): seq<Event> {
    var range := Derated(s.caps, s.derating);
    if FeedsBack(s.direction) then
      if InImportVoltage(s.caps, voltage)
      then [SetImport(voltage, Clamped(current, range.minImportCurrent, range.maxImportCurrent))] else []
    else
      if InExportVoltage(s.caps, voltage)
      then [SetExport(voltage, Clamped(current, Some(range.minExportCurrent), Some(range.maxExportCurrent)))] else []
  }

  /** What setting the supply says to it. */
  function SetCommands(s: Setting, voltage: real, current: real): seq<Event> {
    TurnCommands(s) + PointCommands(s, voltage, Adjusted(s.config, s.limits.evseCurrent, current))
  }

  lemma Regroup(a: seq<Event>, b: seq<Event>, c: seq<Event>)
    ensures a + b + c == a + (b + c)
  {
  }

  /** What a new target says to the supply: it is set, and switched on once the contactors are closed. */
  function TargetCommands(s: Setting, voltage: NonNegative, current: real): seq<Event> {
    (if voltage > 0.0 then SetCommands(s, voltage, current) else []) +
    (if s.isOn || s.contactorOpen then [] else [SetMode(Export, s.phase)])
  }

  datatype Input =
    | TargetInput(voltage: NonNegative, current: real)
    | DynamicInput(request: DynamicRequest, evse: EvseLimits)
    | SetInput(setVoltage: real, setCurrent: real) // cable check and pre-charge set the supply directly
    | OnInput
    | OffInput
    | ResetTargetInput
    | LimitsInput(limits: Limits)
    | CapabilitiesInput(caps: Capabilities)
    | DeratingInput(derating: Derating)
    | PhaseInput(phase: ChargingPhase)
    | DirectionInput(direction: Direction)
    | ContactorInput(open: bool)

  class DcSupply {
    const config: SupplyConfig
    var latestVoltage: NonNegative // latest_target_voltage
    var latestCurrent: real // latest_target_current
    var isOn: bool // powersupply_dc_is_on
    var phase: ChargingPhase
    var lastPhase: ChargingPhase
    var direction: Direction // is_actually_exporting_to_grid and the session's part in it
    var lastExporting: bool // as seen by powersupply_DC_set
    var lastExportingDynamic: bool // as seen by the handler of the dynamic mode
    var contactorOpen: bool
    var caps: Capabilities
    var derating: Derating
    var limits: Limits
    var log: seq<Event>
    ghost var history: seq<Input> // the calls, as noted by whoever plays a run

    /** The log is lawful, and the fields are what it says. */
    ghost predicate Valid()
      reads `latestVoltage, `isOn, `direction, `caps, `derating, `limits, `log
    {
      Lawful(log) && Knows(Known(log))
    }

    ghost predicate Knows(k: Knowledge)
      reads `latestVoltage, `isOn, `direction, `caps, `derating, `limits
    {
      && (isOn <==> k.mode != Off) && k.caps == caps && k.derating == derating && k.limits == limits
      && k.direction == direction && k.target == latestVoltage
    }

    constructor (cfg: SupplyConfig, c: Capabilities, l: Limits, anyPhase: ChargingPhase, anyLastPhase: ChargingPhase)
      ensures Valid() && log == [CapabilitiesReported(c), LimitsReceived(l)] && history == [] && !isOn
      ensures config == cfg && direction == Direction(false, false, false) && derating == Derating(None, None)
      ensures caps == c && limits == l && latestVoltage == 0.0 && latestCurrent == 0.0 && contactorOpen
    {
      config := cfg;
      latestVoltage, latestCurrent := 0.0, 0.0;
      isOn := false;
      phase, lastPhase := anyPhase, anyLastPhase;
      direction, lastExporting, lastExportingDynamic := Direction(false, false, false), false, false;
      contactorOpen := true;
      caps, derating, limits := c, Derating(None, None), l;
      log := [CapabilitiesReported(c), LimitsReceived(l)];
      history := [];
      new;
      LawfulStep([], CapabilitiesReported(c));
      LawfulStep([CapabilitiesReported(c)], LimitsReceived(l));
      assert [] + [CapabilitiesReported(c)] == [CapabilitiesReported(c)];
      assert [CapabilitiesReported(c)] + [LimitsReceived(l)] == log;
    }

    // ------------------------------------------------------------------ the log

    /** Notes an event; the fields have to follow what it says. */
    method Send(e: Event)
      requires Lawful(log) && StepIsLawful(log, e) && Knows(Learned(Known(log), e))
      modifies `log
      ensures Valid() && log == old(log) + [e] && Known(log) == Learned(old(Known(log)), e)
    {
      LawfulStep(log, e);
      log := log + [e];
    }

    /** Notes what the EV requests. */
    method NoteRequest(e: Event)
      requires Valid() && (e.TargetRequested? || e.DynamicRequested?)
      modifies `log
      ensures Valid() && log == old(log) + [e]
      ensures e.TargetRequested? ==> Known(log).request == (e.requestVoltage, e.requestCurrent)
      ensures e.DynamicRequested? ==> Known(log).dynamic == Some((e.request, e.evse))
    {
      Send(e);
    }

    method ReportCapabilities(c: Capabilities)
      requires Valid()
      modifies `caps, `log
      ensures Valid() && caps == c && log == old(log) + [CapabilitiesReported(c)]
    {
      caps := c;
      Send(CapabilitiesReported(c));
    }

    method SetDerating(d: Derating)
      requires Valid()
      modifies `derating, `log
      ensures Valid() && derating == d && log == old(log) + [DeratingReceived(d)]
    {
      derating := d;
      Send(DeratingReceived(d));
    }

    method SetLimits(l: Limits)
      requires Valid()
      modifies `limits, `log
      ensures Valid() && limits == l && log == old(log) + [LimitsReceived(l)]
    {
      limits := l;
      Send(LimitsReceived(l));
    }

    method SetDirection(d: Direction)
      requires Valid()
      modifies `direction, `log
      ensures Valid() && direction == d && log == old(log) + [DirectionReceived(d)]
    {
      direction := d;
      Send(DirectionReceived(d));
    }

    method ResetTarget()
      requires Valid()
      modifies `latestVoltage, `latestCurrent, `log
      ensures Valid() && latestVoltage == 0.0 && latestCurrent == 0.0 && log == old(log) + [TargetReset]
    {
      latestVoltage, latestCurrent := 0.0, 0.0;
      Send(TargetReset);
    }

    // --------------------------------------------------------------- the supply

    function Now(): Setting
      reads `isOn, `phase, `lastPhase, `direction, `lastExporting, `caps, `derating, `limits, `contactorOpen
    {
      Setting(config, isOn, phase, lastPhase != phase, direction, lastExporting, caps, derating, limits, contactorOpen)
    }

    method PowerSupplyOn()
      requires Valid()
      modifies `isOn, `log
      ensures Valid() && isOn && log == old(log) + if old(isOn) then [] else [SetMode(Export, phase)]
    {
      if !isOn {
        isOn := true;
        Send(SetMode(Export, phase));
      }
    }

    method PowerSupplyOff()
      requires Valid()
      modifies `isOn, `phase, `log
      ensures Valid() && !isOn && phase == PhaseOther
      ensures log == if old(isOn) then old(log) + [SetMode(Off, old(phase))] else old(log)
    {
      if isOn {
        isOn := false;
        Send(SetMode(Off, phase));
      }
      phase := PhaseOther;
    }

    /** Turns the supply around towards the grid; sets it if the voltage is in its import range. */
    method SetImportDirection(voltage: real, current: real) returns (ok: bool)
      requires Valid() && FeedsBack(direction)
      modifies `lastExporting, `log
      ensures Valid() && lastExporting && (ok <==> InImportVoltage(caps, voltage))
      ensures log == old(log) + TurnCommands(old(Now())) + PointCommands(old(Now()), voltage, current)
    {
      hide Lawful;
      if !lastExporting && isOn {
        Send(SetMode(Import, phase));
      }
      lastExporting := direction.exporting;
      ok := SetImportPoint(voltage, current);
    }

    method SetImportPoint(voltage: real, current: real) returns (ok: bool)
      requires Valid() && FeedsBack(direction)
      modifies `log
      ensures Valid() && (ok <==> InImportVoltage(caps, voltage))
      ensures log == old(log) + PointCommands(old(Now()), voltage, current)
    {
      hide Lawful;
      var range := Derated(caps, derating);
      if range.minImportVoltage.Some? && range.maxImportVoltage.Some? &&
         voltage >= range.minImportVoltage.value && voltage <= range.maxImportVoltage.value {
        var c := current;
        if range.maxImportCurrent.Some? && c > range.maxImportCurrent.value {
          c := range.maxImportCurrent.value;
        }
        if range.minImportCurrent.Some? && c < range.minImportCurrent.value {
          c := range.minImportCurrent.value;
        }
        Send(SetImport(voltage, c));
        return true;
      }
      return false;
    }

    /** Turns the supply towards the EV after a change; sets it if the voltage is in its export range. */
    method SetExportDirection(voltage: real, current: real, phaseChanged: bool) returns (ok: bool)
      requires Valid() && !FeedsBack(direction)
      modifies `lastExporting, `log
      ensures Valid() && (ok <==> InExportVoltage(caps, voltage))
      ensures
        var s := old(Now()).(phaseChanged := phaseChanged);
        && lastExporting == (if TurnCommands(s) == [] then old(lastExporting) else direction.exporting)
        && log == old(log) + TurnCommands(s) + PointCommands(s, voltage, current)
    {
      hide Lawful;
      if isOn && (phaseChanged || ((direction.bidirectional && lastExporting) && direction.demandActive)) {
        Send(SetMode(Export, phase));
        lastExporting := direction.exporting;
      }
      ok := SetExportPoint(voltage, current);
    }

    method SetExportPoint(voltage: real, current: real) returns (ok: bool)
      requires Valid() && !FeedsBack(direction)
      modifies `log
      ensures Valid() && (ok <==> InExportVoltage(caps, voltage))
      ensures log == old(log) + PointCommands(old(Now()), voltage, current)
    {
      hide Lawful;
      var range := Derated(caps, derating);
      if voltage >= range.minExportVoltage && voltage <= range.maxExportVoltage {
        var c := current;
        if c > range.maxExportCurrent {
          c := range.maxExportCurrent;
        }
        if c < range.minExportCurrent {
          c := range.minExportCurrent;
        }
        Send(SetExport(voltage, c));
        return true;
      }
      return false;
    }

    /** Sets voltage and current, limited to what the supply and the derating allow; refuses a voltage out of range. */
    method PowerSupplySet(voltage: real, current: real) returns (ok: bool)
      requires Valid()
      modifies `lastPhase, `lastExporting, `log
      ensures Valid() && lastPhase == phase
      ensures ok <==> if FeedsBack(direction) then InImportVoltage(caps, voltage) else InExportVoltage(caps, voltage)
      ensures log == old(log) + SetCommands(old(Now()), voltage, current)
      ensures FeedsBack(direction) ==> lastExporting
    {
      hide Adjusted, Lawful, Clamped, DcSupply.Knows, Derated;
      var phaseChanged := lastPhase != phase;
      lastPhase := phase;
      var c := Adjusted(config, limits.evseCurrent, current);
      if (direction.bidirectional && direction.demandActive) && direction.exporting {
        ok := SetImportDirection(voltage, c);
      } else {
        ok := SetExportDirection(voltage, c, phaseChanged);
      }
      Regroup(old(log), TurnCommands(old(Now())), PointCommands(old(Now()), voltage, c));
    }

    /** Passes the target on, unless there is none. */
    method ApplyNewTarget()
      requires Valid()
      modifies `lastPhase, `lastExporting, `log
      ensures Valid()
      ensures log == old(log) +
        if latestVoltage > 0.0 then SetCommands(old(Now()), latestVoltage, latestCurrent) else []
    {
      hide SetCommands, Lawful;
      if latestVoltage > 0.0 {
        var _ := PowerSupplySet(latestVoltage, latestCurrent);
      }
    }

    /** A new target sets the supply, and switches it on once the contactors are closed. */
    method FollowTarget()
      requires Valid()
      modifies `lastPhase, `lastExporting, `isOn, `log
      ensures Valid() && (isOn <==> old(isOn) || !contactorOpen)
      ensures log == old(log) + TargetCommands(old(Now()), latestVoltage, latestCurrent)
    {
      hide SetCommands, Lawful;
      ApplyNewTarget();
      if !contactorOpen {
        PowerSupplyOn();
      }
    }

    predicate Ignores(voltage: NonNegative, current: real) {
      config.skodaEnyaq && (voltage < 300.0 || current < 0.0)
    }

    /** What a request of the EV does: it is limited, stored if it is new, and passed on to the supply. */
    twostate predicate Targets(voltage: NonNegative, current: real)
      reads `latestVoltage, `latestCurrent, `isOn, `contactorOpen, `limits, `log
    {
      var kept := latestVoltage == old(latestVoltage) && latestCurrent == old(latestCurrent);
      if Ignores(voltage, current) then kept && log == old(log) && isOn == old(isOn)
      else
        && IsBest(latestVoltage, latestCurrent, voltage, current, limits)
        && (isOn <==> old(isOn) || !(kept || contactorOpen))
        && log == old(log) + [TargetRequested(voltage, current)] +
                  (if kept then [] else [TargetStored(latestVoltage, latestCurrent)]) +
                  (if kept then [] else TargetCommands(old(Now()), latestVoltage, latestCurrent))
    }

    /** A request of the EV. */
    method HandleTarget(voltage: NonNegative, current: real)
      requires Valid()
      modifies `latestVoltage, `latestCurrent, `lastPhase, `lastExporting, `isOn, `log
      ensures Valid() && Targets(voltage, current)
    {
      hide IsBest, WithinLimits, KeepsPower, DcSupply.Valid, TargetCommands;
      if config.skodaEnyaq && (voltage < 300.0 || current < 0.0) {
        return;
      }
      var v, i := LimitRequest(voltage, current, limits);
      NoteRequest(TargetRequested(voltage, current));
      if v != latestVoltage || i != latestCurrent {
        TakeTarget(v, i, voltage, current);
      }
    }

    method TakeTarget(v: NonNegative, i: real, ghost voltage: NonNegative, ghost current: real)
      requires Valid() && IsBest(v, i, voltage, current, limits) && Known(log).request == (voltage, current)
      modifies `latestVoltage, `latestCurrent, `lastPhase, `lastExporting, `isOn, `log
      ensures Valid() && latestVoltage == v && latestCurrent == i
      ensures isOn <==> old(isOn) || !contactorOpen
      ensures log == old(log) + [TargetStored(v, i)] + TargetCommands(old(Now()), v, i)
    {
      hide IsBest, DcSupply.Valid, TargetCommands;
      StoreTarget(v, i, voltage, current);
      FollowTarget();
    }

    method StoreTarget(v: NonNegative, i: real, ghost voltage: NonNegative, ghost current: real)
      requires Valid() && IsBest(v, i, voltage, current, limits) && Known(log).request == (voltage, current)
      modifies `latestVoltage, `latestCurrent, `log
      ensures Valid() && latestVoltage == v && latestCurrent == i && log == old(log) + [TargetStored(v, i)]
    {
      hide IsBest, Lawful;
      latestVoltage := v;
      latestCurrent := i;
      Send(TargetStored(v, i));
    }

    /** The measured voltage, or the last target. */
    function DynamicVoltage(): NonNegative
      reads `limits, `latestVoltage
    {
      ActualVoltage(limits, latestVoltage)
    }

    /**
     What a request in dynamic mode does: it is refused if the bounds contradict each other. A target that is almost
     the present one is not stored, so the stored current may exceed the bounds by that tolerance.
     */
    twostate predicate TargetsDynamic(r: DynamicRequest, l: EvseLimits)
      reads `latestVoltage, `latestCurrent, `isOn, `contactorOpen, `direction, `log
    {
      var bounds := DynamicBounds(direction, r, l);
      var v, i := DynamicTarget(direction, r, l), DynamicCurrent(bounds, old(DynamicVoltage()));
      var refused := bounds.minPower > bounds.maxPower;
      var kept := refused || (AlmostEqual(v, old(latestVoltage)) && AlmostEqual(i, old(latestCurrent)));
      && latestVoltage == (if kept then old(latestVoltage) else v)
      && latestCurrent == (if kept then old(latestCurrent) else i)
      && var silent := refused || (kept && direction.exporting == old(lastExportingDynamic));
         && (isOn <==> old(isOn) || !(silent || contactorOpen))
         && log == old(log) + [DynamicRequested(r, l)] + (if kept then [] else [DynamicStored(v, i)]) +
                   (if silent then [] else TargetCommands(old(Now()), latestVoltage, latestCurrent))
    }

    /** A request in dynamic mode. */
    method HandleDynamicMode(r: DynamicRequest, l: EvseLimits)
      requires Valid()
      modifies `latestVoltage, `latestCurrent, `lastPhase, `lastExporting, `lastExportingDynamic, `isOn, `log
      ensures Valid() && lastExportingDynamic == direction.exporting
      ensures TargetsDynamic(r, l)
    {
      hide IsLargest, DynamicCurrent, DynamicBounds, DynamicTarget, TargetCommands, DcSupply.Valid, AlmostEqual;
      var flowChanged := direction.exporting != lastExportingDynamic;
      lastExportingDynamic := direction.exporting;
      NoteRequest(DynamicRequested(r, l));
      var bounds := DynamicBounds(direction, r, l);
      if bounds.minPower > bounds.maxPower {
        return;
      }
      var v := DynamicTarget(direction, r, l);
      var i := DynamicCurrent(bounds, DynamicVoltage());
      var changed := false;
      if !(AlmostEqual(v, latestVoltage) && AlmostEqual(i, latestCurrent)) {
        StoreDynamic(v, i, r, l);
        changed := true;
      }
      if changed || flowChanged {
        FollowTarget();
      }
    }

    method StoreDynamic(v: NonNegative, i: real, ghost r: DynamicRequest, ghost l: EvseLimits)
      requires Valid() && Known(log).dynamic == Some((r, l))
      requires DynamicBounds(direction, r, l).minPower <= DynamicBounds(direction, r, l).maxPower
      requires v == DynamicTarget(direction, r, l) && IsLargest(i, DynamicBounds(direction, r, l), DynamicVoltage())
      modifies `latestVoltage, `latestCurrent, `log
      ensures Valid() && latestVoltage == v && latestCurrent == i && log == old(log) + [DynamicStored(v, i)]
    {
      hide Lawful, IsLargest, DynamicBounds, DynamicTarget;
      latestVoltage := v;
      latestCurrent := i;
      Send(DynamicStored(v, i));
    }
  }

  /** One call, noted in the history. */
  method Apply(d: DcSupply, i: Input)
    requires d.Valid()
    modifies d
    ensures d.Valid() && d.history == old(d.history) + [i]
    ensures i.TargetInput? ==> d.Targets(i.voltage, i.current) && d.limits == old(d.limits)
    ensures i.DynamicInput? ==>
      d.TargetsDynamic(i.request, i.evse) && d.limits == old(d.limits) && d.direction == old(d.direction)
    ensures (i.OnInput? ==> d.isOn) && (i.OffInput? ==> !d.isOn)
  {
    hide DcSupply.Valid, DcSupply.Targets, DcSupply.TargetsDynamic;
    match i {
      case TargetInput(v, c) => d.HandleTarget(v, c);
      case DynamicInput(r, l) => d.HandleDynamicMode(r, l);
      case SetInput(v, c) => var _ := d.PowerSupplySet(v, c);
      case OnInput => d.PowerSupplyOn();
      case OffInput => d.PowerSupplyOff();
      case ResetTargetInput => d.ResetTarget();
      case LimitsInput(l) => d.SetLimits(l);
      case CapabilitiesInput(c) => d.ReportCapabilities(c);
      case DeratingInput(r) => d.SetDerating(r);
      case PhaseInput(p) => d.phase := p;
      case DirectionInput(e) => d.SetDirection(e);
      case ContactorInput(o) => d.contactorOpen := o;
    }
    d.history := d.history + [i];
  }

  /**
   Over every run: setpoints and targets respect what was in force at the time, and the supply is on unless told
   off.
   */
  method RunSupply(cfg: SupplyConfig, caps: Capabilities, limits: Limits, anyPhase: ChargingPhase,
                   anyLastPhase: ChargingPhase, inputs: seq<Input>)
    returns (d: DcSupply, log: seq<Event>)
    ensures d.history == inputs && log == d.log
    ensures Lawful(log) && d.Knows(Known(log))
    ensures |inputs| > 0 && inputs[|inputs| - 1].OnInput? ==> d.isOn
    ensures |inputs| > 0 && inputs[|inputs| - 1].OffInput? ==> !d.isOn
  {
    hide Lawful, DcSupply.Knows;
    d := new DcSupply(cfg, caps, limits, anyPhase, anyLastPhase);
    var k := 0;
    while k < |inputs|
      invariant 0 <= k <= |inputs|
      invariant fresh(d) && d.Valid() && d.history == inputs[..k]
      invariant k > 0 ==> (inputs[k - 1].OnInput? ==> d.isOn) && (inputs[k - 1].OffInput? ==> !d.isOn)
    {
      Apply(d, inputs[k]);
      k := k + 1;
    }
    log := d.log;
  }

  // ------------------------------------------------------------ single runs

  const SOME_LIMITS := EvseLimits(50000.0, 0.0, 100.0, 0.0, None, None, None)

  /** A request for up to so many ampere. */
  function UpTo(current: real): DynamicRequest {
    DynamicRequest(50000.0, 0.0, current, 200.0, 400.0, None, None, None)
  }

  /** A dynamic limit that is lowered by no more than the tolerance is not followed. */
  method LoweredLimitIsMissed(cfg: SupplyConfig, caps: Capabilities,
                              anyPhase: ChargingPhase, anyLastPhase: ChargingPhase)
    returns (d: DcSupply, log: seq<Event>)
    ensures d.Valid() && log == d.log && Lawful(log)
    ensures d.history == [DynamicInput(UpTo(10.0), SOME_LIMITS)] + [DynamicInput(UpTo(9.9999995), SOME_LIMITS)]
    ensures d.latestCurrent > DynamicBounds(d.direction, UpTo(9.9999995), SOME_LIMITS).maxCurrent
  {
    hide DcSupply.Knows, Lawful, TargetCommands;
    d := new DcSupply(cfg, caps, Limits(None, None, 100.0, 50000.0, Some(0.0)), anyPhase, anyLastPhase);
    Apply(d, DynamicInput(UpTo(10.0), SOME_LIMITS));
    Apply(d, DynamicInput(UpTo(9.9999995), SOME_LIMITS));
    log := d.log;
  }

  /** A supply that cannot deliver less than 10 A is set to 10 A, for an EV that asks for 3 A and takes at most 5 A. */
  method SetpointIsTooHigh(cfg: SupplyConfig, anyPhase: ChargingPhase, anyLastPhase: ChargingPhase)
    returns (d: DcSupply, log: seq<Event>)
    ensures d.Valid() && log == d.log && Lawful(log) && d.history == [TargetInput(400.0, 3.0)]
    ensures Known(log).limits.evCurrent == Some(5.0) && |log| > 0 && log[|log| - 1] == SetExport(400.0, 10.0)
  {
    hide Lawful;
    var caps := Capabilities(200.0, 500.0, 10.0, 100.0, None, None, None, None);
    d := new DcSupply(cfg, caps, Limits(Some(5.0), None, 100.0, 50000.0, None), anyPhase, anyLastPhase);
    ghost var s := d.Now();
    Apply(d, TargetInput(400.0, 3.0));
    assert WithinLimits(400.0, 3.0, d.limits);
    assert TargetCommands(s, 400.0, 3.0) == [SetExport(400.0, 10.0)];
    log := d.log;
  }
}
