/**
 The Hyperloop pod state machine on values: the entry, in-state and exit handlers and the
 generic dispatcher, as functions from the state before a call to the state after it.
 Actuator calls are recorded in `log`; sensors and configuration are inputs of every call.
 */
module PodModel {
  import opened Words

  datatype Option<T> = None | Some(value: T)

  datatype StateName = FAULT | IDLE | READY | PUSHING | COAST | BRAKING

  /** The parameters that the command line can change while the pod is running. */
  datatype Config = Config(
    dontBrakeTo: u32,
    mustBrakeTo: u32,
    brakingCountThrs: u32,
    accelImpulse: u32,
    targetEndPos: u32,
    thrustTo: u32)

  /** What the handlers read from the telemetry buffer and the limit-switch time stamps. */
  datatype Sensors = Sensors(
    vBatt: int, iBatt: int, tBatt: int,
    brP1: int, brP2: int, brP3: int,
    accel: int, vel: int, pos: int, stopD: int,
    pLim1: bool, pLim2: bool, bLim1: bool, bLim2: bool,
    pLim1Ts: u32, pLim2Ts: u32,
    linkUp: bool)

  datatype Command =
    | PrimaryBrakes(intensity: int)
    | SecondaryBrakes(intensity: int)
    | Thrusters(on: bool)
    | VentPrimaryBrakes(open: bool)
    | VentSecondaryBrakes(open: bool)
    | VentThrusters(open: bool)

  datatype Flags = Flags(powerOn: bool, runOver: bool, retryInit: bool)

  /** One entry per state of state_event_timestamps. */
  datatype Stamps = Stamps(fault: u32, idle: u32, ready: u32, pushing: u32, coast: u32, braking: u32) {
    function Get(s: StateName): u32 {
      match s
      case FAULT => fault
      case IDLE => idle
      case READY => ready
      case PUSHING => pushing
      case COAST => coast
      case BRAKING => braking
    }

    function Set(s: StateName, v: u32): (r: Stamps)
      ensures r.Get(s) == v
      ensures forall t :: t != s ==> r.Get(t) == Get(t)
    {
      match s
      case FAULT => this.(fault := v)
      case IDLE => this.(idle := v)
      case READY => this.(ready := v)
      case PUSHING => this.(pushing := v)
      case COAST => this.(coast := v)
      case BRAKING => this.(braking := v)
    }
  }

  datatype Pod = Pod(
    curr: StateName,
    prev: StateName,
    next: StateName,
    changeState: bool,
    flags: Flags,
    stamps: Stamps,
    pushingStart: u32,
    coastStart: u32,
    primaryLowCount: u32,
    log: seq<Command>)

  const BRAKING_ON_P_UPPER := 150
  const BRAKING_ON_P_LOWER := 100
  const BRAKING_OFF_P_UPPER := 40
  const BRAKING_OFF_P_LOWER := 0

  /** CHECK_THRESHOLD: true when the value is out of range. */
  predicate OutOfRange(value: int, upper: int, lower: int) {
    value > upper || value < lower
  }

  /** `ticks % state_intervals[s] == 0`: IDLE and BRAKING run every 100 ticks, the rest every 250. */
  predicate OnInterval(s: StateName, now: u32) {
    if s == IDLE || s == BRAKING then now % 100 == 0 else now % 250 == 0
  }

  const INITIAL_POD: Pod :=
    Pod(IDLE, IDLE, IDLE, false, Flags(true, false, false), Stamps(0, 0, 0, 0, 0, 0), 0, 0, 0, [])

  // ---- conditions on the sensors -------------------------------------------------------

  /** One of the nine checks of verify_DAQ fails. */
  predicate DaqBad(s: Sensors) {
    || OutOfRange(s.vBatt, 14500, 10500)
    || OutOfRange(s.iBatt, 13000, 0)
    || OutOfRange(s.tBatt, 400, 150)
    || OutOfRange(s.brP1, BRAKING_ON_P_UPPER, BRAKING_ON_P_LOWER)
    || OutOfRange(s.brP2, BRAKING_ON_P_UPPER, BRAKING_ON_P_LOWER)
    || OutOfRange(s.brP3, BRAKING_OFF_P_UPPER, BRAKING_OFF_P_LOWER)
    || OutOfRange(s.accel, 100, -100)
    || OutOfRange(s.vel, 5, -5)
    || OutOfRange(s.pos, 0, 0)
  }

  /** The upstream brake pressures that to_coast insists on are not there. */
  predicate PressureBad(s: Sensors) {
    || OutOfRange(s.brP1, BRAKING_ON_P_UPPER, BRAKING_ON_P_LOWER)
    || OutOfRange(s.brP2, BRAKING_ON_P_UPPER, BRAKING_ON_P_LOWER)
  }

  /** Stopping distance plus position, compared as unsigned words, is past the target. */
  predicate PastTarget(cfg: Config, s: Sensors) {
    Wrap32(s.stopD + s.pos) > cfg.targetEndPos
  }

  /** A sample that in_braking counts towards firing the secondary brakes. */
  predicate Qualifying(cfg: Config, s: Sensors) {
    || (OutOfRange(s.brP3, BRAKING_ON_P_UPPER, BRAKING_ON_P_LOWER) && s.bLim1 && s.bLim2)
    || (Wrap32(s.stopD) != cfg.targetEndPos && PastTarget(cfg, s))
  }

  function LaterLimit(s: Sensors): u32 {
    if s.pLim1Ts > s.pLim2Ts then s.pLim1Ts else s.pLim2Ts
  }

  // ---- in-state handlers ---------------------------------------------------------------

  /** What an in-state handler asks for with its last call of change_state, if any. */
  function InRequest(cfg: Config, p: Pod, now: u32, s: Sensors): Option<StateName> {
    match p.curr
    case FAULT =>
      if (p.flags.retryInit && s.linkUp) || p.flags.runOver then Some(IDLE) else None
    case IDLE =>
      if !p.flags.runOver && DaqBad(s) then Some(FAULT) else None
    case READY =>
      // GET_ACCEL > ACCEL_IMPULSE compares unsigned words, so a negative reading passes
      if !(s.pLim1 && s.pLim2) && Wrap32(s.accel) > cfg.accelImpulse then Some(PUSHING) else None
    case PUSHING =>
      if Since(now, p.pushingStart) > cfg.mustBrakeTo then Some(BRAKING)
      else if s.pLim1 && s.pLim2 && Since(now, LaterLimit(s)) > 1000 then Some(COAST) else None
    case COAST =>
      if Since(now, p.pushingStart) > cfg.mustBrakeTo then Some(BRAKING)
      else if s.stopD == -1 then Some(FAULT)
      else if PastTarget(cfg, s) then Some(BRAKING) else None
    case BRAKING =>
      if p.flags.runOver && s.vel < 10 then Some(IDLE) else None
  }

  /** The actuator calls an in-state handler makes, in order. */
  function InCommands(cfg: Config, p: Pod, now: u32, s: Sensors): seq<Command> {
    match p.curr
    case IDLE =>
      (if p.flags.powerOn
       then [PrimaryBrakes(0), SecondaryBrakes(0), Thrusters(false),
             VentPrimaryBrakes(false), VentSecondaryBrakes(false), VentThrusters(false)]
       else []) +
      (if p.flags.runOver
       then [VentThrusters(true), VentPrimaryBrakes(true), VentSecondaryBrakes(true)] else [])
    case COAST =>
      if Since(now, p.coastStart) > cfg.thrustTo then [Thrusters(true)] else []
    case BRAKING =>
      var late := Since(now, p.pushingStart) > cfg.dontBrakeTo;
      (if late && Qualifying(cfg, s) && LowCount(cfg, p, s) > cfg.brakingCountThrs
       then [SecondaryBrakes(100)] else []) +
      (if late then [PrimaryBrakes(100)] else [])
    case _ => []
  }

  /** The static counter of in_braking after a call. */
  function LowCount(cfg: Config, p: Pod, s: Sensors): u32 {
    if p.curr == BRAKING && Qualifying(cfg, s) then Wrap32(p.primaryLowCount + 1) else p.primaryLowCount
  }

  /** The flags after an in-state handler: IDLE consumes POWER_ON, FAULT consumes RETRY_INIT. */
  function InFlags(p: Pod, s: Sensors): Flags {
    p.flags.(powerOn := p.flags.powerOn && p.curr != IDLE,
             retryInit := p.flags.retryInit && !(p.curr == FAULT && s.linkUp))
  }

  // ---- entry and exit handlers ---------------------------------------------------------

  /** What the entry handler of `to` asks for: the redirection of a transition in progress. */
  function ToRequest(cfg: Config, to: StateName, from: StateName, elapsed: u32, s: Sensors): Option<StateName> {
    match to
    case FAULT =>
      (match from
       case BRAKING => if elapsed > cfg.dontBrakeTo then None else Some(BRAKING)
       case PUSHING => Some(COAST)
       case COAST => Some(BRAKING)
       case READY => Some(IDLE)
       case _ => None)
    case COAST =>
      if from != BRAKING && from != FAULT && PressureBad(s) then Some(FAULT) else None
    case BRAKING =>
      if elapsed < cfg.dontBrakeTo then Some(COAST) else None
    case _ => None
  }

  function ToCommands(cfg: Config, to: StateName, from: StateName, elapsed: u32, s: Sensors): seq<Command> {
    match to
    case FAULT =>
      if from == BRAKING && elapsed > cfg.dontBrakeTo
      then [PrimaryBrakes(100), SecondaryBrakes(100)] else []
    case COAST =>
      if from == BRAKING || from == FAULT || PressureBad(s) then [VentThrusters(true)] else []
    case BRAKING =>
      if elapsed < cfg.dontBrakeTo then [] else [PrimaryBrakes(100)]
    case _ => []
  }

  function FromCommands(from: StateName, to: StateName): seq<Command> {
    match from
    case COAST => [Thrusters(false)]
    case BRAKING => if to != FAULT then [PrimaryBrakes(0), SecondaryBrakes(0)] else []
    case _ => []
  }

  // ---- dispatcher ----------------------------------------------------------------------

  /** check_interval: the in-state handler runs once per matching tick. */
  predicate Due(p: Pod, now: u32) {
    OnInterval(p.curr, now) && now != p.stamps.Get(p.curr)
  }

  function Requested(p: Pod, request: Option<StateName>): Pod {
    match request
    case None => p
    case Some(st) => p.(next := st, changeState := true)
  }

  /** The in-state handler of the current state. */
  function InState(cfg: Config, p: Pod, now: u32, s: Sensors): Pod {
    Requested(p, InRequest(cfg, p, now, s)).(
      log := p.log + InCommands(cfg, p, now, s),
      flags := InFlags(p, s),
      primaryLowCount := LowCount(cfg, p, s))
  }

  /** The first half of state_machine_handler. */
  function Tick(cfg: Config, p: Pod, now: u32, s: Sensors): Pod {
    if Due(p, now) then InState(cfg, p.(stamps := p.stamps.Set(p.curr, now)), now, s) else p
  }

  /** The entry handler of `to`. */
  function ToState(cfg: Config, p: Pod, to: StateName, from: StateName, now: u32, s: Sensors): Pod {
    var elapsed := Since(now, p.pushingStart);
    Requested(p, ToRequest(cfg, to, from, elapsed, s)).(
      log := p.log + ToCommands(cfg, to, from, elapsed, s),
      pushingStart := if to == PUSHING then now else p.pushingStart,
      coastStart := if to == COAST then now else p.coastStart)
  }

  /** The second half of state_machine_handler: the transition, whose entry handler may redirect it. */
  function Transit(cfg: Config, p: Pod, now: u32, s: Sensors): Pod {
    if !p.changeState then p
    else if p.curr == p.next then p.(changeState := false)
    else
      var q := p.(changeState := false, log := p.log + FromCommands(p.curr, p.next));
      var r := ToState(cfg, q, p.next, p.curr, now, s);
      r.(prev := r.curr, curr := r.next)
  }

  /** state_machine_handler */
  function Handle(cfg: Config, p: Pod, now: u32, s: Sensors): Pod {
    Transit(cfg, Tick(cfg, p, now, s), now, s)
  }
}
