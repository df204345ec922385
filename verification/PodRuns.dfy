/**
 What holds over whole runs of the pod: any sequence of calls of the dispatcher, with
 arbitrary sensors, arbitrary state requests from outside and a configuration that may
 change between calls.
 */
module PodRuns {
  import opened Words
  import opened PodModel

  /** One call of application_handler: when, with what request and flags raised before it. */
  datatype Call = Call(
    time: nat,
    cfg: Config,
    request: Option<StateName>,
    runOver: bool,
    retryInit: bool,
    s: Sensors)

  /** The pod as the dispatcher finds it. */
  function Outside(p: Pod, c: Call): Pod {
    Requested(p.(flags := p.flags.(runOver := p.flags.runOver || c.runOver,
                                   retryInit := p.flags.retryInit || c.retryInit)), c.request)
  }

  function Step(p: Pod, c: Call): Pod {
    Handle(c.cfg, Outside(p, c), Wrap32(c.time), c.s)
  }

  /** Call `i` takes `pods[i]` to `pods[i + 1]`, and no earlier than the call before it. */
  ghost predicate Follows(pods: seq<Pod>, calls: seq<Call>, i: nat)
    requires |pods| == |calls| + 1
  {
    i < |calls| ==>
      && pods[i + 1] == Step(pods[i], calls[i])
      && (i > 0 ==> calls[i - 1].time <= calls[i].time)
  }

  /** `pods[i]` is the pod before `calls[i]`; time never runs backwards. */
  ghost predicate IsRun(pods: seq<Pod>, calls: seq<Call>) {
    |pods| == |calls| + 1 && forall i: nat :: Follows(pods, calls, i)
  }

  /** A run from power-up. */
  ghost predicate IsFullRun(pods: seq<Pod>, calls: seq<Call>) {
    IsRun(pods, calls) && pods[0] == INITIAL_POD
  }

  // ---- redirected transitions ----------------------------------------------------------

  /** The request in force when the dispatcher looks, after the in-state handler has run. */
  function InForce(cfg: Config, p: Pod, now: u32, s: Sensors): Option<StateName> {
    var asked := if Due(p, now) then InRequest(cfg, p, now, s) else None;
    if asked.Some? then asked else if p.changeState then Some(p.next) else None
  }

  predicate Late(cfg: Config, p: Pod, now: u32) {
    Since(now, p.pushingStart) > cfg.dontBrakeTo
  }

  /** What the request in force and its redirection by the entry handler make of the pod. */
  lemma Landing(cfg: Config, p: Pod, now: u32, s: Sensors)
    ensures var want := InForce(cfg, p, now, s);
            var r := Handle(cfg, p, now, s);
            if want == None || want == Some(p.curr) then r.curr == p.curr && !r.changeState
            else
              var redirect := ToRequest(cfg, want.value, p.curr, Since(now, p.pushingStart), s);
              && r.changeState == redirect.Some?
              && r.curr == (if redirect.Some? then redirect.value else want.value)
              && (r.changeState ==> r.next == r.curr)
  {
    var q := Tick(cfg, p, now, s);
    assert q.curr == p.curr && q.pushingStart == p.pushingStart;
    assert InForce(cfg, p, now, s) == if q.changeState then Some(q.next) else None;
  }

  /** A request that survives the dispatcher asks for the state the pod is already in. */
  lemma PendingRequestIsCurrent(p: Pod, c: Call)
    ensures Step(p, c).changeState ==> Step(p, c).next == Step(p, c).curr
  {
    Landing(c.cfg, Outside(p, c), Wrap32(c.time), c.s);
  }

  /** Where a FAULT request takes the pod: only an idle or late-braking pod obeys it. */
  function FaultLanding(curr: StateName, late: bool): StateName {
    match curr
    case FAULT => FAULT
    case IDLE => FAULT
    case READY => IDLE
    case PUSHING => COAST
    case COAST => BRAKING
    case BRAKING => if late then FAULT else BRAKING
  }

  lemma FaultRequestLands(cfg: Config, p: Pod, now: u32, s: Sensors)
    requires InForce(cfg, p, now, s) == Some(FAULT)
    ensures Handle(cfg, p, now, s).curr == FaultLanding(p.curr, Late(cfg, p, now))
  {
    Landing(cfg, p, now, s);
  }

  /** FAULT is entered in exactly three ways. */
  lemma FaultEntered(cfg: Config, p: Pod, now: u32, s: Sensors)
    requires p.curr != FAULT
    ensures var want := InForce(cfg, p, now, s);
            Handle(cfg, p, now, s).curr == FAULT <==>
              || (want == Some(FAULT) && p.curr == IDLE)
              || (want == Some(FAULT) && p.curr == BRAKING && Late(cfg, p, now))
              || (want == Some(COAST) && PressureBad(s) && p.curr in {IDLE, READY, PUSHING})
  {
    Landing(cfg, p, now, s);
  }

  // ---- actuators -----------------------------------------------------------------------

  predicate BrakeOn(c: Command) {
    (c.PrimaryBrakes? || c.SecondaryBrakes?) && c.intensity != 0
  }

  /** The commands of one dispatcher call, in the order given. */
  function Issued(cfg: Config, p: Pod, now: u32, s: Sensors): seq<Command> {
    var inside := if Due(p, now) then InCommands(cfg, p, now, s) else [];
    var want := InForce(cfg, p, now, s);
    if want == None || want == Some(p.curr) then inside
    else
      inside + FromCommands(p.curr, want.value)
      + ToCommands(cfg, want.value, p.curr, Since(now, p.pushingStart), s)
  }

  /** The in-state half of a dispatcher call, seen from outside. */
  lemma TickEffects(cfg: Config, p: Pod, now: u32, s: Sensors)
    ensures var q := Tick(cfg, p, now, s);
            && q.curr == p.curr && q.pushingStart == p.pushingStart
            && q.log == p.log + (if Due(p, now) then InCommands(cfg, p, now, s) else [])
            && InForce(cfg, p, now, s) == (if q.changeState then Some(q.next) else None)
  {
  }

  lemma TransitLogs(cfg: Config, q: Pod, now: u32, s: Sensors)
    requires q.changeState && q.next != q.curr
    ensures Transit(cfg, q, now, s).log == q.log + FromCommands(q.curr, q.next)
                                           + ToCommands(cfg, q.next, q.curr, Since(now, q.pushingStart), s)
  {
  }

  lemma IssuedIsLogged(cfg: Config, p: Pod, now: u32, s: Sensors)
    ensures Handle(cfg, p, now, s).log == p.log + Issued(cfg, p, now, s)
  {
    TickEffects(cfg, p, now, s);
    var q := Tick(cfg, p, now, s);
    if q.changeState && q.next != q.curr {
      TransitLogs(cfg, q, now, s);
    }
  }

  /** The commands of call `i` of a run. */
  function IssuedIn(pods: seq<Pod>, calls: seq<Call>, i: nat): seq<Command>
    requires i < |calls| && i < |pods|
  {
    Issued(calls[i].cfg, Outside(pods[i], calls[i]), Wrap32(calls[i].time), calls[i].s)
  }

  /** A pod that faults out of BRAKING has just commanded both brakes on and nothing after that. */
  lemma FaultFromBrakingBrakes(cfg: Config, p: Pod, now: u32, s: Sensors)
    requires p.curr == BRAKING && Handle(cfg, p, now, s).curr == FAULT
    ensures exists before :: Handle(cfg, p, now, s).log
                             == before + [PrimaryBrakes(100), SecondaryBrakes(100)]
    ensures Late(cfg, p, now)
  {
    FaultEntered(cfg, p, now, s);
    IssuedIsLogged(cfg, p, now, s);
    var inside := if Due(p, now) then InCommands(cfg, p, now, s) else [];
    assert Issued(cfg, p, now, s) == inside + [] + [PrimaryBrakes(100), SecondaryBrakes(100)];
    assert Handle(cfg, p, now, s).log == (p.log + inside) + [PrimaryBrakes(100), SecondaryBrakes(100)];
  }

  /** The tick of the latest recorded push start before call `i`: 0, or a call that entered PUSHING. */
  function LastPush(pods: seq<Pod>, calls: seq<Call>, i: nat): nat
    requires i <= |calls| && |pods| == |calls| + 1
  {
    if i == 0 then 0
    else if pods[i - 1].curr != PUSHING && pods[i].curr == PUSHING then calls[i - 1].time
    else LastPush(pods, calls, i - 1)
  }

  lemma PushRecorded(cfg: Config, p: Pod, now: u32, s: Sensors)
    ensures var r := Handle(cfg, p, now, s);
            r.pushingStart == if p.curr != PUSHING && r.curr == PUSHING then now else p.pushingStart
  {
    Landing(cfg, p, now, s);
    var q := Tick(cfg, p, now, s);
    assert q.curr == p.curr && q.pushingStart == p.pushingStart;
    assert InForce(cfg, p, now, s) == if q.changeState then Some(q.next) else None;
  }

  lemma {:induction false} PushStartRecorded(pods: seq<Pod>, calls: seq<Call>, i: nat)
    requires IsFullRun(pods, calls) && i <= |calls|
    ensures pods[i].pushingStart == Wrap32(LastPush(pods, calls, i))
    ensures i > 0 ==> LastPush(pods, calls, i) <= calls[i - 1].time
  {
    if i > 0 {
      var c := calls[i - 1];
      PushStartRecorded(pods, calls, i - 1);
      assert Follows(pods, calls, i - 1);
      PushRecorded(c.cfg, Outside(pods[i - 1], c), Wrap32(c.time), c.s);
    }
  }

  lemma BrakeCommandsAreLate(cfg: Config, p: Pod, now: u32, s: Sensors, b: Command)
    requires b in Issued(cfg, p, now, s) && BrakeOn(b)
    ensures Since(now, p.pushingStart) >= cfg.dontBrakeTo
  {
  }

  /**
   Over every run: whenever a brake is commanded on, at least DONT_BRAKE_TO ticks have passed
   since the latest recorded push start, even if the 32-bit tick has wrapped in between.
   */
  lemma {:induction false} NoBrakingSoonAfterPush(pods: seq<Pod>, calls: seq<Call>, i: nat, b: Command)
    requires IsFullRun(pods, calls) && i < |calls|
    requires b in IssuedIn(pods, calls, i) && BrakeOn(b)
    ensures LastPush(pods, calls, i) + calls[i].cfg.dontBrakeTo <= calls[i].time
  {
    var c := calls[i];
    PushStartRecorded(pods, calls, i);
    BrakeCommandsAreLate(c.cfg, Outside(pods[i], c), Wrap32(c.time), c.s, b);
    assert Follows(pods, calls, i);
    SinceIsDistance(LastPush(pods, calls, i), c.time);
  }

  /** In this call in_braking runs and sees a qualifying sample. */
  predicate Counts(p: Pod, c: Call) {
    p.curr == BRAKING && Due(p, Wrap32(c.time)) && Qualifying(c.cfg, c.s)
  }

  /** How often in_braking has seen a qualifying sample before call `i`. */
  function Samples(pods: seq<Pod>, calls: seq<Call>, i: nat): nat
    requires i <= |calls| && |pods| == |calls| + 1
  {
    if i == 0 then 0
    else Samples(pods, calls, i - 1) + if Counts(pods[i - 1], calls[i - 1]) then 1 else 0
  }

  lemma CountStep(cfg: Config, p: Pod, now: u32, s: Sensors)
    ensures Handle(cfg, p, now, s).primaryLowCount ==
            if p.curr == BRAKING && Due(p, now) && Qualifying(cfg, s)
            then Wrap32(p.primaryLowCount + 1) else p.primaryLowCount
  {
  }

  lemma CountCall(p: Pod, c: Call)
    ensures Step(p, c).primaryLowCount ==
            if Counts(p, c) then Wrap32(p.primaryLowCount + 1) else p.primaryLowCount
  {
    CountStep(c.cfg, Outside(p, c), Wrap32(c.time), c.s);
  }

  lemma {:induction false} SamplesCounted(pods: seq<Pod>, calls: seq<Call>, i: nat)
    requires IsFullRun(pods, calls) && i <= |calls|
    ensures pods[i].primaryLowCount == Wrap32(Samples(pods, calls, i))
  {
    if i > 0 {
      SamplesCounted(pods, calls, i - 1);
      var before := Samples(pods, calls, i - 1);
      WrapAdd(before, 1);
      CountCall(pods[i - 1], calls[i - 1]);
      assert Follows(pods, calls, i - 1);
    }
  }

  lemma SecondaryInside(cfg: Config, p: Pod, now: u32, s: Sensors)
    requires SecondaryBrakes(100) in InCommands(cfg, p, now, s)
    ensures p.curr == BRAKING && Qualifying(cfg, s)
    ensures Wrap32(p.primaryLowCount + 1) > cfg.brakingCountThrs
  {
  }

  /** The in-state handler of this call commands the secondary brakes on. */
  predicate InBrakingFires(cfg: Config, p: Pod, now: u32, s: Sensors) {
    Due(p, now) && SecondaryBrakes(100) in InCommands(cfg, p, now, s)
  }

  /** The secondary brakes fire from in_braking on a counted sample, or as the pod faults out of BRAKING. */
  lemma SecondaryComesFromBraking(cfg: Config, p: Pod, now: u32, s: Sensors)
    requires SecondaryBrakes(100) in Issued(cfg, p, now, s)
    ensures p.curr == BRAKING
    ensures InBrakingFires(cfg, p, now, s) || (InForce(cfg, p, now, s) == Some(FAULT) && Late(cfg, p, now))
    ensures InBrakingFires(cfg, p, now, s) ==>
              Qualifying(cfg, s) && Wrap32(p.primaryLowCount + 1) > cfg.brakingCountThrs
  {
    if InBrakingFires(cfg, p, now, s) {
      SecondaryInside(cfg, p, now, s);
    } else {
      var want := InForce(cfg, p, now, s).value;
      assert SecondaryBrakes(100) !in FromCommands(p.curr, want);
      assert SecondaryBrakes(100) in ToCommands(cfg, want, p.curr, Since(now, p.pushingStart), s);
    }
  }

  /**
   Whatever is requested at the same time, in_braking fires the secondary brakes only after more
   than the threshold of qualifying samples, the present one included.
   */
  lemma {:induction false} SecondaryNeedsSamples(pods: seq<Pod>, calls: seq<Call>, i: nat)
    requires IsFullRun(pods, calls) && i < |calls|
    requires InBrakingFires(calls[i].cfg, Outside(pods[i], calls[i]), Wrap32(calls[i].time), calls[i].s)
    ensures Samples(pods, calls, i + 1) > calls[i].cfg.brakingCountThrs
  {
    FiringCounts(pods[i], calls[i]);
    SamplesCounted(pods, calls, i);
    WrapAdd(Samples(pods, calls, i), 1);
  }

  lemma FiringCounts(p: Pod, c: Call)
    requires InBrakingFires(c.cfg, Outside(p, c), Wrap32(c.time), c.s)
    ensures Counts(p, c) && Wrap32(p.primaryLowCount + 1) > c.cfg.brakingCountThrs
  {
    SecondaryInside(c.cfg, Outside(p, c), Wrap32(c.time), c.s);
  }

  /** The thruster valves after a history of commands, off at power-up. */
  function ThrustersOn(log: seq<Command>): bool {
    if log == [] then false
    else
      var c := log[|log| - 1];
      if c.Thrusters? then c.on else ThrustersOn(log[..|log| - 1])
  }

  /** Commands that never switch the thrusters on leave them off. */
  lemma {:induction false} ThrustersQuiet(log: seq<Command>, more: seq<Command>)
    requires !ThrustersOn(log) && Thrusters(true) !in more
    ensures !ThrustersOn(log + more)
  {
    if more == [] {
      assert log + more == log;
    } else {
      var n := |more| - 1;
      ThrustersQuiet(log, more[..n]);
      assert (log + more)[..|log| + n] == log + more[..n];
      assert more[n] in more;
    }
  }

  lemma ThrusterCommands(cfg: Config, p: Pod, now: u32, s: Sensors)
    ensures p.curr != COAST ==> Thrusters(true) !in InCommands(cfg, p, now, s)
    ensures forall to :: Thrusters(true) !in FromCommands(p.curr, to)
    ensures forall to :: Thrusters(true) !in ToCommands(cfg, to, p.curr, Since(now, p.pushingStart), s)
  {
  }

  /** Leaving COAST switches the thrusters off; no other state switches them on. */
  lemma {:induction false} ThrustersStep(cfg: Config, p: Pod, now: u32, s: Sensors)
    requires ThrustersOn(p.log) ==> p.curr == COAST
    ensures var want := InForce(cfg, p, now, s);
            ThrustersOn(p.log + Issued(cfg, p, now, s)) ==>
              p.curr == COAST && (want == None || want == Some(COAST))
  {
    ThrusterCommands(cfg, p, now, s);
    var inside := if Due(p, now) then InCommands(cfg, p, now, s) else [];
    var want := InForce(cfg, p, now, s);
    if want == None || want == Some(p.curr) {
      if p.curr != COAST { ThrustersQuiet(p.log, inside); }
    } else {
      var exit := FromCommands(p.curr, want.value);
      var entry := ToCommands(cfg, want.value, p.curr, Since(now, p.pushingStart), s);
      if p.curr != COAST {
        ThrustersQuiet(p.log, inside + exit + entry);
      } else {
        assert exit == [Thrusters(false)];
        ThrustersOff(p.log + inside);
        ThrustersQuiet(p.log + inside + exit, entry);
        assert p.log + (inside + exit + entry) == p.log + inside + exit + entry;
      }
    }
  }

  lemma {:induction false} ThrustersOff(log: seq<Command>)
    ensures !ThrustersOn(log + [Thrusters(false)])
  {
  }

  /** Over every run, the thrusters are driven only while the pod is coasting. */
  lemma {:induction false} ThrustersOnlyInCoast(pods: seq<Pod>, calls: seq<Call>, i: nat)
    requires IsFullRun(pods, calls) && i <= |calls|
    ensures ThrustersOn(pods[i].log) ==> pods[i].curr == COAST
  {
    if i > 0 {
      var c := calls[i - 1];
      ThrustersOnlyInCoast(pods, calls, i - 1);
      assert Follows(pods, calls, i - 1);
      Landing(c.cfg, Outside(pods[i - 1], c), Wrap32(c.time), c.s);
      ThrustersStep(c.cfg, Outside(pods[i - 1], c), Wrap32(c.time), c.s);
      IssuedIsLogged(c.cfg, Outside(pods[i - 1], c), Wrap32(c.time), c.s);
    }
  }
}
