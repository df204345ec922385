/**
 What makes the pod leave each of its states: the result of a dispatcher call whose in-state
 handler is due, read off the sensors, the ticks and the configuration alone.
 */
module PodTriggers {
  import opened Sequences
  import opened Words
  import opened PodModel
  import opened PodRuns

  /** Nothing but what the in-state handler may ask for is about to happen. */
  predicate Alone(p: Pod) {
    p.changeState ==> p.next == p.curr
  }

  /** The call ends in `to` after `commands`, with a request for `to` left over if the entry handler redirected. */
  predicate Ends(p: Pod, r: Pod, to: StateName, redirected: bool, commands: seq<Command>) {
    r.curr == to && r.changeState == redirected && (redirected ==> r.next == to) && r.log == p.log + commands
  }

  predicate Between(low: int, value: int, high: int) {
    low <= value <= high
  }

  // ---- FAULT and IDLE ------------------------------------------------------------------

  lemma FaultCall(cfg: Config, p: Pod, now: u32, s: Sensors)
    requires p.curr == FAULT && Alone(p) && now % 250 == 0 && now != p.stamps.fault
    ensures var r := Handle(cfg, p, now, s);
            && Ends(p, r, if p.flags.runOver || (p.flags.retryInit && s.linkUp) then IDLE else FAULT, false, [])
            && r.flags == Flags(p.flags.powerOn, p.flags.runOver, p.flags.retryInit && !s.linkUp)
  {
  }

  /** All nine readings are what they should be before a run. */
  predicate DaqGood(s: Sensors) {
    && Between(10500, s.vBatt, 14500) && Between(0, s.iBatt, 13000) && Between(150, s.tBatt, 400)
    && Between(100, s.brP1, 150) && Between(100, s.brP2, 150) && Between(0, s.brP3, 40)
    && Between(-100, s.accel, 100) && Between(-5, s.vel, 5) && s.pos == 0
  }

  const POWER_ON_COMMANDS := [PrimaryBrakes(0), SecondaryBrakes(0), Thrusters(false),
                              VentPrimaryBrakes(false), VentSecondaryBrakes(false), VentThrusters(false)]

  const RUN_OVER_COMMANDS := [VentThrusters(true), VentPrimaryBrakes(true), VentSecondaryBrakes(true)]

  lemma IdleCall(cfg: Config, p: Pod, now: u32, s: Sensors)
    requires p.curr == IDLE && Alone(p) && now % 100 == 0 && now != p.stamps.idle
    ensures var r := Handle(cfg, p, now, s);
            && Ends(p, r, if !p.flags.runOver && !DaqGood(s) then FAULT else IDLE, false,
                    (if p.flags.powerOn then POWER_ON_COMMANDS else [])
                    + if p.flags.runOver then RUN_OVER_COMMANDS else [])
            && r.flags == p.flags.(powerOn := false)
  {
    IssuedIsLogged(cfg, p, now, s);
  }

  // ---- READY and PUSHING ---------------------------------------------------------------

  /** One of the pusher switches open, and an acceleration above the impulse; a negative one reads as huge. */
  lemma ReadyCall(cfg: Config, p: Pod, now: u32, s: Sensors)
    requires p.curr == READY && Alone(p) && now % 250 == 0 && now != p.stamps.ready
    requires -TWO_TO_THE_32 < s.accel < TWO_TO_THE_32
    ensures var r := Handle(cfg, p, now, s);
            var pushed := !(s.pLim1 && s.pLim2)
                          && cfg.accelImpulse < (if s.accel >= 0 then s.accel else s.accel + TWO_TO_THE_32);
            && Ends(p, r, if pushed then PUSHING else READY, false, [])
            && r.pushingStart == if pushed then now else p.pushingStart
  {
  }

  /** Both pusher switches have been closed for more than a second. */
  predicate PusherGone(s: Sensors, now: u32) {
    s.pLim1 && s.pLim2 && Since(now, if s.pLim1Ts > s.pLim2Ts then s.pLim1Ts else s.pLim2Ts) > 1000
  }

  predicate BrakesReady(s: Sensors) {
    Between(100, s.brP1, 150) && Between(100, s.brP2, 150)
  }

  /** Time is up: BRAKING, unless it is too early to brake; else COAST, unless the brakes lack pressure. */
  lemma PushingCall(cfg: Config, p: Pod, now: u32, s: Sensors)
    requires p.curr == PUSHING && Alone(p) && now % 250 == 0 && now != p.stamps.pushing
    ensures var r, elapsed := Handle(cfg, p, now, s), Since(now, p.pushingStart);
            && (if elapsed > cfg.mustBrakeTo then
                  if elapsed >= cfg.dontBrakeTo then Ends(p, r, BRAKING, false, [PrimaryBrakes(100)])
                  else Ends(p, r, COAST, true, [])
                else if !PusherGone(s, now) then Ends(p, r, PUSHING, false, [])
                else if BrakesReady(s) then Ends(p, r, COAST, false, [])
                else Ends(p, r, FAULT, true, [VentThrusters(true)]))
            && r.coastStart == if elapsed <= cfg.mustBrakeTo && PusherGone(s, now) then now else p.coastStart
  {
    IssuedIsLogged(cfg, p, now, s);
  }

  // ---- COAST ---------------------------------------------------------------------------

  /** Thrust, once the pod has coasted for long enough. */
  function Thrust(cfg: Config, p: Pod, now: u32): seq<Command> {
    if Since(now, p.coastStart) > cfg.thrustTo then [Thrusters(true)] else []
  }

  /** A coasting pod tries to brake: it does, or is sent back because it is too early. */
  predicate TriesToBrake(cfg: Config, p: Pod, now: u32, r: Pod) {
    if Since(now, p.pushingStart) >= cfg.dontBrakeTo
    then Ends(p, r, BRAKING, false, Thrust(cfg, p, now) + [Thrusters(false), PrimaryBrakes(100)])
    else Ends(p, r, COAST, true, Thrust(cfg, p, now) + [Thrusters(false)])
  }

  /** Without a timeout: it tries to brake iff stopping distance and position add up to more than the target. */
  lemma CoastCall(cfg: Config, p: Pod, now: u32, s: Sensors)
    requires p.curr == COAST && Alone(p) && now % 250 == 0 && now != p.stamps.coast
    requires Since(now, p.pushingStart) <= cfg.mustBrakeTo
    requires s.stopD >= 0 && s.pos >= 0 && s.stopD + s.pos < TWO_TO_THE_32
    ensures var r := Handle(cfg, p, now, s);
            if s.stopD + s.pos > cfg.targetEndPos then TriesToBrake(cfg, p, now, r)
            else Ends(p, r, COAST, false, Thrust(cfg, p, now))
  {
    IssuedIsLogged(cfg, p, now, s);
  }

  /** A C integer read as an unsigned word. */
  function AsWord(x: int): int {
    if x >= 0 then x else x + TWO_TO_THE_32
  }

  /** In general the sum is one of unsigned words: a negative one reads as a huge distance. */
  lemma CoastWraps(cfg: Config, p: Pod, now: u32, s: Sensors)
    requires p.curr == COAST && Alone(p) && now % 250 == 0 && now != p.stamps.coast
    requires Since(now, p.pushingStart) <= cfg.mustBrakeTo
    requires s.stopD != -1 && -TWO_TO_THE_32 <= s.stopD + s.pos < TWO_TO_THE_32
    ensures var r := Handle(cfg, p, now, s);
            if AsWord(s.stopD + s.pos) > cfg.targetEndPos then TriesToBrake(cfg, p, now, r)
            else Ends(p, r, COAST, false, Thrust(cfg, p, now))
  {
    IssuedIsLogged(cfg, p, now, s);
  }

  /** An unknown stopping distance is a fault, which a coasting pod turns into BRAKING without braking yet. */
  lemma CoastFaults(cfg: Config, p: Pod, now: u32, s: Sensors)
    requires p.curr == COAST && Alone(p) && now % 250 == 0 && now != p.stamps.coast
    requires Since(now, p.pushingStart) <= cfg.mustBrakeTo && s.stopD == -1
    ensures Ends(p, Handle(cfg, p, now, s), BRAKING, true, Thrust(cfg, p, now) + [Thrusters(false)])
    ensures InForce(cfg, p, now, s) == Some(FAULT)
  {
    IssuedIsLogged(cfg, p, now, s);
  }

  /** The timeout comes before everything else. */
  lemma CoastTimesOut(cfg: Config, p: Pod, now: u32, s: Sensors)
    requires p.curr == COAST && Alone(p) && now % 250 == 0 && now != p.stamps.coast
    requires Since(now, p.pushingStart) > cfg.mustBrakeTo
    ensures TriesToBrake(cfg, p, now, Handle(cfg, p, now, s))
  {
    IssuedIsLogged(cfg, p, now, s);
  }

  // ---- BRAKING -------------------------------------------------------------------------

  /** The downstream pressure is off although both switches say braking, or the pod will stop past its target. */
  predicate PrimaryTooWeak(cfg: Config, s: Sensors) {
    || (!Between(100, s.brP3, 150) && s.bLim1 && s.bLim2)
    || (AsWord(s.stopD) != cfg.targetEndPos && AsWord(s.stopD + s.pos) > cfg.targetEndPos)
  }

  lemma WeakIsQualifying(cfg: Config, s: Sensors)
    requires -TWO_TO_THE_32 <= s.stopD < TWO_TO_THE_32 && -TWO_TO_THE_32 <= s.stopD + s.pos < TWO_TO_THE_32
    ensures PrimaryTooWeak(cfg, s) <==> Qualifying(cfg, s)
  {
  }

  /** Such samples are counted; after more than the threshold of them, and late enough, the secondary brakes fire. */
  lemma BrakingCall(cfg: Config, p: Pod, now: u32, s: Sensors)
    requires p.curr == BRAKING && Alone(p) && now % 100 == 0 && now != p.stamps.braking
    requires -TWO_TO_THE_32 <= s.stopD < TWO_TO_THE_32 && -TWO_TO_THE_32 <= s.stopD + s.pos < TWO_TO_THE_32
    ensures var r := Handle(cfg, p, now, s);
            var weak := PrimaryTooWeak(cfg, s);
            var count := if weak then Wrap32(p.primaryLowCount + 1) else p.primaryLowCount;
            var late := Since(now, p.pushingStart) > cfg.dontBrakeTo;
            var over := p.flags.runOver && s.vel < 10;
            && Ends(p, r, if over then IDLE else BRAKING, false,
                    (if late && weak && count > cfg.brakingCountThrs then [SecondaryBrakes(100)] else [])
                    + (if late then [PrimaryBrakes(100)] else [])
                    + (if over then [PrimaryBrakes(0), SecondaryBrakes(0)] else []))
            && r.primaryLowCount == count
  {
    WeakIsQualifying(cfg, s);
    IssuedIsLogged(cfg, p, now, s);
  }

  // ---- requests from outside -----------------------------------------------------------

  /** The in-state handler has nothing to do at this tick. */
  predicate Resting(p: Pod, now: u32) {
    now % (if p.curr == IDLE || p.curr == BRAKING then 100 else 250) != 0 || now == p.stamps.Get(p.curr)
  }

  function Exit(from: StateName, to: StateName): seq<Command> {
    if from == COAST then [Thrusters(false)]
    else if from == BRAKING && to != FAULT then [PrimaryBrakes(0), SecondaryBrakes(0)]
    else []
  }

  lemma RequestEnds(cfg: Config, p: Pod, now: u32, s: Sensors)
    requires Resting(p, now) && p.changeState && p.next != p.curr
    ensures var elapsed := Since(now, p.pushingStart);
            var redirect := ToRequest(cfg, p.next, p.curr, elapsed, s);
            && Ends(p, Handle(cfg, p, now, s), if redirect == None then p.next else redirect.value, redirect.Some?,
                    FromCommands(p.curr, p.next) + ToCommands(cfg, p.next, p.curr, elapsed, s))
            && Handle(cfg, p, now, s).prev == p.curr
  {
    assert !Due(p, now);
    Landing(cfg, p, now, s);
    TransitLogs(cfg, p, now, s);
    Assoc(p.log, FromCommands(p.curr, p.next), ToCommands(cfg, p.next, p.curr, Since(now, p.pushingStart), s));
  }

  /** A request that is in force on its own: where it leads from every state, and what it commands on the way. */
  lemma RequestCall(cfg: Config, p: Pod, now: u32, s: Sensors)
    requires Resting(p, now) && p.changeState && p.next != p.curr
    ensures var r, elapsed, exit := Handle(cfg, p, now, s), Since(now, p.pushingStart), Exit(p.curr, p.next);
            && r.prev == p.curr
            && (match p.next
                case FAULT =>
                  (match p.curr
                   case IDLE => Ends(p, r, FAULT, false, [])
                   case READY => Ends(p, r, IDLE, true, [])
                   case PUSHING => Ends(p, r, COAST, true, [])
                   case COAST => Ends(p, r, BRAKING, true, exit)
                   case BRAKING =>
                     if elapsed > cfg.dontBrakeTo
                     then Ends(p, r, FAULT, false, [PrimaryBrakes(100), SecondaryBrakes(100)])
                     else Ends(p, r, BRAKING, true, []))
                case COAST =>
                  if p.curr == BRAKING || p.curr == FAULT then Ends(p, r, COAST, false, exit + [VentThrusters(true)])
                  else if BrakesReady(s) then Ends(p, r, COAST, false, exit)
                  else Ends(p, r, FAULT, true, exit + [VentThrusters(true)])
                case BRAKING =>
                  if elapsed < cfg.dontBrakeTo then Ends(p, r, COAST, true, exit)
                  else Ends(p, r, BRAKING, false, exit + [PrimaryBrakes(100)])
                case _ => Ends(p, r, p.next, false, exit))
  {
    RequestEnds(cfg, p, now, s);
  }

  /** Nothing happens at a tick at which the handler is not due and nothing is requested. */
  lemma RestingCall(cfg: Config, p: Pod, now: u32, s: Sensors)
    requires Resting(p, now) && Alone(p)
    ensures Handle(cfg, p, now, s) == p.(changeState := false)
  {
  }

  /** A handler that was due has run for this tick: it is not due again, and only its own stamp has changed. */
  lemma RunsOncePerTick(cfg: Config, p: Pod, now: u32, s: Sensors)
    ensures var r := Handle(cfg, p, now, s);
            && (!Resting(p, now) ==> r.stamps.Get(p.curr) == now)
            && (r.curr == p.curr ==> Resting(r, now))
            && forall t :: t != p.curr || Resting(p, now) ==> r.stamps.Get(t) == p.stamps.Get(t)
  {
  }

  /** coast_ts is the tick of the latest call that went for COAST, even if it was redirected. */
  lemma CoastRecorded(cfg: Config, p: Pod, now: u32, s: Sensors)
    ensures var want := InForce(cfg, p, now, s);
            Handle(cfg, p, now, s).coastStart
            == if want == Some(COAST) && p.curr != COAST then now else p.coastStart
  {
    TickEffects(cfg, p, now, s);
  }

  // ---- over runs -----------------------------------------------------------------------

  /** So all of the above applies to every call of a run before which nothing was requested from outside. */
  lemma AloneInRuns(pods: seq<Pod>, calls: seq<Call>, i: nat)
    requires IsFullRun(pods, calls) && i < |calls| && calls[i].request == None
    ensures var c, p := calls[i], Outside(pods[i], calls[i]);
            && Alone(p) && p.curr == pods[i].curr && p.stamps == pods[i].stamps && p.log == pods[i].log
            && pods[i + 1] == Handle(c.cfg, p, Wrap32(c.time), c.s)
  {
    assert Follows(pods, calls, i);
    if i > 0 {
      assert Follows(pods, calls, i - 1);
      PendingRequestIsCurrent(pods[i - 1], calls[i - 1]);
    }
  }

  /**
   Over every run: a coasting pod whose handler is due, with nothing requested from outside and the
   push less than 2^32 ticks ago but MUST_BRAKE_TO not over, brakes in that very call iff stopping
   distance and position reach beyond the target and DONT_BRAKE_TO has passed since the push.
   */
  lemma {:induction false} PastTargetBrakes(pods: seq<Pod>, calls: seq<Call>, i: nat)
    requires IsFullRun(pods, calls) && i < |calls| && pods[i].curr == COAST
    requires var c, now := calls[i], Wrap32(calls[i].time);
             && c.request == None && now % 250 == 0 && now != pods[i].stamps.coast
             && c.time - LastPush(pods, calls, i) < TWO_TO_THE_32
             && c.time - LastPush(pods, calls, i) <= c.cfg.mustBrakeTo
             && c.s.stopD >= 0 && c.s.pos >= 0 && c.s.stopD + c.s.pos < TWO_TO_THE_32
    ensures var c := calls[i];
            var brakes := c.s.stopD + c.s.pos > c.cfg.targetEndPos
                          && c.time - LastPush(pods, calls, i) >= c.cfg.dontBrakeTo;
            && (pods[i + 1].curr == BRAKING <==> brakes)
            && (PrimaryBrakes(100) in IssuedIn(pods, calls, i) <==> brakes)
  {
    var c, p, now := calls[i], pods[i], Wrap32(calls[i].time);
    PushStartRecorded(pods, calls, i);
    AloneInRuns(pods, calls, i);
    assert i > 0 ==> Follows(pods, calls, i);
    SinceIsDistance(LastPush(pods, calls, i), c.time);
    CoastCall(c.cfg, Outside(p, c), now, c.s);
    IssuedIsLogged(c.cfg, Outside(p, c), now, c.s);
    Suffix(Outside(p, c).log, IssuedIn(pods, calls, i),
           if c.s.stopD + c.s.pos <= c.cfg.targetEndPos then Thrust(c.cfg, p, now)
           else if Since(now, p.pushingStart) < c.cfg.dontBrakeTo then Thrust(c.cfg, p, now) + [Thrusters(false)]
           else Thrust(c.cfg, p, now) + [Thrusters(false), PrimaryBrakes(100)]);
  }

  lemma Suffix<T>(a: seq<T>, b: seq<T>, c: seq<T>)
    requires a + b == a + c
    ensures b == c
  {
    assert (a + b)[|a|..] == b && (a + c)[|a|..] == c;
  }
}
