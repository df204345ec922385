/**
 The must-brake deadline. From the call that enters PUSHING on, with the dispatcher called
 at least once per tick and nothing but FAULT requests from outside, the pod commands its
 primary brakes on within MUST_BRAKE_TO + 300 ticks, or leaves BRAKING because the run is
 over, or fails the pressure check on the way into COAST.
 */
module PodDeadline {
  import opened Words
  import opened PodModel
  import opened PodRuns

  function IssuedBy(p: Pod, c: Call): seq<Command> {
    Issued(c.cfg, Outside(p, c), Wrap32(c.time), c.s)
  }

  function Want(p: Pod, c: Call): Option<StateName> {
    InForce(c.cfg, Outside(p, c), Wrap32(c.time), c.s)
  }

  /** One of the three outcomes that the deadline promises. */
  predicate Outcome(p: Pod, c: Call) {
    || PrimaryBrakes(100) in IssuedBy(p, c)
    || (p.curr == BRAKING && Step(p, c).curr == IDLE && Outside(p, c).flags.runOver && c.s.vel < 10)
    || (p.curr == PUSHING && Want(p, c) == Some(COAST) && PressureBad(c.s))
  }

  predicate StampsUpTo(st: Stamps, t: int) {
    st.fault <= t && st.idle <= t && st.ready <= t && st.pushing <= t && st.coast <= t && st.braking <= t
  }

  /** A pod under way since tick `t0`, last handled at tick `t`. */
  predicate UnderWay(p: Pod, t0: int, t: int) {
    && p.curr in {PUSHING, COAST, BRAKING}
    && p.pushingStart == t0 <= t
    && (p.changeState ==> p.next == p.curr)
    && StampsUpTo(p.stamps, t)
  }

  /** A call without command-line state requests and before the tick wraps. */
  predicate Quiet(c: Call, cfg: Config) {
    c.cfg == cfg && c.request in {None, Some(FAULT)} && c.time < TWO_TO_THE_32
  }

  lemma SetUpTo(st: Stamps, s: StateName, t: u32)
    requires StampsUpTo(st, t)
    ensures StampsUpTo(st.Set(s, t), t)
  {
  }

  lemma StampsStep(cfg: Config, p: Pod, now: u32, s: Sensors)
    requires StampsUpTo(p.stamps, now)
    ensures StampsUpTo(Handle(cfg, p, now, s).stamps, now)
  {
    SetUpTo(p.stamps, p.curr, now);
    var q := Tick(cfg, p, now, s);
    assert q.stamps == p.stamps || q.stamps == p.stamps.Set(p.curr, now);
    assert Transit(cfg, q, now, s).stamps == q.stamps;
  }

  lemma OutsideUnderWay(p: Pod, c: Call, cfg: Config, t0: int, t: int)
    requires UnderWay(p, t0, t) && Quiet(c, cfg) && t <= c.time
    ensures var o := Outside(p, c);
            && o.curr == p.curr && o.pushingStart == t0 && o.stamps == p.stamps
            && (o.changeState ==> o.next == p.curr || o.next == FAULT)
            && Wrap32(c.time) == c.time && Since(c.time, t0) == c.time - t0
  {
  }

  /** The request in force of a pod under way. */
  lemma WantUnderWay(cfg: Config, o: Pod, now: u32, s: Sensors)
    requires o.curr in {PUSHING, COAST, BRAKING}
    requires o.changeState ==> o.next == o.curr || o.next == FAULT
    ensures var want := InForce(cfg, o, now, s);
            && (o.curr == PUSHING ==> want in {None, Some(PUSHING), Some(FAULT), Some(COAST), Some(BRAKING)})
            && (o.curr == COAST ==> want in {None, Some(COAST), Some(FAULT), Some(BRAKING)})
            && (o.curr == BRAKING ==> want in {None, Some(BRAKING), Some(FAULT), Some(IDLE)})
            && (want == Some(IDLE) ==> o.flags.runOver && s.vel < 10)
  {
  }

  lemma EntryBrakes(cfg: Config, o: Pod, now: u32, s: Sensors)
    requires InForce(cfg, o, now, s) == Some(BRAKING) && o.curr != BRAKING
    requires Since(now, o.pushingStart) >= cfg.dontBrakeTo
    ensures PrimaryBrakes(100) in Issued(cfg, o, now, s)
  {
    var entry := ToCommands(cfg, BRAKING, o.curr, Since(now, o.pushingStart), s);
    assert entry == [PrimaryBrakes(100)];
  }

  lemma FaultBrakes(cfg: Config, o: Pod, now: u32, s: Sensors)
    requires InForce(cfg, o, now, s) == Some(FAULT) && o.curr == BRAKING && Late(cfg, o, now)
    ensures PrimaryBrakes(100) in Issued(cfg, o, now, s)
  {
    var entry := ToCommands(cfg, FAULT, BRAKING, Since(now, o.pushingStart), s);
    assert entry[0] == PrimaryBrakes(100);
  }

  lemma InBrakingBrakes(cfg: Config, o: Pod, now: u32, s: Sensors)
    requires o.curr == BRAKING && Due(o, now) && Late(cfg, o, now)
    ensures PrimaryBrakes(100) in Issued(cfg, o, now, s)
  {
    var inside := InCommands(cfg, o, now, s);
    assert inside[|inside| - 1] == PrimaryBrakes(100);
  }

  /** Until one of the outcomes, the pod stays under way; once it brakes late, it keeps braking. */
  lemma StaysUnderWay(p: Pod, c: Call, cfg: Config, t0: int, t: int)
    requires UnderWay(p, t0, t) && Quiet(c, cfg) && t <= c.time && !Outcome(p, c)
    ensures UnderWay(Step(p, c), t0, c.time)
    ensures p.curr == BRAKING && c.time - t0 > cfg.dontBrakeTo ==> Step(p, c).curr == BRAKING
  {
    var o := Outside(p, c);
    var now := Wrap32(c.time);
    OutsideUnderWay(p, c, cfg, t0, t);
    WantUnderWay(cfg, o, now, c.s);
    Landing(cfg, o, now, c.s);
    PushRecorded(cfg, o, now, c.s);
    StampsStep(cfg, o, now, c.s);
    if Want(p, c) == Some(BRAKING) && o.curr != BRAKING && Since(now, t0) >= cfg.dontBrakeTo {
      EntryBrakes(cfg, o, now, c.s);
    }
    if Want(p, c) == Some(FAULT) && o.curr == BRAKING && Late(cfg, o, now) {
      FaultBrakes(cfg, o, now, c.s);
    }
  }

  /** At a tick where the in-state handler is due, a pod past its deadline reaches an outcome. */
  lemma CheckBrakes(p: Pod, c: Call, cfg: Config, t0: int, t: int)
    requires UnderWay(p, t0, t) && Quiet(c, cfg) && t < c.time
    requires cfg.dontBrakeTo <= cfg.mustBrakeTo < c.time - t0
    requires if p.curr == BRAKING then c.time % 100 == 0 else c.time % 250 == 0
    ensures Outcome(p, c)
  {
    var o := Outside(p, c);
    OutsideUnderWay(p, c, cfg, t0, t);
    assert Due(o, c.time);
    if p.curr == BRAKING {
      InBrakingBrakes(cfg, o, c.time, c.s);
    } else {
      assert InRequest(cfg, o, c.time, c.s) == Some(BRAKING);
      EntryBrakes(cfg, o, c.time, c.s);
    }
  }

  /** The dispatcher is called at least once in every tick from `t0` on. */
  ghost predicate EveryTick(calls: seq<Call>, t0: int) {
    forall i: nat :: i < |calls| ==> NextTick(calls, t0, i)
  }

  /** The tick of the call before call `i`, or of the push. */
  function Before(calls: seq<Call>, t0: int, i: nat): int
    requires i <= |calls|
  {
    if i == 0 then t0 else calls[i - 1].time
  }

  predicate NextTick(calls: seq<Call>, t0: int, i: nat)
    requires i < |calls|
  {
    Before(calls, t0, i) <= calls[i].time <= Before(calls, t0, i) + 1
  }

  ghost predicate AllQuiet(calls: seq<Call>, cfg: Config) {
    forall i: nat :: i < |calls| ==> Quiet(calls[i], cfg)
  }

  /** Call `k` of the run brings one of the outcomes. */
  predicate Reached(pods: seq<Pod>, calls: seq<Call>, k: nat)
    requires k < |calls| && k < |pods|
  {
    Outcome(pods[k], calls[k])
  }

  ghost predicate NoneReached(pods: seq<Pod>, calls: seq<Call>, n: nat)
    requires n <= |calls| && n <= |pods|
  {
    forall k: nat :: k < n ==> !Reached(pods, calls, k)
  }

  /** Every tick up to the last is reached: the first call in it comes right after an earlier tick. */
  lemma {:induction false} FirstCallInTick(calls: seq<Call>, t0: int, m: int, n: nat) returns (i: nat)
    requires EveryTick(calls, t0) && t0 < m && n < |calls| && m <= calls[n].time
    ensures i <= n && calls[i].time == m
    ensures Before(calls, t0, i) < m
  {
    assert NextTick(calls, t0, n);
    var before := Before(calls, t0, n);
    if before < m {
      i := n;
    } else {
      i := FirstCallInTick(calls, t0, m, n - 1);
    }
  }

  /** What one call without an outcome does to a pod under way. */
  lemma OneCall(pods: seq<Pod>, calls: seq<Call>, cfg: Config, t0: int, k: nat)
    requires IsRun(pods, calls) && AllQuiet(calls, cfg) && EveryTick(calls, t0) && k < |calls|
    requires UnderWay(pods[k], t0, Before(calls, t0, k)) && !Reached(pods, calls, k)
    ensures UnderWay(pods[k + 1], t0, calls[k].time)
    ensures pods[k].curr == BRAKING && calls[k].time - t0 > cfg.dontBrakeTo ==> pods[k + 1].curr == BRAKING
  {
    assert NextTick(calls, t0, k);
    StaysUnderWay(pods[k], calls[k], cfg, t0, Before(calls, t0, k));
    assert Follows(pods, calls, k);
  }

  /** Without an outcome so far the pod is under way before every call. */
  lemma {:induction false} UnderWayUpTo(pods: seq<Pod>, calls: seq<Call>, cfg: Config, t0: int, i: nat)
    requires IsRun(pods, calls) && AllQuiet(calls, cfg) && EveryTick(calls, t0) && i <= |calls|
    requires UnderWay(pods[0], t0, t0)
    requires NoneReached(pods, calls, i)
    ensures UnderWay(pods[i], t0, Before(calls, t0, i))
  {
    if i > 0 {
      UnderWayUpTo(pods, calls, cfg, t0, i - 1);
      OneCall(pods, calls, cfg, t0, i - 1);
    }
  }

  /** A pod found braking late is still braking before every later call without an outcome. */
  lemma {:induction false} KeepsBraking(pods: seq<Pod>, calls: seq<Call>, cfg: Config, t0: int, i: nat, j: nat)
    requires IsRun(pods, calls) && AllQuiet(calls, cfg) && EveryTick(calls, t0) && i <= j < |calls|
    requires UnderWay(pods[0], t0, t0)
    requires NoneReached(pods, calls, j)
    requires pods[i].curr == BRAKING && calls[i].time - t0 > cfg.dontBrakeTo
    ensures pods[j].curr == BRAKING && calls[i].time <= calls[j].time
  {
    if i < j {
      KeepsBraking(pods, calls, cfg, t0, i, j - 1);
      UnderWayUpTo(pods, calls, cfg, t0, j - 1);
      OneCall(pods, calls, cfg, t0, j - 1);
      assert NextTick(calls, t0, j);
    }
  }

  /** The first tick after `t` at which a handler with a 250-tick interval is due. */
  function NextCheck(t: nat): (m: nat)
    ensures t < m <= t + 250 && m % 250 == 0
  {
    (t / 250 + 1) * 250
  }

  /** The first tick from `m` on at which in_braking is due. */
  function NextBrakingCheck(m: nat): (r: nat)
    requires m % 250 == 0
    ensures m <= r <= m + 50 && r % 100 == 0
  {
    var h := m / 500;
    assert m == 500 * h || m == 500 * h + 250;
    if m == 500 * h then assert m == 100 * (5 * h); m
    else assert m + 50 == 100 * (5 * h + 3); m + 50
  }

  /** The main result: an outcome within MUST_BRAKE_TO + 300 ticks of the push. */
  lemma {:induction false} MustBrakeDeadline(pods: seq<Pod>, calls: seq<Call>, cfg: Config, t0: nat)
    requires cfg.dontBrakeTo <= cfg.mustBrakeTo
    requires IsRun(pods, calls) && AllQuiet(calls, cfg) && EveryTick(calls, t0)
    requires UnderWay(pods[0], t0, t0)
    requires calls != [] && t0 + cfg.mustBrakeTo + 300 <= calls[|calls| - 1].time
    ensures exists i: nat :: i < |calls| && Reached(pods, calls, i)
                             && calls[i].time <= t0 + cfg.mustBrakeTo + 300
  {
    var m := NextCheck(t0 + cfg.mustBrakeTo);
    var i := FirstCallInTick(calls, t0, m, |calls| - 1);
    var m' := NextBrakingCheck(m);
    var j := FirstCallInTick(calls, t0, m', |calls| - 1);
    EarlierIsEarlier(calls, t0, j);
    if i > j { EarlierIsEarlier(calls, t0, i - 1); }
    if k: nat :| k <= j && Reached(pods, calls, k) {
      assert calls[k].time <= m';
    } else {
      NothingMissed(pods, calls, cfg, t0, i, j);
    }
  }

  /** A pod that is due at call `i`, and at call `j` if it is braking, reaches an outcome by then. */
  lemma {:induction false} NothingMissed(pods: seq<Pod>, calls: seq<Call>, cfg: Config, t0: nat, i: nat, j: nat)
    requires cfg.dontBrakeTo <= cfg.mustBrakeTo
    requires IsRun(pods, calls) && AllQuiet(calls, cfg) && EveryTick(calls, t0)
    requires UnderWay(pods[0], t0, t0) && i <= j < |calls|
    requires calls[i].time % 250 == 0 && calls[j].time % 100 == 0
    requires t0 + cfg.mustBrakeTo < calls[i].time
    requires Before(calls, t0, i) < calls[i].time
    requires Before(calls, t0, j) < calls[j].time
    ensures Reached(pods, calls, i) || !NoneReached(pods, calls, j) || Reached(pods, calls, j)
  {
    if NoneReached(pods, calls, j) {
      assert NoneReached(pods, calls, i);
      UnderWayUpTo(pods, calls, cfg, t0, i);
      if pods[i].curr == BRAKING {
        KeepsBraking(pods, calls, cfg, t0, i, j);
        UnderWayUpTo(pods, calls, cfg, t0, j);
        CheckBrakes(pods[j], calls[j], cfg, t0, Before(calls, t0, j));
      } else {
        CheckBrakes(pods[i], calls[i], cfg, t0, Before(calls, t0, i));
      }
    }
  }

  lemma {:induction false} EarlierIsEarlier(calls: seq<Call>, t0: int, j: nat)
    requires EveryTick(calls, t0) && j < |calls|
    ensures forall k: nat :: k <= j ==> calls[k].time <= calls[j].time
  {
    assert NextTick(calls, t0, j);
    if j > 0 {
      EarlierIsEarlier(calls, t0, j - 1);
    }
  }

  lemma StampsCall(p: Pod, c: Call)
    requires c.time < TWO_TO_THE_32 && StampsUpTo(p.stamps, c.time)
    ensures StampsUpTo(Step(p, c).stamps, c.time)
  {
    assert Wrap32(c.time) == c.time;
    assert Outside(p, c).stamps == p.stamps;
    StampsStep(c.cfg, Outside(p, c), c.time, c.s);
  }

  /** Entering PUSHING is what puts a pod under way. */
  lemma PushingPutsUnderWay(p: Pod, c: Call)
    requires p.curr != PUSHING && Step(p, c).curr == PUSHING
    requires c.time < TWO_TO_THE_32 && StampsUpTo(p.stamps, c.time)
    ensures UnderWay(Step(p, c), c.time, c.time)
  {
    StampsCall(p, c);
    OutsideKeepsState(p, c);
    PushLands(c.cfg, Outside(p, c), Wrap32(c.time), c.s);
    UnderWayFrom(Step(p, c), c.time);
  }

  lemma OutsideKeepsState(p: Pod, c: Call)
    ensures Outside(p, c).curr == p.curr
  {
  }

  lemma UnderWayFrom(r: Pod, t: u32)
    requires r.curr == PUSHING && r.pushingStart == t && (r.changeState ==> r.next == r.curr)
    requires StampsUpTo(r.stamps, t)
    ensures UnderWay(r, t, t)
  {
  }

  lemma PushLands(cfg: Config, p: Pod, now: u32, s: Sensors)
    requires p.curr != PUSHING && Handle(cfg, p, now, s).curr == PUSHING
    ensures var r := Handle(cfg, p, now, s); r.pushingStart == now && (r.changeState ==> r.next == r.curr)
  {
    Landing(cfg, p, now, s);
    PushRecorded(cfg, p, now, s);
  }

  lemma StampsWeaken(st: Stamps, t: int, t': int)
    requires StampsUpTo(st, t) && t <= t'
    ensures StampsUpTo(st, t')
  {
  }

  lemma {:induction false} StampsOfRun(pods: seq<Pod>, calls: seq<Call>, i: nat)
    requires IsFullRun(pods, calls) && i < |calls| && calls[i].time < TWO_TO_THE_32
    ensures StampsUpTo(pods[i].stamps, calls[i].time)
  {
    if i > 0 {
      assert calls[i - 1].time <= calls[i].time by { assert Follows(pods, calls, i); }
      StampsOfRun(pods, calls, i - 1);
      StampsCall(pods[i - 1], calls[i - 1]);
      StampsWeaken(Step(pods[i - 1], calls[i - 1]).stamps, calls[i - 1].time, calls[i].time);
      assert Follows(pods, calls, i - 1);
    }
  }

  lemma RestIsRun(pods: seq<Pod>, calls: seq<Call>, k: nat)
    requires IsRun(pods, calls) && k <= |calls|
    ensures IsRun(pods[k..], calls[k..])
  {
    forall i: nat ensures Follows(pods[k..], calls[k..], i) {
      assert Follows(pods, calls, k + i);
    }
  }

  /**
   The deadline on full runs: anything may happen up to the call `k` that enters PUSHING;
   from then on the pod is handled every tick and hears only FAULT requests.
   */
  lemma {:induction false} DeadlineAfterPush(pods: seq<Pod>, calls: seq<Call>, cfg: Config, k: nat)
    requires cfg.dontBrakeTo <= cfg.mustBrakeTo
    requires IsFullRun(pods, calls) && k < |calls|
    requires pods[k].curr != PUSHING && pods[k + 1].curr == PUSHING
    requires calls[k].time < TWO_TO_THE_32
    requires AllQuiet(calls[k + 1..], cfg) && EveryTick(calls[k + 1..], calls[k].time)
    requires k + 1 < |calls| && calls[k].time + cfg.mustBrakeTo + 300 <= calls[|calls| - 1].time
    ensures exists i: nat :: k < i < |calls| && Reached(pods, calls, i)
                             && calls[i].time <= calls[k].time + cfg.mustBrakeTo + 300
  {
    assert UnderWay(pods[k + 1], calls[k].time, calls[k].time) by {
      StampsOfRun(pods, calls, k);
      assert Follows(pods, calls, k);
      PushingPutsUnderWay(pods[k], calls[k]);
    }
    RestIsRun(pods, calls, k + 1);
    MustBrakeDeadline(pods[k + 1..], calls[k + 1..], cfg, calls[k].time);
    var i: nat :| i < |calls| - (k + 1) && Reached(pods[k + 1..], calls[k + 1..], i)
                  && calls[k + 1..][i].time <= calls[k].time + cfg.mustBrakeTo + 300;
    assert Reached(pods, calls, k + 1 + i);
  }
}
