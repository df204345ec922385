/**
 The pod state machine as the firmware runs it: handlers that write the state handle, the
 saved time stamps and the actuators in place, and the dispatcher that calls them. Every
 method is tied to the functions of `PodModel`, whose runs `PodRuns` and `PodDeadline` study.
 The tick and the sensors are read once per dispatcher call.
 */
module PodController {
  import opened Words
  import opened PodModel

  function Index(s: StateName): (i: nat)
    ensures i < 6
  {
    match s
    case FAULT => 0
    case IDLE => 1
    case READY => 2
    case PUSHING => 3
    case COAST => 4
    case BRAKING => 5
  }

  class StateMachine {
    var currState: StateName
    var prevState: StateName
    var nextState: StateName
    var changeState: bool
    var flags: Flags
    const timestamps: array<u32>
    var pushingStartTs: u32
    var coastTs: u32
    var primaryLowCount: u32
    var cfg: Config
    var log: seq<Command>

    ghost predicate Valid()
      reads this
    {
      timestamps.Length == 6
    }

    ghost function View(): Pod
      reads this, timestamps
      requires Valid()
    {
      var t := timestamps;
      Pod(currState, prevState, nextState, changeState, flags,
          Stamps(t[0], t[1], t[2], t[3], t[4], t[5]),
          pushingStartTs, coastTs, primaryLowCount, log)
    }

    /** initialize_state_machine with IDLE as initial state */
    constructor (cfg: Config)
      ensures Valid() && fresh(timestamps) && this.cfg == cfg
      ensures View() == INITIAL_POD
    {
      currState, prevState, nextState := IDLE, IDLE, IDLE;
      changeState := false;
      flags := Flags(true, false, false);
      timestamps := new u32[6](_ => 0);
      pushingStartTs, coastTs, primaryLowCount := 0, 0, 0;
      this.cfg := cfg;
      log := [];
    }

    method Actuate(c: Command)
      modifies this`log
      ensures log == old(log) + [c]
    {
      log := log + [c];
    }

    method ChangeState(s: StateName)
      modifies this`nextState, this`changeState
      ensures nextState == s && changeState
    {
      nextState := s;
      changeState := true;
    }

    // ---- entry handlers ----------------------------------------------------------------

    method ToFault(from: StateName, now: u32, s: Sensors)
      requires Valid()
      modifies this`nextState, this`changeState, this`log
      ensures View() == ToState(cfg, old(View()), FAULT, from, now, s)
    {
      if from == BRAKING {
        if Since(now, pushingStartTs) > cfg.dontBrakeTo {
          Actuate(PrimaryBrakes(100));
          Actuate(SecondaryBrakes(100));
        } else {
          ChangeState(BRAKING);
        }
      } else if from == PUSHING {
        ChangeState(COAST);
      } else if from == COAST {
        ChangeState(BRAKING);
      } else if from == READY {
        ChangeState(IDLE);
      }
    }

    method ToPushing(from: StateName, now: u32, s: Sensors)
      requires Valid()
      modifies this`pushingStartTs
      ensures View() == ToState(cfg, old(View()), PUSHING, from, now, s)
    {
      pushingStartTs := now;
    }

    method ToCoast(from: StateName, now: u32, s: Sensors)
      requires Valid()
      modifies this`nextState, this`changeState, this`log, this`coastTs
      ensures View() == ToState(cfg, old(View()), COAST, from, now, s)
    {
      if from != BRAKING && from != FAULT {
        if OutOfRange(s.brP1, BRAKING_ON_P_UPPER, BRAKING_ON_P_LOWER) {
          ChangeState(FAULT);
          Actuate(VentThrusters(true));
        } else if OutOfRange(s.brP2, BRAKING_ON_P_UPPER, BRAKING_ON_P_LOWER) {
          ChangeState(FAULT);
          Actuate(VentThrusters(true));
        }
      } else {
        Actuate(VentThrusters(true));
      }
      coastTs := now;
    }

    method ToBraking(from: StateName, now: u32, s: Sensors)
      requires Valid()
      modifies this`nextState, this`changeState, this`log
      ensures View() == ToState(cfg, old(View()), BRAKING, from, now, s)
    {
      if Since(now, pushingStartTs) < cfg.dontBrakeTo {
        ChangeState(COAST);
      } else {
        Actuate(PrimaryBrakes(100));
      }
    }

    // ---- in-state handlers -------------------------------------------------------------

    method InFault(flags: Flags, now: u32, s: Sensors)
      requires Valid() && currState == FAULT && flags == this.flags
      modifies this`nextState, this`changeState, this`flags
      ensures View() == InState(cfg, old(View()), now, s)
    {
      if flags.retryInit && s.linkUp {
        ChangeState(IDLE);
        this.flags := this.flags.(retryInit := false);
      }
      if flags.runOver {
        ChangeState(IDLE);
      }
    }

    method InIdle(flags: Flags, now: u32, s: Sensors)
      requires Valid() && currState == IDLE && flags == this.flags
      modifies this`nextState, this`changeState, this`flags, this`log
      ensures View() == InState(cfg, old(View()), now, s)
    {
      if flags.powerOn {
        Actuate(PrimaryBrakes(0));
        Actuate(SecondaryBrakes(0));
        Actuate(Thrusters(false));
        Actuate(VentPrimaryBrakes(false));
        Actuate(VentSecondaryBrakes(false));
        Actuate(VentThrusters(false));
        this.flags := this.flags.(powerOn := false);
      }
      ghost var on := if flags.powerOn
                      then [PrimaryBrakes(0), SecondaryBrakes(0), Thrusters(false),
                            VentPrimaryBrakes(false), VentSecondaryBrakes(false), VentThrusters(false)]
                      else [];
      assert log == old(log) + on;
      if flags.runOver {
        Actuate(VentThrusters(true));
        Actuate(VentPrimaryBrakes(true));
        Actuate(VentSecondaryBrakes(true));
        assert log == old(log) + (on + [VentThrusters(true), VentPrimaryBrakes(true), VentSecondaryBrakes(true)]);
        return;
      }
      assert log == old(log) + (on + []);
      if DaqBad(s) {
        ChangeState(FAULT);
      }
    }

    method InReady(now: u32, s: Sensors)
      requires Valid() && currState == READY
      modifies this`nextState, this`changeState
      ensures View() == InState(cfg, old(View()), now, s)
    {
      if !(s.pLim1 && s.pLim2) && Wrap32(s.accel) > cfg.accelImpulse {
        ChangeState(PUSHING);
      }
    }

    method InPushing(now: u32, s: Sensors)
      requires Valid() && currState == PUSHING
      modifies this`nextState, this`changeState
      ensures View() == InState(cfg, old(View()), now, s)
    {
      if s.pLim1 && s.pLim2 {
        if Since(now, LaterLimit(s)) > 1000 {
          ChangeState(COAST);
        }
      }
      if Since(now, pushingStartTs) > cfg.mustBrakeTo {
        ChangeState(BRAKING);
      }
    }

    method InCoast(now: u32, s: Sensors)
      requires Valid() && currState == COAST
      modifies this`nextState, this`changeState, this`log
      ensures View() == InState(cfg, old(View()), now, s)
    {
      if s.stopD != -1 && PastTarget(cfg, s) {
        ChangeState(BRAKING);
      } else if s.stopD == -1 {
        ChangeState(FAULT);
      }
      if Since(now, pushingStartTs) > cfg.mustBrakeTo {
        ChangeState(BRAKING);
      }
      if Since(now, coastTs) > cfg.thrustTo {
        Actuate(Thrusters(true));
      }
    }

    method InBraking(flags: Flags, now: u32, s: Sensors)
      requires Valid() && currState == BRAKING && flags == this.flags
      modifies this`nextState, this`changeState, this`log, this`primaryLowCount
      ensures View() == InState(cfg, old(View()), now, s)
    {
      if Qualifying(cfg, s) {
        primaryLowCount := Wrap32(primaryLowCount + 1);
        if primaryLowCount > cfg.brakingCountThrs && Since(now, pushingStartTs) > cfg.dontBrakeTo {
          Actuate(SecondaryBrakes(100));
        }
      }
      ghost var fired := log[|old(log)|..];
      assert log == old(log) + fired;
      if Since(now, pushingStartTs) > cfg.dontBrakeTo {
        Actuate(PrimaryBrakes(100));
        assert log == old(log) + (fired + [PrimaryBrakes(100)]);
      } else {
        assert log == old(log) + (fired + []);
      }
      if flags.runOver && s.vel < 10 {
        ChangeState(IDLE);
      }
    }

    // ---- exit handlers -----------------------------------------------------------------

    method FromCoast(to: StateName)
      requires Valid()
      modifies this`log
      ensures View() == old(View()).(log := old(log) + FromCommands(COAST, to))
    {
      Actuate(Thrusters(false));
    }

    method FromBraking(to: StateName)
      requires Valid()
      modifies this`log
      ensures View() == old(View()).(log := old(log) + FromCommands(BRAKING, to))
    {
      if to != FAULT {
        Actuate(PrimaryBrakes(0));
        Actuate(SecondaryBrakes(0));
      }
    }

    // ---- dispatcher --------------------------------------------------------------------

    method CheckInterval(state: StateName, now: u32) returns (due: bool)
      requires Valid() && state == currState
      modifies timestamps
      ensures due == Due(old(View()), now)
      ensures View() == if due then old(View()).(stamps := old(View()).stamps.Set(state, now)) else old(View())
    {
      due := OnInterval(state, now) && now != timestamps[Index(state)];
      if due {
        timestamps[Index(state)] := now;
      }
    }

    method RunInState(now: u32, s: Sensors)
      requires Valid()
      modifies this`nextState, this`changeState, this`flags, this`log, this`primaryLowCount
      ensures View() == InState(cfg, old(View()), now, s)
    {
      match currState
      case FAULT => InFault(flags, now, s);
      case IDLE => InIdle(flags, now, s);
      case READY => InReady(now, s);
      case PUSHING => InPushing(now, s);
      case COAST => InCoast(now, s);
      case BRAKING => InBraking(flags, now, s);
    }

    method RunFromState(to: StateName)
      requires Valid()
      modifies this`log
      ensures View() == old(View()).(log := old(log) + FromCommands(currState, to))
    {
      match currState
      case COAST => FromCoast(to);
      case BRAKING => FromBraking(to);
      case _ =>
    }

    method RunToState(to: StateName, now: u32, s: Sensors)
      requires Valid()
      modifies this`nextState, this`changeState, this`log, this`pushingStartTs, this`coastTs
      ensures View() == ToState(cfg, old(View()), to, currState, now, s)
    {
      match to
      case FAULT => ToFault(currState, now, s);
      case PUSHING => ToPushing(currState, now, s);
      case COAST => ToCoast(currState, now, s);
      case BRAKING => ToBraking(currState, now, s);
      case _ =>
    }

    /** state_machine_handler */
    method Handler(now: u32, s: Sensors)
      requires Valid()
      modifies this, timestamps
      ensures Valid() && cfg == old(cfg)
      ensures View() == Handle(cfg, old(View()), now, s)
    {
      ghost var p := View();
      var due := CheckInterval(currState, now);
      if due {
        RunInState(now, s);
      }
      ghost var q := View();
      assert q == Tick(cfg, p, now, s);
      if changeState {
        changeState := false;
        if currState == nextState {
          return;
        }
        RunFromState(nextState);
        RunToState(nextState, now, s);
        prevState := currState;
        currState := nextState;
      }
      assert View() == Transit(cfg, q, now, s);
    }
  }
}
