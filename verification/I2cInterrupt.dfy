/**
 Interrupt-driven transfers in lockstep with the peripheral. Whatever the order in which a
 conforming peripheral raises its flags, the handler runs and the user aborts, XferSize is the
 peripheral's own count, neither counter underflows, and every accepted transfer ends in
 exactly one callback with the handle released.
 */
module I2cInterrupt {
  import opened Words
  import opened I2cBus
  import opened I2cModel

  /** What was asked for: the bus job, the buffer at the start, and the mode. */
  datatype Goal = Goal(job: Job, data: seq<byte>, mode: Mode)

  function Moved(w: World, g: Goal): seq<byte>
    requires w.n.ptr <= |w.mem|
  {
    w.mem[..w.n.ptr]
  }

  /** The buffer: untouched by a write, filled up to the pointer by a read. */
  predicate BufferOk(w: World, g: Goal) {
    && |w.mem| == |g.data| && g.job.total <= |g.data| && w.n.ptr <= g.job.total
    && (if g.job.read then w.mem[w.n.ptr..] == g.data[w.n.ptr..] else w.mem == g.data)
  }

  /** The counters agree with each other, with the buffer pointer and with the peripheral. */
  predicate Lockstep(w: World, g: Goal) {
    && BufferOk(w, g)
    && w.n.ptr + w.n.count == g.job.total
    && w.n.size <= w.n.count
    && Midway(w.port, g.job, Moved(w, g), w.n.size)
    && (w.r.autoEnd <==> w.n.size == w.n.count) && w.r.sadd == g.job.addr
  }

  /** Flags that a conforming peripheral can have up in the middle of a transfer. */
  predicate FlagsOk(w: World, g: Goal) {
    var last := w.n.size == 0 || (w.n.size == 1 && w.r.fl.rxne);
    && !w.r.fl.af && !w.r.fl.tc
    && (w.r.fl.txis ==> !g.job.read && w.n.size > 0)
    && (w.r.fl.rxne ==> g.job.read && w.n.size > 0)
    && (w.r.fl.tcr ==> last && w.n.size < w.n.count)
    && (w.r.fl.stopf ==> last && w.n.size == w.n.count)
  }

  predicate Unfinished(w: World) {
    w.calls == [] && w.h.isr == ISR_IT && !w.h.locked && !w.r.dmaEn && !w.s.tcif
  }

  /** Both directions listen for NACK, STOP and TC; only the data interrupt differs. */
  predicate ListeningFor(w: World, read: bool) {
    w.r.ie == Enables(!read, read, true, true, true)
  }

  predicate Running(w: World, g: Goal) {
    && Unfinished(w) && w.h.state == Busy(g.job.read) && w.h.mode == g.mode && w.h.err == NO_ERRORS
    && Lockstep(w, g) && FlagsOk(w, g) && ListeningFor(w, g.job.read)
  }

  /** After a NACK, until the peripheral's own STOP has been served. */
  predicate Refused(w: World, g: Goal) {
    && Unfinished(w) && w.h.state == Busy(g.job.read) && w.h.mode == g.mode
    && (w.h.err == NO_ERRORS || w.h.err == NO_ERRORS.(af := true))
    && (w.h.err == NO_ERRORS ==> w.r.fl.af)
    && w.port.bus.Stopping? && w.port.bus.spare == 0
    && !w.r.fl.rxne && !w.r.fl.tcr && !w.r.fl.tc && (w.r.fl.txis ==> w.r.fl.af)
    && ListeningFor(w, g.job.read)
  }

  /** After a user abort, until the requested STOP has been served. */
  predicate Aborting(w: World, g: Goal) {
    && Unfinished(w) && w.h.state == ABORTING && w.h.mode == MASTER == g.mode
    && (w.h.err == NO_ERRORS || w.h.err == NO_ERRORS.(af := true))
    && w.port.bus.Stopping? && w.port.bus.spare <= 1
    && !w.r.fl.tcr && !w.r.fl.tc
    && (w.r.fl.rxne ==> w.port.bus.spare > 0 && !w.r.fl.af)
    && (w.r.fl.af ==> w.port.bus.spare == 0)
    && ListeningFor(w, true)
  }

  /** Exactly one callback has been made and the handle, the flags and the bus are free. */
  predicate Done(w: World, g: Goal) {
    && |w.calls| == 1 && w.calls[0] in {SuccessOf(g.job.read, g.mode), ErrorCallback, AbortCplt}
    && w.h.state == State.READY && w.h.mode == NONE && w.h.isr == NO_ISR && !w.h.locked
    && w.r.ie == ALL_OFF && w.r.fl == NO_FLAGS && !w.r.dmaEn && !w.s.tcif && w.port.bus == Idle
    && !w.h.err.size && !w.h.err.dmaFailed
    && (w.calls[0] == ErrorCallback ==> w.h.err.af)
    && (w.calls[0] == AbortCplt ==> g.mode == MASTER)
    && (w.calls[0] == SuccessOf(g.job.read, g.mode) ==> Delivered(w, g) && w.h.err == NO_ERRORS)
  }

  /** The whole job went over the wire, from or into the buffer, in order. */
  predicate Delivered(w: World, g: Goal) {
    && |w.mem| == |g.data| && g.job.total <= |g.data|
    && w.port == Completed(g.job, w.mem[..g.job.total])
    && (if g.job.read then w.mem[g.job.total..] == g.data[g.job.total..] else w.mem == g.data)
  }

  predicate Inv(w: World, g: Goal) {
    Running(w, g) || Refused(w, g) || Aborting(w, g) || Done(w, g)
  }

  // ---- starting ------------------------------------------------------------------------

  /** What an accepted master transfer starts from. */
  function MasterGoal(w: World, read: bool, addr: u16, size: u16): Goal {
    Goal(StartedJob(w.port, read, addr, size), w.mem, MASTER)
  }

  predicate Quiet(w: World) {
    w.calls == [] && w.r.fl == NO_FLAGS && w.r.ie == ALL_OFF && !w.r.dmaEn && !w.s.tcif
  }

  lemma MasterStarts(w: World, read: bool, addr: u16, size: u16)
    requires Accepts(w) && Quiet(w) && size <= |w.mem|
    ensures Running(MasterIt(w, read, addr, size), MasterGoal(w, read, addr, size))
  {
    Begun(w.port, read, addr, size);
    assert w.mem[..0] == [];
  }

  /** The data phase of a memory transfer, entered once the address bytes are through. */
  function MemGoal(w: World, read: bool, addr: u16, size: u16): Goal {
    Goal(if read then StartedJob(w.port, true, addr, size) else Job(addr, false, w.port.wire, w.port.programmed, size),
         w.mem, MEM)
  }

  lemma MemStarts(w: World, read: bool, addr: u16, size: u16)
    requires Quiet(w) && 0 < size <= |w.mem|
    requires w.port.bus == Active(addr, false, 0, if read then SoftEnd else Reload)
    ensures Running(StartedIt(w, read, addr, size, MEM, if read then GenerateStartRead else NoStartStop),
                    MemGoal(w, read, addr, size))
  {
    if read {
      Begun(w.port, true, addr, size);
    } else {
      BegunBehind(w.port, addr, size);
    }
    assert w.mem[..0] == [];
  }

  // ---- steps of a running transfer -----------------------------------------------------

  lemma RunningRaises(w: World, g: Goal, s: Step)
    requires Running(w, g) && Raises(s)
    ensures Running(Next(w, s), g) || Refused(Next(w, s), g)
  {
  }

  lemma RunningTakesByte(w: World, g: Goal)
    requires Running(w, g) && (if g.job.read then w.r.fl.rxne else w.r.fl.txis)
    ensures Lockstep(if g.job.read then TakeRx(w) else PutTx(w), g)
  {
    var v := if g.job.read then TakeRx(w) else PutTx(w);
    var b := if g.job.read then w.r.rxdr else w.mem[w.n.ptr];
    ByteMoved(w.port, g.job, Moved(w, g), w.n.size, b);
    assert Moved(v, g) == Moved(w, g) + [b];
  }

  lemma RunningReloads(w: World, g: Goal)
    requires Running(w, g) && w.r.fl.tcr && w.n.size == 0
    ensures Lockstep(ItReload(w), g)
  {
    Reloaded(w.port, g.job, Moved(w, g));
  }

  lemma LockstepCompletes(w: World, g: Goal)
    requires Lockstep(w, g) && w.n.count == 0
    ensures Touch(w.port, ClearStop) == Completed(g.job, w.mem[..g.job.total])
  {
    AllMoved(w.port, g.job, Moved(w, g));
  }

  /** A STOP that is up in a running transfer finds all bytes moved, or the last one waiting in RXDR. */
  lemma RunningCompletes(w: World, g: Goal)
    requires Running(w, g) && w.r.fl.stopf
    ensures !w.r.fl.rxne ==> Touch(w.port, ClearStop) == Completed(g.job, w.mem[..g.job.total])
    ensures w.r.fl.rxne ==> var v := TakeRx(w); Touch(v.port, ClearStop) == Completed(g.job, v.mem[..g.job.total])
  {
    if w.r.fl.rxne {
      RunningTakesByte(w, g);
      LockstepCompletes(TakeRx(w), g);
    } else {
      LockstepCompletes(w, g);
    }
  }

  lemma RunningServes(w: World, g: Goal)
    requires Running(w, g)
    ensures Running(IsrIt(w), g) || Done(IsrIt(w), g)
  {
    var fl := w.r.fl;
    if fl.rxne || fl.txis {
      RunningTakesByte(w, g);
      var v := if g.job.read then TakeRx(w) else PutTx(w);
      if fl.stopf {
        LockstepCompletes(v, g);
      }
    } else if fl.tcr {
      RunningReloads(w, g);
    } else if fl.stopf {
      LockstepCompletes(w, g);
    }
  }

  lemma RunningAborts(w: World, g: Goal)
    requires Running(w, g)
    ensures if g.mode == MASTER then Aborting(MasterAbort(w), g) else MasterAbort(w) == w
  {
  }

  // ---- steps of a refused or aborting transfer ------------------------------------------

  lemma RefusedRaises(w: World, g: Goal, s: Step)
    requires Refused(w, g) && Raises(s)
    ensures Refused(Next(w, s), g)
  {
  }

  lemma RefusedServes(w: World, g: Goal)
    requires Refused(w, g)
    ensures Refused(IsrIt(w), g) || Done(IsrIt(w), g)
  {
  }

  lemma RefusedAborts(w: World, g: Goal)
    requires Refused(w, g)
    ensures Aborting(MasterAbort(w), g) || MasterAbort(w) == w
  {
  }

  lemma AbortingRaises(w: World, g: Goal, s: Step)
    requires Aborting(w, g) && Raises(s)
    ensures Aborting(Next(w, s), g)
  {
  }

  lemma AbortingServes(w: World, g: Goal)
    requires Aborting(w, g)
    ensures Aborting(IsrIt(w), g) || Done(IsrIt(w), g)
  {
  }

  lemma AbortingAborts(w: World, g: Goal)
    requires Aborting(w, g)
    ensures Aborting(MasterAbort(w), g)
  {
  }

  /** After the one callback nothing happens any more. */
  lemma DoneIsFinal(w: World, g: Goal, s: Step)
    requires Done(w, g)
    ensures Next(w, s) == w
  {
  }

  // ---- every run -----------------------------------------------------------------------

  lemma InvStep(w: World, g: Goal, s: Step)
    requires Inv(w, g) && g.mode != NONE
    ensures Inv(Next(w, s), g)
  {
    if Done(w, g) {
      DoneIsFinal(w, g, s);
    } else {
      match s
      case ServeEvent =>
        if Running(w, g) { RunningServes(w, g); }
        else if Refused(w, g) { RefusedServes(w, g); }
        else { AbortingServes(w, g); }
      case UserAbort =>
        if Running(w, g) { RunningAborts(w, g); }
        else if Refused(w, g) { RefusedAborts(w, g); }
        else { AbortingAborts(w, g); }
      case ServeDmaIrq =>
      case MoveByDma =>
      case _ =>
        if Running(w, g) { RunningRaises(w, g, s); }
        else if Refused(w, g) { RefusedRaises(w, g, s); }
        else { AbortingRaises(w, g, s); }
    }
  }

  lemma {:induction false} InvAlways(w: World, g: Goal, steps: seq<Step>)
    requires Inv(w, g) && g.mode != NONE
    ensures Inv(Play(w, steps), g)
  {
    if steps != [] {
      var n := |steps| - 1;
      InvAlways(w, g, steps[..n]);
      InvStep(Play(w, steps[..n]), g, steps[n]);
    }
  }

  /**
   Lockstep in every interleaving: as long as the bus is moving data, XferSize is what the
   peripheral has left, neither counter has run below zero, and the bytes of the buffer up to
   the pointer are on the wire in order; a STOP that comes then finds all bytes served or the
   last one waiting. The wrong-size error is never raised.
   */
  lemma {:induction false} LockstepInEveryInterleaving(w: World, g: Goal, steps: seq<Step>)
    requires Running(w, g) && g.mode != NONE
    ensures var v := Play(w, steps);
            && !v.h.err.size
            && (v.port.bus.Active? ==>
                  && v.n.ptr <= |v.mem|
                  && v.port.bus.left == v.n.size <= v.n.count == g.job.total - v.n.ptr
                  && v.port.wire == g.job.head + Bytes(v.mem[..v.n.ptr])
                  && (v.r.fl.stopf ==> v.n.count == if v.r.fl.rxne then 1 else 0))
  {
    InvAlways(w, g, steps);
  }

  /**
   Exactly-once completion of master transfers: at every moment at most one callback has been
   made; once it has, the handle is ready with no handler installed, a success means that the
   whole buffer was moved, an error that the slave refused, and nothing ever changes again.
   */
  lemma {:induction false} AtMostOneCallback(w: World, read: bool, addr: u16, size: u16, steps: seq<Step>, more: Step)
    requires Accepts(w) && Quiet(w) && size <= |w.mem|
    ensures var g := MasterGoal(w, read, addr, size);
            var v := Play(MasterIt(w, read, addr, size), steps);
            && |v.calls| <= 1
            && (v.calls != [] ==> Done(v, g) && Next(v, more) == v)
  {
    MasterStarts(w, read, addr, size);
    var g := MasterGoal(w, read, addr, size);
    InvAlways(MasterIt(w, read, addr, size), g, steps);
    var v := Play(MasterIt(w, read, addr, size), steps);
    if v.calls != [] {
      DoneIsFinal(v, g, more);
    }
  }

  /** The same for memory transfers, from the end of their address phase. */
  lemma {:induction false} AtMostOneMemCallback(w: World, read: bool, addr: u16, size: u16, steps: seq<Step>,
                                                more: Step)
    requires Quiet(w) && 0 < size <= |w.mem|
    requires w.port.bus == Active(addr, false, 0, if read then SoftEnd else Reload)
    ensures var g := MemGoal(w, read, addr, size);
            var v := Play(StartedIt(w, read, addr, size, MEM, if read then GenerateStartRead else NoStartStop), steps);
            && |v.calls| <= 1
            && (v.calls != [] ==> Done(v, g) && Next(v, more) == v && v.calls[0] != AbortCplt)
  {
    MemStarts(w, read, addr, size);
    var g := MemGoal(w, read, addr, size);
    var v0 := StartedIt(w, read, addr, size, MEM, if read then GenerateStartRead else NoStartStop);
    InvAlways(v0, g, steps);
    var v := Play(v0, steps);
    if v.calls != [] {
      DoneIsFinal(v, g, more);
    }
  }

  // ---- progress ------------------------------------------------------------------------

  /** How many steps are left at most, not counting further aborts by the user. */
  function Measure(w: World): int {
    match w.port.bus
    case Active(_, _, _, _) =>
      2 * w.n.count - Bit(w.r.fl.txis || w.r.fl.rxne)
      + 2 * |Rest(if w.n.count >= w.n.size then w.n.count - w.n.size else 0)| - Bit(w.r.fl.tcr)
      + 4 - Bit(w.r.fl.stopf)
    case Stopping(_, spare) =>
      2 * spare - Bit(w.r.fl.rxne) + Bit(w.r.fl.af) + 2 - Bit(w.r.fl.stopf)
    case _ => 0
  }

  lemma MeasureIsNatural(w: World, g: Goal)
    requires Inv(w, g)
    ensures Measure(w) >= 0
    ensures !Done(w, g) ==> Measure(w) > 0
  {
    if Running(w, g) && w.r.fl.tcr {
      assert |Rest(w.n.count - w.n.size)| >= 1;
    }
  }

  lemma RaisesCount(w: World, g: Goal, s: Step)
    requires Inv(w, g) && Raises(s) && Next(w, s) != w
    ensures Measure(Next(w, s)) < Measure(w)
  {
    if Done(w, g) {
      DoneIsFinal(w, g, s);
    }
  }

  lemma ReloadCounts(w: World, g: Goal)
    requires Running(w, g) && w.r.fl.tcr && w.n.size == 0
    ensures Measure(ItReload(w)) < Measure(w)
  {
    RunningReloads(w, g);
    PlanStep([], w.n.count);
    assert |Rest(w.n.count)| == 1 + |Rest(w.n.count - ChunkSize(w.n.count))|;
  }

  lemma TakenCounts(w: World, g: Goal)
    requires Running(w, g) && (w.r.fl.rxne || w.r.fl.txis)
    ensures Measure(if g.job.read then TakeRx(w) else PutTx(w)) < Measure(w)
  {
    TakenFields(w, g);
  }

  lemma TakenFields(w: World, g: Goal)
    requires Running(w, g) && (w.r.fl.rxne || w.r.fl.txis)
    ensures var v := if g.job.read then TakeRx(w) else PutTx(w);
            && v.n.size == w.n.size - 1 && v.n.count == w.n.count - 1
            && v.r.fl == w.r.fl.(rxne := false, txis := false)
            && v.port.bus == w.port.bus.(left := w.port.bus.left - 1)
  {
  }

  /** What the handler does to a running transfer, apart from a STOP. */
  lemma RunningIsr(w: World, g: Goal)
    requires Running(w, g) && !w.r.fl.stopf
    ensures IsrIt(w) == if w.r.fl.rxne then TakeRx(w) else if w.r.fl.txis then PutTx(w)
                        else if w.r.fl.tcr then ItReload(w) else w
  {
  }

  lemma RunningServesCount(w: World, g: Goal)
    requires Running(w, g) && IsrIt(w) != w
    ensures Measure(IsrIt(w)) < Measure(w)
  {
    MeasureIsNatural(w, g);
    if w.r.fl.stopf {
      RunningServes(w, g);
    } else {
      RunningIsr(w, g);
      if w.r.fl.rxne || w.r.fl.txis {
        TakenCounts(w, g);
      } else {
        ReloadCounts(w, g);
      }
    }
  }

  lemma RefusedServesCount(w: World, g: Goal)
    requires Refused(w, g) && IsrIt(w) != w
    ensures Measure(IsrIt(w)) < Measure(w)
  {
  }

  lemma AbortingServesCount(w: World, g: Goal)
    requires Aborting(w, g) && IsrIt(w) != w
    ensures Measure(IsrIt(w)) < Measure(w)
  {
  }

  lemma ServesCount(w: World, g: Goal)
    requires Inv(w, g) && EventIrq(w) != w
    ensures Measure(EventIrq(w)) < Measure(w)
  {
    if Running(w, g) {
      RunningServesCount(w, g);
    } else if Refused(w, g) {
      RefusedServesCount(w, g);
    } else if Aborting(w, g) {
      AbortingServesCount(w, g);
    }
  }

  /** Every step that changes anything, other than another user abort, uses up the measure. */
  lemma EveryStepCounts(w: World, g: Goal, s: Step)
    requires Inv(w, g) && s != UserAbort && Next(w, s) != w
    ensures Measure(Next(w, s)) < Measure(w)
  {
    match s
    case ServeEvent => ServesCount(w, g);
    case ServeDmaIrq =>
    case MoveByDma =>
    case _ => RaisesCount(w, g, s);
  }

  /** Until the callback has been made there is a step to take. */
  lemma NeverStuck(w: World, g: Goal) returns (s: Step)
    requires Inv(w, g) && !Done(w, g)
    ensures s != UserAbort && Next(w, s) != w
  {
    var fl := w.r.fl;
    if Running(w, g) {
      if fl.rxne || fl.txis {
        RunningTakesByte(w, g);
        s := ServeEvent;
      } else if fl.tcr || fl.stopf {
        s := ServeEvent;
      } else if w.n.size > 0 {
        s := if g.job.read then RaiseRxne(0) else RaiseTxis;
      } else if w.n.count > 0 {
        s := RaiseTcr;
      } else {
        s := RaiseStop;
      }
    } else if fl.stopf {
      s := ServeEvent;
    } else {
      s := RaiseStop;
    }
  }

  lemma RestIsDone(w: World, g: Goal)
    requires Inv(w, g)
    ensures AtRest(w) <==> Done(w, g)
  {
    if Done(w, g) {
      forall s: Step ensures Next(w, s) == w { DoneIsFinal(w, g, s); }
    } else {
      var s := NeverStuck(w, g);
      assert Next(w, s) != w;
    }
  }

  /**
   The callback comes: from any reachable configuration, any way of taking steps that change
   something ends after at most `Measure` steps, and it can end nowhere but where the one
   callback has been made.
   */
  lemma {:induction false} CallbackComes(w: World, g: Goal, steps: seq<Step>)
    requires Inv(w, g) && g.mode != NONE
    requires UserAbort !in steps
    requires forall i: nat :: i < |steps| ==> Effective(w, steps, i)
    ensures |steps| <= Measure(w)
    ensures AtRest(Play(w, steps)) <==> Done(Play(w, steps), g)
  {
    InvAlways(w, g, steps);
    UsesUp(w, g, steps);
    MeasureIsNatural(Play(w, steps), g);
    RestIsDone(Play(w, steps), g);
  }

  /**
   Exactly once: a run of an accepted master transfer, with NACKs and user aborts anywhere, has
   come to rest iff its one callback has been made; and without further aborts it comes to rest
   within a bound known at the start.
   */
  lemma {:induction false} ExactlyOneCallback(w: World, read: bool, addr: u16, size: u16, steps: seq<Step>)
    requires Accepts(w) && Quiet(w) && size <= |w.mem|
    ensures var g := MasterGoal(w, read, addr, size);
            var v := Play(MasterIt(w, read, addr, size), steps);
            && (AtRest(v) <==> |v.calls| == 1) && (AtRest(v) <==> Done(v, g))
            && (UserAbort !in steps && AllEffective(MasterIt(w, read, addr, size), steps)
                ==> |steps| <= Measure(MasterIt(w, read, addr, size)))
  {
    var g, u := MasterGoal(w, read, addr, size), MasterIt(w, read, addr, size);
    MasterStarts(w, read, addr, size);
    OneCallbackAtRest(u, g, steps);
  }

  /** The same for memory transfers, from the end of their address phase. */
  lemma {:induction false} ExactlyOneMemCallback(w: World, read: bool, addr: u16, size: u16, steps: seq<Step>)
    requires Quiet(w) && 0 < size <= |w.mem|
    requires w.port.bus == Active(addr, false, 0, if read then SoftEnd else Reload)
    ensures var g := MemGoal(w, read, addr, size);
            var u := StartedIt(w, read, addr, size, MEM, if read then GenerateStartRead else NoStartStop);
            var v := Play(u, steps);
            && (AtRest(v) <==> |v.calls| == 1) && (AtRest(v) <==> Done(v, g))
            && (UserAbort !in steps && AllEffective(u, steps) ==> |steps| <= Measure(u))
  {
    var u := StartedIt(w, read, addr, size, MEM, if read then GenerateStartRead else NoStartStop);
    MemStarts(w, read, addr, size);
    OneCallbackAtRest(u, MemGoal(w, read, addr, size), steps);
  }

  lemma {:induction false} OneCallbackAtRest(u: World, g: Goal, steps: seq<Step>)
    requires Running(u, g) && g.mode != NONE
    ensures var v := Play(u, steps);
            && (AtRest(v) <==> |v.calls| == 1) && (AtRest(v) <==> Done(v, g))
            && (UserAbort !in steps && AllEffective(u, steps) ==> |steps| <= Measure(u))
  {
    InvAlways(u, g, steps);
    RestIsDone(Play(u, steps), g);
    CalledIsDone(Play(u, steps), g);
    if UserAbort !in steps && AllEffective(u, steps) {
      CallbackComes(u, g, steps);
    }
  }

  lemma CalledIsDone(w: World, g: Goal)
    requires Inv(w, g)
    ensures |w.calls| == 1 <==> Done(w, g)
  {
  }

  lemma {:induction false} UsesUp(w: World, g: Goal, steps: seq<Step>)
    requires Inv(w, g) && g.mode != NONE
    requires UserAbort !in steps
    requires forall i: nat :: i < |steps| ==> Effective(w, steps, i)
    ensures Measure(Play(w, steps)) + |steps| <= Measure(w)
  {
    if steps != [] {
      var n := |steps| - 1;
      var front := steps[..n];
      forall i: nat | i < n ensures Effective(w, front, i) {
        assert Effective(w, steps, i);
        assert front[..i + 1] == steps[..i + 1] && front[..i] == steps[..i];
      }
      UsesUp(w, g, front);
      InvAlways(w, g, front);
      assert Effective(w, steps, n);
      assert steps[..n + 1] == steps;
      EveryStepCounts(Play(w, front), g, steps[n]);
    }
  }

  // ---- which callback it is ------------------------------------------------------------

  /** Neither refused nor aborted. */
  predicate Unhindered(w: World, g: Goal) {
    Running(w, g) || (Done(w, g) && w.calls == [SuccessOf(g.job.read, g.mode)])
  }

  lemma RunningStaysUnhindered(w: World, g: Goal, s: Step)
    requires Running(w, g) && Raises(s) && s != RaiseNack
    ensures Running(Next(w, s), g)
  {
  }

  lemma RunningSucceeds(w: World, g: Goal)
    requires Running(w, g) && IsrIt(w).calls != []
    ensures IsrIt(w).calls == [SuccessOf(g.job.read, g.mode)]
  {
    RunningServes(w, g);
  }

  lemma UnhinderedStep(w: World, g: Goal, s: Step)
    requires Unhindered(w, g) && s != UserAbort && s != RaiseNack
    ensures Unhindered(Next(w, s), g)
  {
    if Done(w, g) {
      DoneIsFinal(w, g, s);
    } else if s == ServeEvent {
      RunningServes(w, g);
      if IsrIt(w).calls != [] { RunningSucceeds(w, g); }
    } else if Raises(s) {
      RunningStaysUnhindered(w, g, s);
    }
  }

  lemma {:induction false} UnhinderedAlways(w: World, g: Goal, steps: seq<Step>)
    requires Running(w, g) && UserAbort !in steps && RaiseNack !in steps
    ensures Unhindered(Play(w, steps), g)
  {
    if steps != [] {
      var n := |steps| - 1;
      UnhinderedAlways(w, g, steps[..n]);
      UnhinderedStep(Play(w, steps[..n]), g, steps[n]);
    }
  }

  /** A master transfer that nobody refuses or aborts reports success, by the callback of its direction. */
  lemma {:induction false} MasterSucceeds(w: World, read: bool, addr: u16, size: u16, steps: seq<Step>)
    requires Accepts(w) && Quiet(w) && size <= |w.mem| && UserAbort !in steps && RaiseNack !in steps
    ensures var v := Play(MasterIt(w, read, addr, size), steps);
            && (v.calls == [] || v.calls == [if read then MasterRxCplt else MasterTxCplt])
            && (AtRest(v) <==> v.calls != [])
            && (v.calls != [] ==> Delivered(v, MasterGoal(w, read, addr, size)))
  {
    var g := MasterGoal(w, read, addr, size);
    MasterStarts(w, read, addr, size);
    UnhinderedAlways(MasterIt(w, read, addr, size), g, steps);
    RestIsDone(Play(MasterIt(w, read, addr, size), steps), g);
  }

  /** So does a memory transfer. */
  lemma {:induction false} MemSucceeds(w: World, read: bool, addr: u16, size: u16, steps: seq<Step>)
    requires Quiet(w) && 0 < size <= |w.mem| && UserAbort !in steps && RaiseNack !in steps
    requires w.port.bus == Active(addr, false, 0, if read then SoftEnd else Reload)
    ensures var u := StartedIt(w, read, addr, size, MEM, if read then GenerateStartRead else NoStartStop);
            var v := Play(u, steps);
            && (v.calls == [] || v.calls == [if read then MemRxCplt else MemTxCplt])
            && (AtRest(v) <==> v.calls != [])
            && (v.calls != [] ==> Delivered(v, MemGoal(w, read, addr, size)))
  {
    var u := StartedIt(w, read, addr, size, MEM, if read then GenerateStartRead else NoStartStop);
    MemStarts(w, read, addr, size);
    UnhinderedAlways(u, MemGoal(w, read, addr, size), steps);
    RestIsDone(Play(u, steps), MemGoal(w, read, addr, size));
  }

  lemma RefusalEnds(w: World, g: Goal)
    requires Refused(w, g) && IsrIt(w).calls != []
    ensures IsrIt(w).calls == [ErrorCallback]
  {
  }

  lemma AbortEnds(w: World, g: Goal)
    requires Aborting(w, g) && IsrIt(w).calls != []
    ensures IsrIt(w).calls == [AbortCplt]
  {
  }

  /** A refused transfer ends in the error callback, unless aborted as well; an aborted one in the abort callback. */
  lemma {:induction false} HinderedEnds(w: World, g: Goal, steps: seq<Step>)
    requires g.mode != NONE && (Aborting(w, g) || (Refused(w, g) && UserAbort !in steps))
    ensures var v := Play(w, steps);
            if Aborting(w, g) then Aborting(v, g) || (Done(v, g) && v.calls == [AbortCplt])
            else Refused(v, g) || (Done(v, g) && v.calls == [ErrorCallback])
  {
    if steps != [] {
      var n := |steps| - 1;
      HinderedEnds(w, g, steps[..n]);
      var u, s := Play(w, steps[..n]), steps[n];
      InvStep(u, g, s);
      if Done(u, g) {
        DoneIsFinal(u, g, s);
      } else if s == ServeEvent {
        if Aborting(u, g) { AbortServed(u, g); } else { RefusalServed(u, g); }
      } else if s == UserAbort {
        AbortingAborts(u, g);
      } else if Raises(s) {
        if Aborting(u, g) { AbortingRaises(u, g, s); } else { RefusedRaises(u, g, s); }
      }
    }
  }

  lemma AbortServed(w: World, g: Goal)
    requires Aborting(w, g)
    ensures Aborting(IsrIt(w), g) || (Done(IsrIt(w), g) && IsrIt(w).calls == [AbortCplt])
  {
    AbortingServes(w, g);
    if IsrIt(w).calls != [] { AbortEnds(w, g); }
  }

  lemma RefusalServed(w: World, g: Goal)
    requires Refused(w, g)
    ensures Refused(IsrIt(w), g) || (Done(IsrIt(w), g) && IsrIt(w).calls == [ErrorCallback])
  {
    RefusedServes(w, g);
    if IsrIt(w).calls != [] { RefusalEnds(w, g); }
  }

  // ---- other calls ---------------------------------------------------------------------

  /**
   A DMA transfer of no bytes is the interrupt transfer of no bytes, but for a read that listens for
   TXIS, which a read never raises.
   */
  lemma ZeroSizeIsInterruptTransfer(w: World, read: bool, addr: u16)
    requires Accepts(w) && Quiet(w)
    ensures var v := MasterIt(w, read, addr, 0);
            && v.r.ie == Enables(!read, read, true, true, true)
            && MasterDma(w, read, addr, 0) == v.(r := v.r.(ie := Enables(true, false, true, true, true)))
  {
  }

  /** A user abort is accepted iff the transfer is a master's and the handle unlocked; it asks for a STOP. */
  lemma AbortAsksForStop(w: World)
    ensures var v := MasterAbort(w);
            if w.h.mode == MASTER && !w.h.locked then
              && v.h == Handle(ABORTING, MASTER, w.h.isr, w.h.err, false) && v.calls == w.calls && v.n == w.n
              && v.port == Touch(w.port, Cr2(w.r.sadd, 1, AutoEnd, GenerateStop)) && v.r.autoEnd
              && v.r.fl == w.r.fl.(tcr := false, tc := false)
              && v.r.ie == Enables(false, w.h.isr != ISR_DMA, true, true, w.h.isr != ISR_DMA)
            else v == w
  {
  }

  // ---- branches that no transfer above takes -------------------------------------------

  /** The one flag that is up, and its interrupt enabled. */
  predicate Only(w: World, fl: Flags) {
    w.r.fl == fl && w.r.ie.tci && !w.h.locked && w.calls == [] && !w.r.dmaEn
  }

  /** The end of a frame of a sequential transfer: a callback without a STOP, and no interrupt left of its own. */
  lemma SequentialEnds(w: World)
    requires Only(w, NO_FLAGS.(tcr := true)) && w.n.size == w.n.count == 0 && !w.r.autoEnd
    requires w.h.state in {BUSY_TX, BUSY_RX}
    ensures var v, write := IsrIt(w), w.h.state == BUSY_TX;
            && v.h == Handle(State.READY, NONE, NO_ISR, w.h.err, false) && v.port == w.port && v.mem == w.mem
            && v.r.ie == Enables(w.r.ie.txi && !write, w.r.ie.rxi && write, false, false, false)
            && v.calls == [if write then MasterTxCplt else MasterRxCplt]
  {
  }

  /** The end of a chunk that the counters did not expect. */
  lemma SizeErrors(w: World, fl: Flags)
    requires fl == NO_FLAGS.(tcr := true) || fl == NO_FLAGS.(tc := true)
    requires Only(w, fl) && w.h.state in {BUSY_TX, BUSY_RX}
    requires if fl.tcr then w.r.autoEnd && (w.n.size != 0 || w.n.count == 0) else w.n.count != 0
    ensures var v, e := IsrIt(w), w.h.err;
            && v.h == Handle(State.READY, NONE, NO_ISR, Errors(e.af, true, e.dmaFailed), false)
            && v.r.ie == Enables(false, false, false, false, false) && v.n.count == 0
            && v.calls == [ErrorCallback] && v.port == w.port && v.mem == w.mem
  {
  }

  /** In DMA mode: a TCR when all has been programmed. */
  lemma DmaSizeError(w: World)
    requires Only(w, NO_FLAGS.(tcr := true)) && w.n.count == 0 && w.h.state in {BUSY_TX, BUSY_RX}
    ensures var v, e := IsrDma(w), w.h.err;
            && v.h == Handle(State.READY, NONE, NO_ISR, Errors(e.af, true, e.dmaFailed), false)
            && v.r.ie == Enables(false, false, false, false, false) && v.calls == [ErrorCallback]
            && v.port == w.port && v.mem == w.mem && v.s == w.s
  {
  }

  /** A transfer without AUTOEND that is complete asks for its STOP, one with AUTOEND waits for it. */
  lemma CompleteStops(w: World)
    requires Only(w, NO_FLAGS.(tc := true)) && w.n.count == 0
    ensures IsrIt(w) == if w.r.autoEnd then w else w.(port := Touch(w.port, Cr2(w.r.sadd, 0, SoftEnd, GenerateStop)))
  {
  }
}
