/**
 Whole runs of DMA-driven transfers: the blocks and counts that go with each other, what a success
 and an error callback mean, when the stream is left behind, and that every transfer ends.
 */
module I2cDmaRuns {
  import opened Words
  import opened I2cBus
  import opened DmaModel
  import opened I2cModel
  import opened I2cDma

  /** A memory transfer from the end of its address phase. */
  function MemDma(w: World, read: bool, addr: u16, size: u16): World {
    StartedDma(w, read, addr, size, MEM, if read then GenerateStartRead else NoStartStop)
  }

  predicate AddressSent(w: World, read: bool, addr: u16) {
    w.port.bus == Active(addr, false, 0, if read then SoftEnd else Reload)
  }

  // ---- blocks and counts ---------------------------------------------------------------

  /** The blocks that were started for the transfer, and the counts programmed for it. */
  function Blocks(w: World, g: Goal): seq<Block>
    requires g.earlier <= w.s.blocks
  {
    w.s.blocks[|g.earlier|..]
  }

  function Counts(w: World, g: Goal): seq<Chunk>
    requires g.job.planned <= w.port.programmed
  {
    w.port.programmed[|g.job.planned|..]
  }

  /**
   No restart was refused; each block that the stream was started for has the length of the
   NBYTES programmed for it; the blocks are the first tiles of the buffer, in order; and the
   stream is at most one block ahead.
   */
  predicate Matched(w: World, g: Goal) {
    && !w.s.refused && g.earlier <= w.s.blocks && g.job.planned <= w.port.programmed
    && Blocks(w, g) <= Tiles(0, g.job.total) && Counts(w, g) <= Plan(g.job.total)
    && |Counts(w, g)| <= |Blocks(w, g)| <= |Counts(w, g)| + 1
    && (forall i :: 0 <= i < |Counts(w, g)| ==> Blocks(w, g)[i].len == Counts(w, g)[i].nbytes)
    && (forall i :: 0 < i < |Blocks(w, g)| ==> Blocks(w, g)[i].start == EndOf(Blocks(w, g)[i - 1]))
  }

  lemma {:induction false} StepMatched(w: World, g: Goal)
    requires InStep(w, g) && !w.s.refused && g.job.total > 0
    ensures g.earlier <= w.s.blocks ==> Matched(w, g)
  {
    TilesCover(0, g.job.total);
  }

  lemma {:induction false} MatchedAlways(u: World, g: Goal, steps: seq<Step>)
    requires Streaming(u, g)
    ensures Matched(Play(u, steps), g) && |Play(u, steps).calls| <= 1
  {
    InvAlways(u, g, steps);
    var v := Play(u, steps);
    InvInStep(v, g);
    CallsOf(v, g);
    LeadBlocks(v, g);
    StepMatched(v, g);
  }

  lemma CallsOf(w: World, g: Goal)
    requires Inv(w, g)
    ensures !w.s.refused && |w.calls| <= 1
  {
  }

  lemma {:induction false} LeadBlocks(w: World, g: Goal)
    requires InStep(w, g)
    ensures g.earlier <= w.s.blocks
  {
    var all := g.earlier + Tiles(0, g.job.total);
    assert |w.s.blocks| >= |g.earlier|;
    assert w.s.blocks == all[..|w.s.blocks|];
  }

  /** In every interleaving of a master transfer, with a NACK at any byte and aborts by the user anywhere. */
  lemma {:induction false} BlocksMatchCounts(w: World, read: bool, addr: u16, size: u16, steps: seq<Step>)
    requires Accepts(w) && Quiet(w) && 0 < size <= |w.mem|
    ensures var v := Play(MasterDma(w, read, addr, size), steps);
            Matched(v, MasterGoal(w, read, addr, size)) && |v.calls| <= 1
  {
    MasterStarts(w, read, addr, size);
    MatchedAlways(MasterDma(w, read, addr, size), MasterGoal(w, read, addr, size), steps);
  }

  /** The same for memory transfers. */
  lemma {:induction false} MemBlocksMatchCounts(w: World, read: bool, addr: u16, size: u16, steps: seq<Step>)
    requires Quiet(w) && 0 < size <= |w.mem| && AddressSent(w, read, addr)
    ensures var v := Play(MemDma(w, read, addr, size), steps);
            Matched(v, MemGoal(w, read, addr, size)) && |v.calls| <= 1
  {
    MemStarts(w, read, addr, size);
    MatchedAlways(MemDma(w, read, addr, size), MemGoal(w, read, addr, size), steps);
  }

  // ---- success -------------------------------------------------------------------------

  /** The wire after a complete transfer; of a read, the last byte may have been fetched after the STOP. */
  predicate Carries(wire: seq<Symbol>, head: seq<Symbol>, data: seq<byte>, read: bool) {
    || wire == head + Bytes(data) + [Stop]
    || (read && data != [] && var n := |data| - 1; wire == head + Bytes(data[..n]) + [Stop] + [Data(data[n])])
  }

  /** What a success callback stands for, at it and ever after. */
  predicate Succeeded(v: World, g: Goal) {
    && |v.mem| == |g.data| && 0 < g.job.total <= |g.data|
    && v.s.blocks == g.earlier + Tiles(0, g.job.total) && v.port.programmed == g.job.planned + Plan(g.job.total)
    && (!g.job.read ==> v.mem == g.data) && v.mem[g.job.total..] == g.data[g.job.total..]
    && (if v.r.fl.rxne then
          && g.job.read && v.port.wire == g.job.head + Bytes(v.mem[..g.job.total - 1]) + [Stop]
          && DmaMove(v).mem == v.mem[g.job.total - 1 := v.r.rxdr]
        else
          v.port.bus == Idle && Carries(v.port.wire, g.job.head, v.mem[..g.job.total], g.job.read))
  }

  lemma {:induction false} SuccessMeans(v: World, g: Goal)
    requires Inv(v, g) && SuccessOf(g.job.read, g.mode) in v.calls
    ensures Succeeded(v, g)
  {
    if Early(v, g) {
      assert v.mem[g.job.total..] == v.mem[g.job.total - 1..][1..];
      assert g.data[g.job.total..] == g.data[g.job.total - 1..][1..];
    }
  }

  /** A master transfer that reports success has moved the whole buffer, but for a byte still in RXDR. */
  lemma {:induction false} SuccessDelivers(w: World, read: bool, addr: u16, size: u16, steps: seq<Step>)
    requires Accepts(w) && Quiet(w) && 0 < size <= |w.mem|
    requires SuccessOf(read, MASTER) in Play(MasterDma(w, read, addr, size), steps).calls
    ensures Succeeded(Play(MasterDma(w, read, addr, size), steps), MasterGoal(w, read, addr, size))
  {
    var g := MasterGoal(w, read, addr, size);
    MasterStarts(w, read, addr, size);
    InvAlways(MasterDma(w, read, addr, size), g, steps);
    SuccessMeans(Play(MasterDma(w, read, addr, size), steps), g);
  }

  /** The same for memory transfers. */
  lemma {:induction false} MemSuccessDelivers(w: World, read: bool, addr: u16, size: u16, steps: seq<Step>)
    requires Quiet(w) && 0 < size <= |w.mem| && AddressSent(w, read, addr)
    requires SuccessOf(read, MEM) in Play(MemDma(w, read, addr, size), steps).calls
    ensures Succeeded(Play(MemDma(w, read, addr, size), steps), MemGoal(w, read, addr, size))
  {
    var g := MemGoal(w, read, addr, size);
    MemStarts(w, read, addr, size);
    InvAlways(MemDma(w, read, addr, size), g, steps);
    SuccessMeans(Play(MemDma(w, read, addr, size), steps), g);
  }

  /** The handler serves the STOP of a transfer without errors. */
  predicate ServesSuccess(u: World) {
    && u.calls == [] && u.h.isr == ISR_DMA && u.h.state != ABORTING && u.r.fl.stopf && u.r.ie.stopi
    && u.h.err == NO_ERRORS && !u.r.fl.af
  }

  /**
   The callback finds the whole buffer moved iff no byte was waiting in RXDR when the STOP was
   served. (STOPI is enabled since the first restart, so that the STOP can come before the stream.)
   */
  lemma {:induction false} SuccessIsCompleteIff(u: World, g: Goal)
    requires Inv(u, g) && ServesSuccess(u)
    ensures EventIrq(u).calls == [SuccessOf(g.job.read, g.mode)]
    ensures Delivered(EventIrq(u), g) <==> !u.r.fl.rxne
  {
    if Streaming(u, g) {
      StopFields(u, g);
      if u.port.bus.left == 0 { StreamingStops(u, g); } else { StreamingStopsEarly(u, g); }
    } else {
      DrainedServes(u, g);
    }
  }

  /** The success callback finds the stream still busy, and a transfer that it starts refused, iff DMAEN is set. */
  lemma {:induction false} SuccessFindsStreamBusyIff(u: World, g: Goal, read: bool, addr: u16, size: u16)
    requires Inv(u, g) && ServesSuccess(u) && size > 0
    ensures var v := EventIrq(u);
            && (v.s.d.state != DmaState.READY <==> u.r.dmaEn)
            && (Accepts(v) <==> !u.r.fl.rxne)
            && (Accepts(v) ==> (MasterDma(v, read, addr, size).s.refused <==> u.r.dmaEn))
  {
    var v := EventIrq(u);
    if Streaming(u, g) {
      StopFields(u, g);
      StartOn(v, read, addr, size);
    } else {
      DrainedFields(u, g);
      StartOn(v, read, addr, size);
    }
  }

  lemma DrainedFields(u: World, g: Goal)
    requires Drained(u, g) && u.r.fl.stopf
    ensures var v := EventIrq(u);
            v.s == u.s && v.h.state == State.READY && !v.h.locked && v.port.bus == Idle
  {
  }

  lemma StartOn(v: World, read: bool, addr: u16, size: u16)
    requires size > 0 && !v.s.refused && v.s.d.locked == (v.s.d.state == BUSY)
    requires v.s.d.state == BUSY || v.s.d.state == DmaState.READY
    ensures Accepts(v) ==> (MasterDma(v, read, addr, size).s.refused <==> v.s.d.state != DmaState.READY)
  {
  }

  /** That is over once the stream's interrupt has been served. */
  lemma ReadyAfterSuccess(v: World, g: Goal)
    requires Done(v, g) && v.calls[0] == SuccessOf(g.job.read, g.mode)
    ensures v.s.d.state != DmaState.READY <==> v.s.tcif
    ensures DmaIrq(v).s.d.state == DmaState.READY && DmaIrq(v).calls == v.calls
  {
  }

  // ---- errors and aborts ---------------------------------------------------------------

  /** The handler serves the STOP that follows a NACK or a user abort. */
  predicate ServesFailure(u: World) {
    && u.calls == [] && u.h.isr == ISR_DMA && u.r.fl.stopf && u.r.ie.stopi
    && (u.h.state == ABORTING || (u.h.err.af && !u.r.fl.af))
  }

  /** The stream has been restarted for a block that no TCR will call for: DMAEN is clear and bytes are left. */
  predicate StreamAhead(u: World) {
    !u.r.dmaEn && u.n.count > 0
  }

  predicate Failed(w: World, g: Goal) {
    Winding(w, g) || (Done(w, g) && w.calls[0] != SuccessOf(g.job.read, g.mode))
  }

  /** Neither an error nor the end of an abort. */
  predicate Going(v: World) {
    v.h.err == NO_ERRORS && AbortCplt !in v.calls && (v.h.state == ABORTING ==> v.h.isr == ISR_DMA)
  }

  lemma ServedGoes(u: World, g: Goal)
    requires Streaming(u, g) || Restarted(u, g) || Drained(u, g) || Early(u, g)
    ensures Going(EventIrq(u))
  {
  }

  lemma ErrorStaysOff(u: World, g: Goal, s: Step)
    requires Streaming(u, g) || Restarted(u, g) || Drained(u, g) || Early(u, g)
    ensures Going(Next(u, s))
  {
    if s == ServeEvent { ServedGoes(u, g); }
  }

  /** Only the STOP after a NACK or an abort ends a transfer without success. */
  lemma {:induction false} BeforeFailure(u: World, g: Goal, s: Step)
    requires Inv(u, g) && !Failed(u, g) && Failed(Next(u, s), g)
    ensures (Refused(u, g) || Aborting(u, g)) && s == ServeEvent && ServesFailure(u)
  {
    if Done(u, g) {
      DoneStays(u, g, s);
    } else if !Refused(u, g) && !Aborting(u, g) {
      ErrorStaysOff(u, g, s);
    } else if s == ServeEvent {
      ParkedStops(u, g);
    } else {
      ParkedStays(u, g, s);
    }
  }

  lemma {:induction false} ParkedStays(u: World, g: Goal, s: Step)
    requires (Refused(u, g) || Aborting(u, g)) && s != ServeEvent
    ensures Refused(Next(u, s), g) || Aborting(Next(u, s), g)
  {
    match s
    case ServeDmaIrq => if Refused(u, g) { RefusedFinishes(u, g); } else { AbortingFinishes(u, g); }
    case MoveByDma => if Aborting(u, g) { AbortingMoves(u, g); }
    case UserAbort => if Refused(u, g) { RefusedAborts(u, g); } else { AbortAgain(u, g); }
    case _ => if Refused(u, g) { RefusedRaises(u, g, s); } else { AbortingRaises(u, g, s); }
  }

  lemma ParkedStops(u: World, g: Goal)
    requires (Refused(u, g) || Aborting(u, g)) && EventIrq(u).h.isr == NO_ISR
    ensures ServesFailure(u)
  {
  }

  /** What the STOP of a failed transfer leaves behind. */
  predicate FailsWith(u: World, v: World, g: Goal) {
    && Failed(v, g) && (Winding(v, g) ==> !StreamAhead(u))
    && (Done(v, g) ==> (v.s.d.state != DmaState.READY <==> StreamAhead(u)))
  }

  lemma RefusalServed(u: World, g: Goal)
    requires Refused(u, g) && ServesFailure(u)
    ensures FailsWith(u, EventIrq(u), g)
  {
  }

  lemma AbortServed(u: World, g: Goal)
    requires Aborting(u, g) && ServesFailure(u)
    ensures FailsWith(u, EventIrq(u), g)
  {
  }

  lemma FailureServed(u: World, g: Goal)
    requires (Refused(u, g) || Aborting(u, g)) && ServesFailure(u)
    ensures FailsWith(u, EventIrq(u), g)
  {
    if Refused(u, g) { RefusalServed(u, g); } else { AbortServed(u, g); }
  }

  lemma FailedStays(w: World, g: Goal, s: Step)
    requires Failed(w, g)
    ensures var v := Next(w, s);
            && Failed(v, g) && (Done(w, g) ==> v == w)
            && (Winding(w, g) ==> v == w || (Done(v, g) && v.s.d.state == DmaState.READY))
  {
  }

  /** The step of a failed run that served the STOP, and what it found decides about the stream. */
  lemma {:induction false} FailureStop(w: World, g: Goal, steps: seq<Step>) returns (i: nat)
    requires Streaming(w, g) && Failed(Play(w, steps), g)
    ensures i < |steps| && steps[i] == ServeEvent && ServesFailure(Play(w, steps[..i]))
    ensures FailsWith(Play(w, steps[..i]), Play(w, steps), g)
  {
    var n := |steps| - 1;
    var u := Play(w, steps[..n]);
    InvAlways(w, g, steps[..n]);
    if Failed(u, g) {
      i := FailureStop(w, g, steps[..n]);
      assert steps[..n][..i] == steps[..i];
      FailedStays(u, g, steps[n]);
    } else {
      i := n;
      BeforeFailure(u, g, steps[n]);
      FailureServed(u, g);
    }
  }

  /** What the STOP served at step `i` of a failed run decides, and what the next transfer finds. */
  predicate LeftBusyIff(u: World, steps: seq<Step>, i: nat, next: World)
    requires i < |steps|
  {
    var v := Play(u, steps);
    && steps[i] == ServeEvent && ServesFailure(Play(u, steps[..i]))
    && (v.s.d.state != DmaState.READY <==> StreamAhead(Play(u, steps[..i])))
    && (v.s.d.state != DmaState.READY ==> next.s.refused)
  }

  /** The transfer has ended, and not in success. */
  predicate EndedBadly(v: World, read: bool, mode: Mode) {
    v.calls != [] && SuccessOf(read, mode) !in v.calls
  }

  lemma {:induction false} FailedLeavesBusyIff(u: World, g: Goal, steps: seq<Step>, read: bool, addr: u16, size: u16)
    returns (i: nat)
    requires Streaming(u, g) && size > 0 && EndedBadly(Play(u, steps), g.job.read, g.mode)
    ensures i < |steps| && LeftBusyIff(u, steps, i, MasterDma(Play(u, steps), read, addr, size))
  {
    InvAlways(u, g, steps);
    BadEndIsFailed(Play(u, steps), g);
    i := FailureStop(u, g, steps);
    BusyStreamRefuses(Play(u, steps), g, read, addr, size);
  }

  /**
   A transfer that ends in an error or an abort leaves its stream busy iff, when the STOP was
   served, DMAEN was clear and bytes were left: the stream had been restarted, before or after the
   NACK or abort, for a block that the peripheral never called for. The next transfer then finds
   it so.
   */
  lemma {:induction false} ErrorLeavesStreamBusyIff(w: World, read: bool, addr: u16, size: u16, steps: seq<Step>,
                                                    addr': u16, size': u16) returns (i: nat)
    requires Accepts(w) && Quiet(w) && 0 < size <= |w.mem| && size' > 0
    requires EndedBadly(Play(MasterDma(w, read, addr, size), steps), read, MASTER)
    ensures var u := MasterDma(w, read, addr, size);
            i < |steps| && LeftBusyIff(u, steps, i, MasterDma(Play(u, steps), read, addr', size'))
  {
    MasterStarts(w, read, addr, size);
    var u, g := MasterDma(w, read, addr, size), MasterGoal(w, read, addr, size);
    i := FailedLeavesBusyIff(u, g, steps, read, addr', size');
  }

  /** The same for memory transfers. */
  lemma {:induction false} MemErrorLeavesStreamBusyIff(w: World, read: bool, addr: u16, size: u16, steps: seq<Step>,
                                                       addr': u16, size': u16) returns (i: nat)
    requires Quiet(w) && 0 < size <= |w.mem| && AddressSent(w, read, addr) && size' > 0
    requires EndedBadly(Play(MemDma(w, read, addr, size), steps), read, MEM)
    ensures var u := MemDma(w, read, addr, size);
            i < |steps| && LeftBusyIff(u, steps, i, MasterDma(Play(u, steps), read, addr', size'))
  {
    MemStarts(w, read, addr, size);
    var u, g := MemDma(w, read, addr, size), MemGoal(w, read, addr, size);
    i := FailedLeavesBusyIff(u, g, steps, read, addr', size');
  }

  lemma BadEndIsFailed(v: World, g: Goal)
    requires Inv(v, g) && EndedBadly(v, g.job.read, g.mode)
    ensures Failed(v, g) && Done(v, g) && Accepts(v)
  {
  }

  lemma BusyStreamRefuses(v: World, g: Goal, read: bool, addr: u16, size: u16)
    requires Inv(v, g) && EndedBadly(v, g.job.read, g.mode) && size > 0
    ensures v.s.d.state != DmaState.READY ==> MasterDma(v, read, addr, size).s.refused
  {
    BadEndIsFailed(v, g);
    if v.s.d.state == BUSY {
      assert StartBlock(v.s.(d := v.s.d.(cb := Callbacks(true, false, true, false))), 0, ChunkSize(size)).refused;
    }
  }

  // ---- that it happens, from a start ---------------------------------------------------

  lemma PlayMore(w: World, steps: seq<Step>, s: Step)
    ensures Play(w, steps + [s]) == Next(Play(w, steps), s)
  {
    assert (steps + [s])[..|steps|] == steps;
  }

  /** A NACK between a restart and its TCR leaves the stream busy. */
  lemma {:induction false} RefusalBetweenBlocks(w: World, g: Goal)
    requires Restarted(w, g) && !w.r.fl.tcr && !g.job.read
    ensures var v := Next(Next(Next(Next(w, RaiseNack), ServeEvent), RaiseStop), ServeEvent);
            Done(v, g) && v.calls == [ErrorCallback] && v.s.d.state == BUSY
  {
    AheadInStep(w, g);
    var a := Next(w, RaiseNack);
    assert Refused(a, g) && a.r.fl.af && !a.r.dmaEn && !a.r.fl.stopf;
    var b := Next(a, ServeEvent);
    RefusedServes(a, g);
    assert Refused(b, g) && !b.r.fl.af && b.r.ie.stopi && !b.r.dmaEn && !b.r.fl.stopf && b.s == w.s && b.n == w.n;
    var c := Next(b, RaiseStop);
    assert Refused(c, g) && c.r.fl.stopf && c.s == w.s && c.n == w.n;
    FailureServed(c, g);
  }

  function Request(read: bool): Step {
    if read then RaiseRxne(0) else RaiseTxis
  }

  /** The peripheral asks for a byte and the stream serves it, `k` times. */
  function Rounds(read: bool, k: nat): seq<Step> {
    if k == 0 then [] else Rounds(read, k - 1) + [Request(read)] + [MoveByDma]
  }

  function Round(read: bool, w: World): World {
    Next(Next(w, Request(read)), MoveByDma)
  }

  function After(u: World, read: bool, k: nat): World {
    if k == 0 then u else Round(read, After(u, read, k - 1))
  }

  function Iterated(f: World -> World, u: World, k: nat): World {
    if k == 0 then u else f(Iterated(f, u, k - 1))
  }

  lemma PlayTwo(w: World, steps: seq<Step>, s: Step, t: Step)
    ensures Play(w, steps + [s] + [t]) == Next(Next(Play(w, steps), s), t)
  {
    PlayMore(w, steps, s);
    PlayMore(w, steps + [s], t);
  }

  lemma {:induction false} RoundsPlayed(u: World, read: bool, k: nat)
    ensures Play(u, Rounds(read, k)) == After(u, read, k)
  {
    if k > 0 {
      RoundsPlayed(u, read, k - 1);
      PlayTwo(u, Rounds(read, k - 1), Request(read), MoveByDma);
    }
  }

  /** `k` bytes of the block further on. */
  predicate FurtherOn(u: World, v: World, g: Goal, k: nat) {
    && Streaming(u, g) && Streaming(v, g) && v.r.fl == NO_FLAGS && v.n == u.n && v.r.ie == u.r.ie
    && v.port.bus.left + k == u.port.bus.left
  }

  lemma OneRound(v: World, g: Goal)
    requires Streaming(v, g) && v.r.fl == NO_FLAGS && v.port.bus.left > 0
    ensures FurtherOn(v, Round(g.job.read, v), g, 1)
  {
    var a := Next(v, Request(g.job.read));
    StreamingWaits(v, g, Request(g.job.read));
    StreamingMoves(a, g);
    MovedFields(a, g, if g.job.read then a.r.rxdr else a.mem[At(a)]);
  }

  lemma OneFurther(u: World, v: World, g: Goal, k: nat)
    requires FurtherOn(u, v, g, k) && k < u.port.bus.left
    ensures FurtherOn(u, Round(g.job.read, v), g, k + 1)
  {
    OneRound(v, g);
  }

  lemma {:induction false} IteratedFurther(f: World -> World, u: World, g: Goal, k: nat)
    requires FurtherOn(u, u, g, 0) && k <= u.port.bus.left
    requires forall v: World, j: nat :: FurtherOn(u, v, g, j) && j < u.port.bus.left ==> FurtherOn(u, f(v), g, j + 1)
    ensures FurtherOn(u, Iterated(f, u, k), g, k)
  {
    if k > 0 {
      IteratedFurther(f, u, g, k - 1);
    }
  }

  lemma {:induction false} IteratedIsAfter(f: World -> World, u: World, read: bool, k: nat)
    requires forall w: World :: f(w) == Round(read, w)
    ensures Iterated(f, u, k) == After(u, read, k)
  {
    if k > 0 { IteratedIsAfter(f, u, read, k - 1); }
  }

  lemma {:induction false} AfterRounds(u: World, g: Goal, k: nat)
    requires FurtherOn(u, u, g, 0) && k <= u.port.bus.left
    ensures FurtherOn(u, After(u, g.job.read, k), g, k)
  {
    var f := (w: World) => Round(g.job.read, w);
    forall x: World, j: nat | FurtherOn(u, x, g, j) && j < u.port.bus.left ensures FurtherOn(u, f(x), g, j + 1) {
      OneFurther(u, x, g, j);
    }
    IteratedFurther(f, u, g, k);
    IteratedIsAfter(f, u, g.job.read, k);
  }

  lemma BlockThenRestart(v: World, g: Goal)
    requires Streaming(v, g) && v.r.fl == NO_FLAGS && v.port.bus.left == 0 && v.n.count > 0
    ensures Restarted(DmaIrq(v), g) && DmaIrq(v).r.fl == NO_FLAGS && DmaIrq(v).n.count == v.n.count
  {
    RestartFields(v, g);
    StreamingRestarts(v, DmaIrq(v), g);
  }

  lemma LongStarts(w: World, read: bool, addr: u16, size: u16)
    requires Accepts(w) && Quiet(w) && 255 < size <= |w.mem|
    ensures var u := MasterDma(w, read, addr, size);
            && FurtherOn(u, u, MasterGoal(w, read, addr, size), 0)
            && u.n.count == size - 255 && u.port.bus.left == 255
  {
    MasterStarts(w, read, addr, size);
    StartedFields(w, MasterGoal(w, read, addr, size), addr, Direction(read));
  }

  /** Five steps behind any others. */
  function Five(w: World, a: Step, b: Step, c: Step, d: Step, e: Step): World {
    Next(Next(Next(Next(Next(w, a), b), c), d), e)
  }

  lemma {:induction false} PlayFive(u: World, steps: seq<Step>, a: Step, b: Step, c: Step, d: Step, e: Step)
    ensures Play(u, steps + [a] + [b] + [c] + [d] + [e]) == Five(Play(u, steps), a, b, c, d, e)
  {
    PlayTwo(u, steps, a, b);
    PlayTwo(u, steps + [a] + [b], c, d);
    PlayMore(u, steps + [a] + [b] + [c] + [d], e);
  }

  const REFUSED_BETWEEN_BLOCKS :=
    Rounds(false, 255) + [ServeDmaIrq] + [RaiseNack] + [ServeEvent] + [RaiseStop] + [ServeEvent]

  /** From the start of any write of more than 255 bytes, a NACK after the first block does it. */
  lemma {:induction false} StreamCanBeLeftBusy(w: World, addr: u16, size: u16)
    requires Accepts(w) && Quiet(w) && 255 < size <= |w.mem|
    ensures var v := Play(MasterDma(w, false, addr, size), REFUSED_BETWEEN_BLOCKS);
            v.calls == [ErrorCallback] && v.s.d.state == BUSY
  {
    var u, g := MasterDma(w, false, addr, size), MasterGoal(w, false, addr, size);
    LongStarts(w, false, addr, size);
    PlayFive(u, Rounds(false, 255), ServeDmaIrq, RaiseNack, ServeEvent, RaiseStop, ServeEvent);
    RoundsPlayed(u, false, 255);
    AfterRounds(u, g, 255);
    RefusedAfter(After(u, false, 255), g);
  }

  lemma {:induction false} RefusedAfter(v: World, g: Goal)
    requires Streaming(v, g) && v.r.fl == NO_FLAGS && v.port.bus.left == 0 && v.n.count > 0 && !g.job.read
    ensures var u := Five(v, ServeDmaIrq, RaiseNack, ServeEvent, RaiseStop, ServeEvent);
            u.calls == [ErrorCallback] && u.s.d.state == BUSY
  {
    BlockThenRestart(v, g);
    RefusalBetweenBlocks(DmaIrq(v), g);
  }

  const STOP_BEFORE_LAST_MOVE :=
    Rounds(true, 255) + [ServeDmaIrq] + [RaiseTcr] + [ServeEvent] + [RaiseRxne(0)] + [RaiseStop]

  /** Of a read of 256 bytes, the STOP can be served before the stream has fetched the last one. */
  lemma {:induction false} SuccessCanBeEarly(w: World, addr: u16)
    requires Accepts(w) && Quiet(w) && 256 <= |w.mem|
    ensures var u := Play(MasterDma(w, true, addr, 256), STOP_BEFORE_LAST_MOVE);
            ServesSuccess(u) && u.r.fl.rxne && !Delivered(EventIrq(u), MasterGoal(w, true, addr, 256))
  {
    var u, g := MasterDma(w, true, addr, 256), MasterGoal(w, true, addr, 256);
    LongStarts(w, true, addr, 256);
    OvertakenFrom(u, g);
    SuccessIsCompleteIff(Play(u, STOP_BEFORE_LAST_MOVE), g);
  }

  /** A STOP is served while a byte waits in RXDR. */
  predicate StopIsEarly(u: World, g: Goal) {
    Streaming(u, g) && ServesSuccess(u) && u.r.fl.rxne
  }

  lemma {:induction false} OvertakenFrom(u: World, g: Goal)
    requires FurtherOn(u, u, g, 0) && u.n.count == 1 && u.port.bus.left == 255 && g.job.read
    ensures StopIsEarly(Play(u, STOP_BEFORE_LAST_MOVE), g)
  {
    PlayFive(u, Rounds(true, 255), ServeDmaIrq, RaiseTcr, ServeEvent, RaiseRxne(0), RaiseStop);
    RoundsPlayed(u, true, 255);
    AfterRounds(u, g, 255);
    StopOvertakes(After(u, true, 255), g);
  }

  lemma {:induction false} StopOvertakes(v: World, g: Goal)
    requires Streaming(v, g) && v.r.fl == NO_FLAGS && v.port.bus.left == 0 && v.n.count == 1 && g.job.read
    ensures StopIsEarly(Five(v, ServeDmaIrq, RaiseTcr, ServeEvent, RaiseRxne(0), RaiseStop), g)
  {
    BlockThenRestart(v, g);
    RestartThenReload(DmaIrq(v), g);
    LastByteThenStop(EventIrq(Next(DmaIrq(v), RaiseTcr)), g);
  }

  /** A block of one byte is left when its TCR has been served. */
  predicate LastByte(w: World, g: Goal) {
    && Streaming(w, g) && g.job.read && w.port.bus.left == 1 && w.n.count == 0
    && w.r.ie.stopi && w.r.fl == NO_FLAGS
  }

  lemma {:induction false} RestartThenReload(w: World, g: Goal)
    requires Restarted(w, g) && w.r.fl == NO_FLAGS && w.n.count == 1 && g.job.read
    ensures LastByte(EventIrq(Next(w, RaiseTcr)), g)
  {
    var a := Next(w, RaiseTcr);
    RestartedWaits(w, g, RaiseTcr);
    ReloadFields(a, g);
    RestartedReloads(a, EventIrq(a), g);
  }

  lemma LastByteThenStop(w: World, g: Goal)
    requires LastByte(w, g)
    ensures StopIsEarly(Next(Next(w, RaiseRxne(0)), RaiseStop), g)
  {
    StreamingWaits(w, g, RaiseRxne(0));
    StreamingWaits(Next(w, RaiseRxne(0)), g, RaiseStop);
  }

  lemma PlaySix(u: World, steps: seq<Step>, a: Step, b: Step, c: Step, d: Step, e: Step, f: Step)
    ensures Play(u, steps + [a] + [b] + [c] + [d] + [e] + [f]) == Next(Five(Play(u, steps), a, b, c, d, e), f)
  {
    PlayFive(u, steps, a, b, c, d, e);
    PlayMore(u, steps + [a] + [b] + [c] + [d] + [e], f);
  }

  const STOP_BEFORE_STREAM :=
    Rounds(true, 255) + [ServeDmaIrq] + [RaiseTcr] + [ServeEvent] + [RaiseRxne(0)] + [MoveByDma] + [RaiseStop]

  /** Of a read of 256 bytes, the STOP can be served before the stream's interrupt. */
  lemma {:induction false} SuccessCanFindStreamBusy(w: World, addr: u16, read': bool, addr': u16, size': u16)
    requires Accepts(w) && Quiet(w) && 256 <= |w.mem| && size' > 0
    ensures var v := EventIrq(Play(MasterDma(w, true, addr, 256), STOP_BEFORE_STREAM));
            && v.calls == [MasterRxCplt] && Accepts(v) && v.s.d.state == BUSY
            && MasterDma(v, read', addr', size').s.refused
  {
    var u, g := MasterDma(w, true, addr, 256), MasterGoal(w, true, addr, 256);
    LongStarts(w, true, addr, 256);
    StreamOvertakenFrom(u, g);
    SuccessIsCompleteIff(Play(u, STOP_BEFORE_STREAM), g);
    SuccessFindsStreamBusyIff(Play(u, STOP_BEFORE_STREAM), g, read', addr', size');
    BusyOrReady(Play(u, STOP_BEFORE_STREAM), g);
  }

  lemma BusyOrReady(u: World, g: Goal)
    requires Streaming(u, g) && ServesSuccess(u)
    ensures EventIrq(u).s.d.state == BUSY
  {
    StopFields(u, g);
  }

  lemma {:induction false} StreamOvertakenFrom(u: World, g: Goal)
    requires FurtherOn(u, u, g, 0) && u.n.count == 1 && u.port.bus.left == 255 && g.job.read
    ensures var v := Play(u, STOP_BEFORE_STREAM);
            Streaming(v, g) && ServesSuccess(v) && v.r.dmaEn && !v.r.fl.rxne
  {
    RoundsPlayed(u, true, 255);
    PlaySix(u, Rounds(true, 255), ServeDmaIrq, RaiseTcr, ServeEvent, RaiseRxne(0), MoveByDma, RaiseStop);
    AfterRounds(u, g, 255);
    StreamOvertaken(After(u, true, 255), g);
  }

  lemma {:induction false} StreamOvertaken(v: World, g: Goal)
    requires Streaming(v, g) && v.r.fl == NO_FLAGS && v.port.bus.left == 0 && v.n.count == 1 && g.job.read
    ensures var u := Next(Five(v, ServeDmaIrq, RaiseTcr, ServeEvent, RaiseRxne(0), MoveByDma), RaiseStop);
            Streaming(u, g) && ServesSuccess(u) && u.r.dmaEn && !u.r.fl.rxne
  {
    BlockThenRestart(v, g);
    RestartThenReload(DmaIrq(v), g);
    LastByteMovedThenStop(EventIrq(Next(DmaIrq(v), RaiseTcr)), g);
  }

  lemma LastByteMovedThenStop(w: World, g: Goal)
    requires LastByte(w, g)
    ensures var u := Next(Next(Next(w, RaiseRxne(0)), MoveByDma), RaiseStop);
            Streaming(u, g) && ServesSuccess(u) && u.r.dmaEn && !u.r.fl.rxne
  {
    OneRound(w, g);
    StopRaised(Round(true, w), g);
  }

  lemma StopRaised(w: World, g: Goal)
    requires Streaming(w, g) && w.port.bus.left == 0 && w.n.count == 0 && w.r.ie.stopi && w.r.fl == NO_FLAGS
    ensures var u := Next(w, RaiseStop);
            Streaming(u, g) && ServesSuccess(u) && u.r.dmaEn && !u.r.fl.rxne
  {
    StreamingWaits(w, g, RaiseStop);
  }
}
