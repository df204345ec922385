/**
 DMA-driven transfers end: every step that changes something uses up a measure, until the
 callback has been made there is such a step, and so each transfer makes exactly one callback.
 */
module I2cDmaProgress {
  import opened Words
  import opened I2cBus
  import opened DmaModel
  import opened I2cModel
  import opened I2cDma
  import opened I2cDmaRuns

  /** What an open transfer may still use up: its bytes and requests, its programmings, its end. */
  function OpenMeasure(w: World): int
    requires w.port.bus.Active?
  {
    2 * (w.port.bus.left + w.n.count) - Bit(w.r.fl.txis || w.r.fl.rxne)
    + 3 * |Rest(w.n.count)| - Bit(w.r.fl.tcr) + Bit(w.r.dmaEn) + 6 - Bit(w.r.fl.stopf)
  }

  /** An upper bound on the steps that can still change something, not counting further aborts by the user. */
  function Measure(w: World): int {
    if w.port.bus.Active? then OpenMeasure(w)
    else if w.port.bus.Stopping? then
      4 + 3 * w.port.bus.spare - Bit(w.r.fl.rxne) + Bit(w.r.fl.af) - Bit(w.r.fl.stopf) + Bit(w.s.tcif)
    else if w.port.bus.Settling? then 2
    else Bit(w.s.tcif)
  }

  predicate Open(w: World, g: Goal) {
    Streaming(w, g) || Restarted(w, g) || Drained(w, g)
  }

  lemma OpenFlags(w: World, g: Goal)
    requires Open(w, g)
    ensures w.port.bus.Active? && FlagsOk(w, g)
    ensures w.s.tcif ==> w.r.dmaEn && w.port.bus.left == 0
    ensures w.r.fl.tcr ==> w.n.count > 0
  {
  }

  lemma {:induction false} MeasureIsNatural(w: World, g: Goal)
    requires Inv(w, g)
    ensures Measure(w) >= 0
  {
    if Open(w, g) { OpenFlags(w, g); }
    if w.n.count > 0 { RestLength(w.n.count); }
  }

  lemma {:induction false} RestLength(n: nat)
    requires n > 0
    ensures |Rest(n)| == 1 + |Rest(n - ChunkSize(n))|
  {
    PlanHead(n);
  }

  // ---- every step counts ---------------------------------------------------------------

  lemma OpenRaisesCount(w: World, g: Goal, s: Step)
    requires Open(w, g) && Raises(s) && s != RaiseNack && Next(w, s) != w
    ensures Measure(Next(w, s)) < Measure(w)
  {
    OpenFlags(w, g);
  }

  lemma OpenNackCounts(w: World, g: Goal)
    requires Open(w, g) && Next(w, RaiseNack) != w
    ensures Measure(Next(w, RaiseNack)) < Measure(w)
  {
    OpenFlags(w, g);
  }

  lemma OtherRaisesCount(w: World, g: Goal, s: Step)
    requires Inv(w, g) && !Open(w, g) && Raises(s) && Next(w, s) != w
    ensures Measure(Next(w, s)) < Measure(w)
  {
  }

  lemma MoveCounts(w: World, g: Goal)
    requires Inv(w, g) && DmaMove(w) != w
    ensures Measure(DmaMove(w)) < Measure(w)
  {
    if Streaming(w, g) {
      MovedFields(w, g, if g.job.read then w.r.rxdr else w.mem[At(w)]);
    } else if Early(w, g) {
      EarlyMoves(w, g);
    }
  }

  lemma {:induction false} FinishCounts(w: World, g: Goal)
    requires Inv(w, g) && DmaIrq(w) != w
    ensures Measure(DmaIrq(w)) < Measure(w)
  {
    if Streaming(w, g) && w.n.count > 0 { RestartFields(w, g); }
  }

  lemma {:induction false} StreamingServesCount(w: World, g: Goal)
    requires Streaming(w, g) && EventIrq(w) != w
    ensures Measure(EventIrq(w)) < Measure(w)
  {
    assert w.r.fl.stopf && w.r.ie.stopi;
    StopFields(w, g);
  }

  lemma {:induction false} RestartedServesCount(w: World, g: Goal)
    requires Restarted(w, g) && EventIrq(w) != w
    ensures Measure(EventIrq(w)) < Measure(w)
  {
    ReloadFields(w, g);
    RestLength(w.n.count);
  }

  lemma {:induction false} DrainedServesCount(w: World, g: Goal)
    requires Drained(w, g) && EventIrq(w) != w
    ensures Measure(EventIrq(w)) < Measure(w)
  {
    DrainedServes(w, g);
  }

  lemma {:induction false} RefusedServesCount(w: World, g: Goal)
    requires Refused(w, g) && EventIrq(w) != w
    ensures Measure(EventIrq(w)) < Measure(w)
  {
  }

  lemma {:induction false} AbortingServesCount(w: World, g: Goal)
    requires Aborting(w, g) && EventIrq(w) != w
    ensures Measure(EventIrq(w)) < Measure(w)
  {
  }

  lemma {:induction false} ServesCount(w: World, g: Goal)
    requires Inv(w, g) && EventIrq(w) != w
    ensures Measure(EventIrq(w)) < Measure(w)
  {
    if Streaming(w, g) { StreamingServesCount(w, g); }
    else if Restarted(w, g) { RestartedServesCount(w, g); }
    else if Drained(w, g) { DrainedServesCount(w, g); }
    else if Refused(w, g) { RefusedServesCount(w, g); }
    else if Aborting(w, g) { AbortingServesCount(w, g); }
  }

  /** Every step that changes anything uses up the measure. */
  lemma {:induction false} EveryStepCounts(w: World, g: Goal, s: Step)
    requires Inv(w, g) && s != UserAbort && Next(w, s) != w
    ensures Measure(Next(w, s)) < Measure(w)
  {
    match s
    case ServeEvent => ServesCount(w, g);
    case ServeDmaIrq => FinishCounts(w, g);
    case MoveByDma => MoveCounts(w, g);
    case RaiseNack => if Open(w, g) { OpenNackCounts(w, g); } else { OtherRaisesCount(w, g, s); }
    case _ => if Open(w, g) { OpenRaisesCount(w, g, s); } else { OtherRaisesCount(w, g, s); }
  }

  // ---- there is always a step ----------------------------------------------------------

  lemma {:induction false} StreamingHasStep(w: World, g: Goal) returns (s: Step)
    requires Streaming(w, g)
    ensures s != UserAbort && Next(w, s) != w
  {
    if w.r.fl.txis || w.r.fl.rxne {
      MovedFields(w, g, if g.job.read then w.r.rxdr else w.mem[At(w)]);
      s := MoveByDma;
    } else if w.s.tcif {
      s := ServeDmaIrq;
    } else {
      s := if g.job.read then RaiseRxne(0) else RaiseTxis;
    }
  }

  lemma {:induction false} WaitingHasStep(w: World, g: Goal) returns (s: Step)
    requires Restarted(w, g) || Drained(w, g)
    ensures s != UserAbort && Next(w, s) != w
  {
    s := if w.r.fl.tcr || w.r.fl.stopf then ServeEvent else if w.n.count > 0 then RaiseTcr else RaiseStop;
  }

  /** Until the callback has been made there is a step to take. */
  lemma {:induction false} NeverStuck(w: World, g: Goal) returns (s: Step)
    requires Inv(w, g) && !Done(w, g)
    ensures s != UserAbort && Next(w, s) != w
  {
    if Streaming(w, g) {
      s := StreamingHasStep(w, g);
    } else if Open(w, g) {
      s := WaitingHasStep(w, g);
    } else if Refused(w, g) || Aborting(w, g) {
      s := if w.r.fl.stopf then ServeEvent else RaiseStop;
    } else if Winding(w, g) {
      s := ServeDmaIrq;
    } else {
      s := MoveByDma;
    }
  }

  /** The stream has an interrupt to be served. */
  predicate Pending(s: Dmac) {
    s.tcif && s.d.stream.tcie
  }

  lemma {:induction false} DoneRests(w: World, g: Goal, s: Step)
    requires Done(w, g) && !Pending(w.s) && s != UserAbort
    ensures Next(w, s) == w
  {
  }

  lemma {:induction false} LateInterrupt(w: World, g: Goal)
    requires Done(w, g) && Pending(w.s)
    ensures Next(w, ServeDmaIrq) != w
  {
    assert !DmaIrq(w).s.tcif;
  }

  /** A run is at rest iff its callback has been made and no interrupt of the stream is left over. */
  lemma {:induction false} RestIsDone(w: World, g: Goal)
    requires Inv(w, g)
    ensures AtRest(w) <==> Done(w, g) && !Pending(w.s)
  {
    if !Done(w, g) {
      var s := NeverStuck(w, g);
      assert Next(w, s) != w;
    } else if Pending(w.s) {
      LateInterrupt(w, g);
    } else {
      forall s: Step | s != UserAbort ensures Next(w, s) == w { DoneRests(w, g, s); }
    }
  }

  // ---- every run -----------------------------------------------------------------------

  lemma {:induction false} UsesUp(w: World, g: Goal, steps: seq<Step>)
    requires Inv(w, g) && UserAbort !in steps && AllEffective(w, steps)
    ensures Measure(Play(w, steps)) + |steps| <= Measure(w)
  {
    if steps != [] {
      var n := |steps| - 1;
      var front := steps[..n];
      forall i: nat | i < n ensures Effective(w, front, i) {
        assert Effective(w, steps, i);
        assert front[..i + 1] == steps[..i + 1] && front[..i] == steps[..i];
      }
      UsesUp(w, g, front);
      InvAlways(w, g, front);
      assert Effective(w, steps, n);
      assert steps[..n + 1] == steps;
      EveryStepCounts(Play(w, front), g, steps[n]);
    }
  }

  lemma {:induction false} OneCallbackAtRest(u: World, g: Goal, steps: seq<Step>)
    requires Streaming(u, g)
    ensures var v := Play(u, steps);
            && |v.calls| <= 1 && (AtRest(v) <==> Done(v, g) && !Pending(v.s))
            && (UserAbort !in steps && AllEffective(u, steps) ==> |steps| <= Measure(u))
  {
    var v := Play(u, steps);
    MatchedAlways(u, g, steps);
    InvAlways(u, g, steps);
    MeasureIsNatural(v, g);
    if UserAbort !in steps && AllEffective(u, steps) {
      UsesUp(u, g, steps);
    }
    RestIsDone(v, g);
  }

  /**
   Exactly once: in every interleaving, with a NACK at any byte and aborts anywhere, a master
   transfer makes at most one callback, and comes to rest once it has been made and the stream's
   interrupt is served; without further aborts within a bound known at the start.
   */
  lemma {:induction false} ExactlyOneCallback(w: World, read: bool, addr: u16, size: u16, steps: seq<Step>)
    requires Accepts(w) && Quiet(w) && 0 < size <= |w.mem|
    ensures var u := MasterDma(w, read, addr, size);
            var v := Play(u, steps);
            && |v.calls| <= 1 && (AtRest(v) <==> Done(v, MasterGoal(w, read, addr, size)) && !Pending(v.s))
            && (UserAbort !in steps && AllEffective(u, steps) ==> |steps| <= Measure(u))
  {
    MasterStarts(w, read, addr, size);
    OneCallbackAtRest(MasterDma(w, read, addr, size), MasterGoal(w, read, addr, size), steps);
  }

  /** The same for memory transfers, from the end of their address phase. */
  lemma {:induction false} ExactlyOneMemCallback(w: World, read: bool, addr: u16, size: u16, steps: seq<Step>)
    requires Quiet(w) && 0 < size <= |w.mem| && AddressSent(w, read, addr)
    ensures var u := MemDma(w, read, addr, size);
            var v := Play(u, steps);
            && |v.calls| <= 1 && (AtRest(v) <==> Done(v, MemGoal(w, read, addr, size)) && !Pending(v.s))
            && (UserAbort !in steps && AllEffective(u, steps) ==> |steps| <= Measure(u))
  {
    MemStarts(w, read, addr, size);
    OneCallbackAtRest(MemDma(w, read, addr, size), MemGoal(w, read, addr, size), steps);
  }

  // ---- which callback it is ------------------------------------------------------------

  /** Neither refused nor aborted. */
  predicate Unhindered(w: World, g: Goal) {
    Open(w, g) || Early(w, g) || (Done(w, g) && w.calls == [SuccessOf(g.job.read, g.mode)])
  }

  lemma OpenRaises(w: World, g: Goal, s: Step)
    requires Open(w, g) && Raises(s) && s != RaiseNack
    ensures Open(Next(w, s), g)
  {
    if Streaming(w, g) { StreamingWaits(w, g, s); }
    else if Restarted(w, g) { RestartedWaits(w, g, s); }
    else { DrainedWaits(w, g, s); }
  }

  lemma DrainedWaits(w: World, g: Goal, s: Step)
    requires Drained(w, g) && Raises(s) && s != RaiseNack
    ensures Drained(Next(w, s), g)
  {
  }

  lemma {:induction false} OpenServes(w: World, g: Goal)
    requires Open(w, g)
    ensures Unhindered(EventIrq(w), g)
  {
    ServeKeeps(w, g);
    ServedGoes(w, g);
  }

  lemma {:induction false} UnhinderedStep(w: World, g: Goal, s: Step)
    requires Unhindered(w, g) && s != UserAbort && s != RaiseNack
    ensures Unhindered(Next(w, s), g)
  {
    if Done(w, g) {
      DoneStays(w, g, s);
    } else if Early(w, g) {
      if s == MoveByDma { EarlyMoves(w, g); EarlyFields(w, g); } else { EarlyWaits(w, g, s); }
    } else if s == ServeEvent {
      OpenServes(w, g);
    } else if s == ServeDmaIrq {
      if Streaming(w, g) { StreamingFinishes(w, g); }
    } else if s == MoveByDma {
      if Streaming(w, g) { StreamingMoves(w, g); }
    } else {
      OpenRaises(w, g, s);
    }
  }

  lemma {:induction false} UnhinderedAlways(w: World, g: Goal, steps: seq<Step>)
    requires Streaming(w, g) && UserAbort !in steps && RaiseNack !in steps
    ensures Unhindered(Play(w, steps), g)
  {
    if steps != [] {
      var n := |steps| - 1;
      UnhinderedAlways(w, g, steps[..n]);
      UnhinderedStep(Play(w, steps[..n]), g, steps[n]);
    }
  }

  lemma {:induction false} SucceedsAtRest(u: World, g: Goal, steps: seq<Step>)
    requires Streaming(u, g) && UserAbort !in steps && RaiseNack !in steps
    ensures var v := Play(u, steps);
            && (v.calls == [] || v.calls == [SuccessOf(g.job.read, g.mode)])
            && (AtRest(v) ==> v.calls != [] && Delivered(v, g))
  {
    UnhinderedAlways(u, g, steps);
    InvAlways(u, g, steps);
    RestIsDone(Play(u, steps), g);
  }

  /** A master transfer that nobody refuses or aborts reports success, by the callback of its direction. */
  lemma {:induction false} MasterSucceeds(w: World, read: bool, addr: u16, size: u16, steps: seq<Step>)
    requires Accepts(w) && Quiet(w) && 0 < size <= |w.mem| && UserAbort !in steps && RaiseNack !in steps
    ensures var v := Play(MasterDma(w, read, addr, size), steps);
            && (v.calls == [] || v.calls == [if read then MasterRxCplt else MasterTxCplt])
            && (AtRest(v) ==> v.calls != [] && Delivered(v, MasterGoal(w, read, addr, size)))
  {
    MasterStarts(w, read, addr, size);
    SucceedsAtRest(MasterDma(w, read, addr, size), MasterGoal(w, read, addr, size), steps);
  }

  /** So does a memory transfer. */
  lemma {:induction false} MemSucceeds(w: World, read: bool, addr: u16, size: u16, steps: seq<Step>)
    requires Quiet(w) && 0 < size <= |w.mem| && AddressSent(w, read, addr) && UserAbort !in steps && RaiseNack !in steps
    ensures var v := Play(MemDma(w, read, addr, size), steps);
            && (v.calls == [] || v.calls == [if read then MemRxCplt else MemTxCplt])
            && (AtRest(v) ==> v.calls != [] && Delivered(v, MemGoal(w, read, addr, size)))
  {
    MemStarts(w, read, addr, size);
    SucceedsAtRest(MemDma(w, read, addr, size), MemGoal(w, read, addr, size), steps);
  }

  /** On the way to the error or the abort callback. */
  predicate Hindered(w: World, g: Goal, aborted: bool) {
    || (if aborted then Aborting(w, g) else Refused(w, g))
    || (Winding(w, g) && (w.h.state == ABORTING <==> aborted))
    || (Done(w, g) && w.calls == [if aborted then AbortCplt else ErrorCallback])
  }

  lemma HinderedServes(w: World, g: Goal, aborted: bool)
    requires if aborted then Aborting(w, g) else Refused(w, g)
    ensures Hindered(EventIrq(w), g, aborted)
  {
    if aborted { AbortingServes(w, g); } else { RefusedServes(w, g); }
  }

  lemma WindingCalls(w: World, g: Goal)
    requires Winding(w, g)
    ensures DmaIrq(w).calls == [if w.h.state == ABORTING then AbortCplt else ErrorCallback]
  {
  }

  /** A refused transfer ends in the error callback, unless aborted as well; an aborted one in the abort callback. */
  lemma {:induction false} HinderedEnds(w: World, g: Goal, steps: seq<Step>, aborted: bool)
    requires Hindered(w, g, aborted) && (aborted || UserAbort !in steps)
    ensures Hindered(Play(w, steps), g, aborted)
  {
    if steps != [] {
      var n := |steps| - 1;
      HinderedEnds(w, g, steps[..n], aborted);
      var u, s := Play(w, steps[..n]), steps[n];
      if Done(u, g) {
        DoneStays(u, g, s);
      } else if Winding(u, g) {
        if s == ServeDmaIrq { WindingEnds(u, g); WindingCalls(u, g); } else { WindingWaits(u, g, s); }
      } else if s == ServeEvent {
        HinderedServes(u, g, aborted);
      } else {
        ParkedStaysSo(u, g, s);
      }
    }
  }

  lemma {:induction false} ParkedStaysSo(u: World, g: Goal, s: Step)
    requires (Refused(u, g) && s != UserAbort) || Aborting(u, g)
    requires s != ServeEvent
    ensures Refused(u, g) ==> Refused(Next(u, s), g)
    ensures Aborting(u, g) ==> Aborting(Next(u, s), g)
  {
    match s
    case ServeDmaIrq => if Refused(u, g) { RefusedFinishes(u, g); } else { AbortingFinishes(u, g); }
    case MoveByDma => if Aborting(u, g) { AbortingMoves(u, g); }
    case UserAbort => AbortAgain(u, g);
    case _ => if Refused(u, g) { RefusedRaises(u, g, s); } else { AbortingRaises(u, g, s); }
  }
}
