/**
 What a user abort can do to the buffer of an interrupt-driven read. The dummy byte that the abort
 makes the peripheral read is stored like any other: behind the buffer, if that is already full.
 */
module I2cAbort {
  import opened Words
  import opened I2cBus
  import opened I2cModel
  import opened I2cInterrupt

  /** Nothing has been stored behind pData[0..Size). */
  predicate Inside(w: World, g: Goal) {
    && |w.mem| == |g.data| && w.n.ptr <= g.job.total <= |g.data|
    && (w.calls == [] ==> w.n.ptr + w.n.count == g.job.total)
    && w.mem[g.job.total..] == g.data[g.job.total..]
  }

  /** One byte has been stored behind it and no other will be; XferCount has wrapped. */
  predicate Overrun(w: World, g: Goal) {
    && |w.mem| == |g.data| && w.n.ptr == g.job.total + 1 && g.job.total <= |g.data|
    && (g.job.total < |w.mem| ==> w.mem[g.job.total + 1..] == g.data[g.job.total + 1..])
    && (w.calls == [] ==>
          Aborting(w, g) && w.port.bus.spare == 0 && !w.r.fl.rxne && w.n.count == TWO_TO_THE_16 - 1)
  }

  /** The handler serves a byte after an abort although none was left to be read. */
  predicate StoresBehind(w: World, s: Step) {
    s == ServeEvent && w.h.isr == ISR_IT && w.h.state == ABORTING && w.r.fl.rxne && w.n.count == 0
  }

  // ---- one step ------------------------------------------------------------------------

  lemma BehindStored(w: World, g: Goal)
    requires Aborting(w, g) && Inside(w, g) && StoresBehind(w, ServeEvent)
    ensures var v := EventIrq(w);
            Overrun(v, g) && v.mem == if g.job.total < |w.mem| then w.mem[g.job.total := w.r.rxdr] else w.mem
  {
    AbortingServes(w, g);
  }

  lemma RunningStaysInside(w: World, g: Goal)
    requires Running(w, g)
    ensures Inside(w, g) && Inside(EventIrq(w), g)
  {
    RunningServes(w, g);
  }

  lemma RefusedStaysInside(w: World, g: Goal)
    requires Refused(w, g) && Inside(w, g)
    ensures Inside(EventIrq(w), g)
  {
  }

  lemma AbortingStaysInside(w: World, g: Goal)
    requires Aborting(w, g) && Inside(w, g) && !StoresBehind(w, ServeEvent)
    ensures Inside(EventIrq(w), g)
  {
  }

  lemma OtherStepsStayInside(w: World, g: Goal, s: Step)
    requires Inv(w, g) && !Done(w, g) && Inside(w, g) && s != ServeEvent
    ensures Inside(Next(w, s), g)
  {
  }

  lemma InsideStep(w: World, g: Goal, s: Step)
    requires Inv(w, g) && Inside(w, g)
    ensures if StoresBehind(w, s) then Overrun(Next(w, s), g) else Inside(Next(w, s), g)
  {
    if Done(w, g) {
      DoneIsFinal(w, g, s);
    } else if s != ServeEvent {
      OtherStepsStayInside(w, g, s);
    } else if Running(w, g) {
      RunningStaysInside(w, g);
    } else if StoresBehind(w, s) {
      BehindStored(w, g);
    } else if Refused(w, g) {
      RefusedStaysInside(w, g);
    } else {
      AbortingStaysInside(w, g);
    }
  }

  lemma OverrunServes(w: World, g: Goal)
    requires Aborting(w, g) && Overrun(w, g)
    ensures Overrun(EventIrq(w), g)
  {
    AbortingServes(w, g);
  }

  lemma OverrunRaises(w: World, g: Goal, s: Step)
    requires Aborting(w, g) && Overrun(w, g) && s != ServeEvent
    ensures Overrun(Next(w, s), g)
  {
  }

  lemma OverrunStays(w: World, g: Goal, s: Step)
    requires Inv(w, g) && Overrun(w, g)
    ensures Overrun(Next(w, s), g)
  {
    if Done(w, g) {
      DoneIsFinal(w, g, s);
    } else if s == ServeEvent {
      OverrunServes(w, g);
    } else {
      OverrunRaises(w, g, s);
    }
  }

  // ---- every run -----------------------------------------------------------------------

  /** Some step of the run stores behind the buffer. */
  predicate EverBehind(w: World, steps: seq<Step>) {
    steps != [] &&
    (var n := |steps| - 1; EverBehind(w, steps[..n]) || StoresBehind(Play(w, steps[..n]), steps[n]))
  }

  lemma InsideOrOverrun(w: World, g: Goal, s: Step, before: bool)
    requires Inv(w, g) && if before then Overrun(w, g) else Inside(w, g)
    ensures if before || StoresBehind(w, s) then Overrun(Next(w, s), g) else Inside(Next(w, s), g)
  {
    if before { OverrunStays(w, g, s); } else { InsideStep(w, g, s); }
  }

  lemma {:induction false} InsideUnless(w: World, g: Goal, steps: seq<Step>)
    requires Running(w, g) && g.mode != NONE
    ensures if EverBehind(w, steps) then Overrun(Play(w, steps), g) else Inside(Play(w, steps), g)
  {
    if steps == [] {
      RunningStaysInside(w, g);
    } else {
      var n := |steps| - 1;
      InsideUnless(w, g, steps[..n]);
      InvAlways(w, g, steps[..n]);
      InsideOrOverrun(Play(w, steps[..n]), g, steps[n], EverBehind(w, steps[..n]));
    }
  }

  /**
   A transfer stores behind its buffer, and then one byte, iff the handler serves RXNE after a
   user abort although XferCount is zero, that is, after all its bytes had been read.
   */
  lemma {:induction false} StoresBehindIff(w: World, read: bool, addr: u16, size: u16, steps: seq<Step>)
    requires Accepts(w) && Quiet(w) && size <= |w.mem|
    ensures var g, u := MasterGoal(w, read, addr, size), MasterIt(w, read, addr, size);
            var v := Play(u, steps);
            && (Inside(v, g) <==> !EverBehind(u, steps))
            && (!Inside(v, g) ==> Overrun(v, g))
  {
    MasterStarts(w, read, addr, size);
    InsideUnless(MasterIt(w, read, addr, size), MasterGoal(w, read, addr, size), steps);
  }

  /** It happens to any read whose bytes have all been stored when the user aborts it. */
  lemma AbortAfterLastByte(w: World, g: Goal, b: byte)
    requires Running(w, g) && g.job.read && g.mode == MASTER && w.n.count == 0
    ensures var v := Next(Next(Next(w, UserAbort), RaiseRxne(b)), ServeEvent);
            && v.mem == (if g.job.total < |w.mem| then w.mem[g.job.total := b] else w.mem)
            && v.n.ptr == g.job.total + 1
            && !Inside(v, g)
  {
    var a := Next(w, UserAbort);
    RunningAborts(w, g);
    RunningStaysInside(w, g);
    assert Inside(a, g) && a.n == w.n && a.mem == w.mem && a.port.bus == Stopping(true, 1);
    var c := Next(a, RaiseRxne(b));
    AbortingRaises(a, g, RaiseRxne(b));
    assert Inside(c, g) && c.r.rxdr == b && c.mem == w.mem && StoresBehind(c, ServeEvent);
    BehindStored(c, g);
  }

  /** From the start of a read of one byte. */
  lemma {:induction false} AbortCanStoreBehind(w: World, addr: u16, b: byte)
    requires Accepts(w) && Quiet(w) && |w.mem| >= 2
    ensures var u := Next(Next(MasterIt(w, true, addr, 1), RaiseRxne(0)), ServeEvent);
            Next(Next(Next(u, UserAbort), RaiseRxne(b)), ServeEvent).mem == w.mem[0 := 0][1 := b]
  {
    var g, s := MasterGoal(w, true, addr, 1), MasterIt(w, true, addr, 1);
    MasterStarts(w, true, addr, 1);
    var a := Next(s, RaiseRxne(0));
    RunningRaises(s, g, RaiseRxne(0));
    assert a.r.fl == NO_FLAGS.(rxne := true) && a.r.rxdr == 0 && a.n == s.n && a.mem == w.mem;
    OneByteTaken(a, g);
    AbortAfterLastByte(Next(a, ServeEvent), g, b);
  }

  lemma OneByteTaken(a: World, g: Goal)
    requires Running(a, g) && g.job.read && a.r.fl == NO_FLAGS.(rxne := true) && a.n.count == 1 && g.job.total == 1
    ensures var u := EventIrq(a);
            Running(u, g) && u.n.count == 0 && u.mem == a.mem[0 := a.r.rxdr]
  {
    RunningServes(a, g);
  }
}
