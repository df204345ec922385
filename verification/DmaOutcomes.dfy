/**
 What the calls and the interrupt of a DMA stream do, outcome by outcome; what becomes of a transfer
 from its start to each of its ends; and why only HAL_DMA_Init and HAL_DMA_DeInit help after a
 stream has failed to stop.
 */
module DmaOutcomes {
  import opened Hal
  import opened DmaModel

  // ---- the calls -----------------------------------------------------------------------

  /** Only a stream that does not stop keeps HAL_DMA_Init from making the handle ready. */
  lemma InitOutcome(d: Dma, circ: bool, stuck: bool, badFifo: bool)
    ensures var (r, status), t := Do(d, Init(circ, stuck, badFifo)), d.stream;
            && status == (if stuck then HAL_TIMEOUT else if badFifo then HAL_ERROR else HAL_OK)
            && r == Dma(if stuck then TIMEOUT else READY, false,
                        DmaError(false, false, false, stuck, !stuck && badFifo, false, false),
                        Stream(t.addr, t.ndtr, stuck && t.en, if stuck then t.circ else circ,
                               t.tcie, t.teie, t.dmeie, t.feie, t.htie), d.cb)
  {
  }

  lemma DeInitOutcome(d: Dma)
    ensures d.state == BUSY ==> Do(d, DeInit) == (d, HAL_BUSY)
    ensures d.state != BUSY ==>
              Do(d, DeInit) == (Dma(RESET, false, DmaError(false, false, false, false, false, false, false),
                                    Stream(0, 0, false, false, false, false, false, false, false), d.cb), HAL_OK)
  {
  }

  /** An accepted start: the interrupts of StartIt are all but that of the first half, which needs a callback. */
  lemma StartOutcome(d: Dma, src: nat, len: nat)
    requires d.state == READY && !d.locked
    ensures var t, clean := d.stream, DmaError(false, false, false, false, false, false, false);
            && Do(d, Start(src, len))
               == (Dma(BUSY, true, clean,
                       Stream(src, len, true, t.circ, t.tcie, t.teie, t.dmeie, t.feie, t.htie), d.cb), HAL_OK)
            && Do(d, StartIt(src, len))
               == (Dma(BUSY, true, clean,
                       Stream(src, len, true, t.circ, true, true, true, true, t.htie || d.cb.half), d.cb), HAL_OK)
  {
  }

  /** Refused calls change nothing but the error code, and Abort and Poll release the lock. */
  lemma Refusals(d: Dma, src: nat, len: nat, stuck: bool, full: bool, outcome: PollOutcome, id: CallbackId, on: bool)
    ensures d.state != READY || d.locked ==>
              && Do(d, Start(src, len)) == Do(d, StartIt(src, len)) == (d, HAL_BUSY)
              && Do(d, Register(id, on)) == (d, if d.locked then HAL_BUSY else HAL_ERROR)
    ensures d.state != BUSY ==>
              var none := DmaError(false, false, false, false, false, true, false);
              && Do(d, Abort(stuck)) == Do(d, Poll(full, outcome))
                                     == (Dma(d.state, false, none, d.stream, d.cb), HAL_ERROR)
              && Do(d, AbortIt) == (Dma(d.state, d.locked, none, d.stream, d.cb), HAL_ERROR)
    ensures d.state == BUSY && d.stream.circ ==>
              Do(d, Poll(full, outcome))
              == (Dma(BUSY, d.locked, DmaError(false, false, false, false, false, false, true), d.stream, d.cb),
                  HAL_ERROR)
  {
  }

  /** A stream whose transfer interrupts are off; that of the first half only if it has a callback. */
  predicate Quiet(t: Stream, from: Stream, half: bool) {
    t == Stream(from.addr, from.ndtr, t.en, from.circ, false, false, false, false, from.htie && !half)
  }

  lemma AbortOutcome(d: Dma, stuck: bool)
    requires d.state == BUSY
    ensures var (r, status) := Do(d, Abort(stuck));
            && status == (if stuck then HAL_TIMEOUT else HAL_OK)
            && Quiet(r.stream, d.stream, d.cb.half) && r.stream.en == (stuck && d.stream.en)
            && r == Dma(if stuck then TIMEOUT else READY, false,
                        if stuck then DmaError(false, false, false, true, false, false, false) else d.error,
                        r.stream, d.cb)
    ensures Do(d, AbortIt)
            == (Dma(ABORT, d.locked, d.error, Stream(d.stream.addr, d.stream.ndtr, false, d.stream.circ,
                    d.stream.tcie, d.stream.teie, d.stream.dmeie, d.stream.feie, d.stream.htie), d.cb), HAL_OK)
  {
  }

  /** A poll for the first half leaves the transfer running; a timeout leaves the stream as it is. */
  lemma PollOutcomes(d: Dma, full: bool, outcome: PollOutcome)
    requires d.state == BUSY && !d.stream.circ
    ensures var (r, status) := Do(d, Poll(full, outcome));
            match outcome
            case PollTimedOut =>
              && status == HAL_TIMEOUT
              && r == Dma(READY, false, DmaError(false, false, false, true, false, false, false), d.stream, d.cb)
            case PollError(error, stuck) =>
              && status == HAL_ERROR
              && Quiet(r.stream, d.stream, d.cb.half) && r.stream.en == (stuck && d.stream.en)
              && r == Dma(READY, false,
                          if stuck then DmaError(false, false, false, true, false, false, false) else error,
                          r.stream, d.cb)
            case PollDone(error) =>
              && status == HAL_OK
              && r == if full then Dma(READY, false, error, d.stream, d.cb)
                      else Dma(BUSY, d.locked, error, d.stream, d.cb)
  {
  }

  lemma RegisterOutcome(d: Dma, on: bool)
    requires d.state == READY && !d.locked
    ensures var c := d.cb;
            && Do(d, Register(CPLT, on)) == (d.(cb := Callbacks(on, c.half, c.error, c.abort)), HAL_OK)
            && Do(d, Register(HALF, on)) == (d.(cb := Callbacks(c.cplt, on, c.error, c.abort)), HAL_OK)
            && Do(d, Register(ERROR_CB, on)) == (d.(cb := Callbacks(c.cplt, c.half, on, c.abort)), HAL_OK)
            && Do(d, Register(ABORT_CB, on)) == (d.(cb := Callbacks(c.cplt, c.half, c.error, on)), HAL_OK)
  {
  }

  // ---- the interrupt -------------------------------------------------------------------

  const SILENT := Behaviour([], [], [], [])

  /** The error code once the handler has looked at the flags. */
  function ErrorAfter(d: Dma, f: IrqFlags): DmaError {
    DmaError(d.error.te || (f.te && d.stream.teie), d.error.fe || (f.fe && d.stream.feie),
             d.error.dme || (f.dme && d.stream.dmeie), d.error.timeout, d.error.param, d.error.noXfer,
             d.error.notSupported)
  }

  lemma IrqBegins(d: Dma, f: IrqFlags)
    ensures var t := d.stream;
            IrqHalf(IrqErrors(d, f), f, [])
            == Dma(d.state, d.locked, ErrorAfter(d, f),
                   Stream(t.addr, t.ndtr, t.en, t.circ, t.tcie, t.teie && !f.te, t.dmeie, t.feie,
                          t.htie && (f.ht ==> t.circ)), d.cb)
  {
  }

  /** The whole handler at once, with callbacks that make no calls. */
  lemma IrqOutcome(d: Dma, f: IrqFlags)
    ensures var t, r := d.stream, Irq(d, f, SILENT);
            var complete := f.tc && t.tcie;
            var aborted, finished := complete && d.state == ABORT, complete && d.state != ABORT && !t.circ;
            var failed := !aborted && ErrorAfter(d, f).te;
            var over := aborted || finished || failed;
            && r.state == (if over then READY else d.state) && r.locked == (d.locked && !over)
            && r.error == ErrorAfter(d, f) && r.cb == d.cb
            && r.stream == Stream(t.addr, t.ndtr, t.en && !failed, t.circ, t.tcie && !aborted && !finished,
                                  t.teie && !f.te && !aborted, t.dmeie && !aborted, t.feie && !aborted,
                                  t.htie && (f.ht ==> t.circ) && !(aborted && d.cb.half))
  {
    IrqBegins(d, f);
    var e := IrqHalf(IrqErrors(d, f), f, []);
    if f.tc && e.stream.tcie && e.state == ABORT {
      assert Irq(d, f, SILENT) == Aborted(e);
    } else if f.tc && e.stream.tcie {
      assert Irq(d, f, SILENT) == IrqFail(Finished(e), []);
    } else {
      assert Irq(d, f, SILENT) == IrqFail(e, []);
    }
  }

  const HALF_ONLY := IrqFlags(false, false, false, true, false)
  const COMPLETE_ONLY := IrqFlags(false, false, false, false, true)

  /** Which callback runs, and on which handle: that of the first half on a running transfer. */
  lemma HalfCallback(d: Dma, b: Behaviour)
    requires d.error == NO_ERROR && d.stream.htie
    ensures var h := DoAll(Irq(d, HALF_ONLY, SILENT), if d.cb.half then b.half else []);
            Irq(d, HALF_ONLY, b) == if h.error == NO_ERROR then h else IrqFail(h, b.error)
  {
  }

  /** That of the end on a handle that is ready again, so that it may start the next transfer. */
  lemma CompletionCallback(d: Dma, b: Behaviour)
    requires d.error == NO_ERROR && d.stream.tcie && d.state != ABORT
    ensures var c := DoAll(Irq(d, COMPLETE_ONLY, SILENT), if d.cb.cplt then b.cplt else []);
            Irq(d, COMPLETE_ONLY, b) == if c.error == NO_ERROR then c else IrqFail(c, b.error)
  {
  }

  /** That of an abort, whatever else is flagged, on a ready handle; it is the last thing to happen. */
  lemma AbortCallback(d: Dma, f: IrqFlags, b: Behaviour)
    requires f.tc && d.stream.tcie && d.state == ABORT && !(f.ht && d.stream.htie)
    ensures Irq(d, f, b) == DoAll(Irq(d, f, SILENT), if d.cb.abort then b.abort else [])
  {
  }

  /** That of an error, when the transfer has been given up for a transfer error and for no other. */
  lemma ErrorCallback(d: Dma, f: IrqFlags, b: Behaviour)
    requires !(f.tc && d.stream.tcie) && !(f.ht && d.stream.htie)
    ensures var e := Irq(d, f, SILENT);
            Irq(d, f, b) == DoAll(e, if e.error != NO_ERROR && d.cb.error then b.error else [])
  {
  }

  /** An interrupt for both halves is one for each, in order, unless something fails in between. */
  lemma BothHalves(d: Dma, b: Behaviour)
    requires d.error == NO_ERROR && Irq(d, HALF_ONLY, b).error == NO_ERROR
    requires IrqHalf(d, HALF_ONLY, b.half).error == NO_ERROR
    ensures Irq(d, IrqFlags(false, false, false, true, true), b) == Irq(Irq(d, HALF_ONLY, b), COMPLETE_ONLY, b)
  {
    assert IrqErrors(d, HALF_ONLY) == d;
    assert IrqErrors(d, IrqFlags(false, false, false, true, true)) == d;
    var e := IrqHalf(d, HALF_ONLY, b.half);
    assert Irq(d, HALF_ONLY, b) == e;
    assert IrqErrors(e, COMPLETE_ONLY) == e;
  }

  // ---- a transfer from start to end ----------------------------------------------------

  /** The handle after a transfer started with StartIt: as before, but for what the stream was set to. */
  predicate Over(r: Dma, d: Dma, src: nat, len: nat) {
    && r.state == READY && !r.locked && r.error == NO_ERROR && r.cb == d.cb
    && r.stream.addr == src && r.stream.ndtr == len && !r.stream.en && !r.stream.tcie
  }

  /** A transfer that completes, one aborted at once and one aborted by interrupt end alike. */
  lemma EveryEnd(d: Dma, src: nat, len: nat)
    requires d.state == READY && !d.locked && !d.stream.circ
    ensures var s := Do(d, StartIt(src, len)).0;
            && Over(Irq(Exhausted(s), COMPLETE_ONLY, SILENT), d, src, len)
            && Over(Do(s, Abort(false)).0, d, src, len)
            && Over(Irq(Do(s, AbortIt).0, COMPLETE_ONLY, SILENT), d, src, len)
            && Irq(Do(s, AbortIt).0, COMPLETE_ONLY, SILENT) == Do(s, Abort(false)).0
  {
  }

  // ---- a stream that does not stop -----------------------------------------------------

  predicate Reinitialises(op: Op) {
    op.Init? || op.DeInit?
  }

  predicate NeverReinitialises(ops: seq<Op>) {
    forall i :: 0 <= i < |ops| ==> !Reinitialises(ops[i])
  }

  predicate EventKeepsHandle(e: Event) {
    match e
    case Call(op) => !Reinitialises(op)
    case Interrupt(f, b) =>
      && NeverReinitialises(b.half) && NeverReinitialises(b.cplt)
      && NeverReinitialises(b.abort) && NeverReinitialises(b.error)
    case Complete => true
  }

  /** The handle after an abort that timed out, and after anything that has been tried since. */
  predicate GivenUp(d: Dma) {
    d.state == TIMEOUT && !d.error.te && !d.stream.tcie && !d.stream.teie
  }

  lemma {:induction false} CallsKeepGivenUp(d: Dma, ops: seq<Op>)
    requires GivenUp(d) && NeverReinitialises(ops)
    ensures GivenUp(DoAll(d, ops))
    decreases |ops|
  {
    if ops != [] {
      assert !Reinitialises(ops[0]);
      CallsKeepGivenUp(Do(d, ops[0]).0, ops[1..]);
    }
  }

  lemma {:induction false} IrqKeepsGivenUp(d: Dma, f: IrqFlags, b: Behaviour)
    requires GivenUp(d) && NeverReinitialises(b.half) && NeverReinitialises(b.error)
    ensures GivenUp(Irq(d, f, b))
  {
    var e := IrqErrors(d, f);
    CallsKeepGivenUp(e.(stream := e.stream.(htie := e.stream.circ)), b.half);
    var h := IrqHalf(e, f, b.half);
    assert GivenUp(h);
    CallsKeepGivenUp(h, b.error);
  }

  /**
   After HAL_DMA_Abort has timed out no start is accepted and no callback registered, whatever calls,
   interrupts and callbacks follow, until HAL_DMA_Init or HAL_DMA_DeInit is called.
   */
  lemma {:induction false} OnlyInitRecovers(d: Dma, events: seq<Event>, src: nat, len: nat, id: CallbackId, on: bool)
    requires d.state == BUSY && forall i :: 0 <= i < |events| ==> EventKeepsHandle(events[i])
    ensures var h := History(Do(d, Abort(true)).0, events);
            && h.state == TIMEOUT
            && Do(h, Start(src, len)) == Do(h, StartIt(src, len)) == (h, HAL_BUSY)
            && Do(h, Register(id, on)).0 == h && Do(h, Register(id, on)).1 != HAL_OK
  {
    StaysGivenUp(Do(d, Abort(true)).0, events);
  }

  lemma {:induction false} StaysGivenUp(d: Dma, events: seq<Event>)
    requires GivenUp(d) && forall i :: 0 <= i < |events| ==> EventKeepsHandle(events[i])
    ensures GivenUp(History(d, events))
  {
    if events != [] {
      var n := |events| - 1;
      StaysGivenUp(d, events[..n]);
      var before := History(d, events[..n]);
      assert EventKeepsHandle(events[n]);
      match events[n]
      case Call(op) =>
      case Interrupt(f, b) => IrqKeepsGivenUp(before, f, b);
      case Complete =>
    }
  }
}
