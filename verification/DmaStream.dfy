/**
 The DMA stream driver with its registers and polling loops. The stream may take any time to
 disable and may raise any flags; the tick keeps advancing. Every method is tied to the
 functions of `DmaModel`, and so keeps the handle sound.
 */
module DmaStream {
  import opened Hal
  import opened Words
  import opened Board
  import opened DmaModel

  const HAL_TIMEOUT_DMA_ABORT: u32 := 5

  /** The flag that a poll for a full or half transfer waits for. */
  predicate Awaited(f: IrqFlags, full: bool) {
    if full then f.tc else f.ht
  }

  /** A reading of the status that ends the poll. */
  predicate EndsPoll(f: IrqFlags, full: bool) {
    f.te || Awaited(f, full)
  }

  /** The stream ends the transfer or fails at last; only a poll without a timeout has to rely on it. */
  ghost predicate Finishes(isr: nat -> IrqFlags, full: bool) {
    forall n: nat :: FinishesAfter(isr, full, n)
  }

  ghost predicate FinishesAfter(isr: nat -> IrqFlags, full: bool, n: nat) {
    exists k: nat :: n <= k && EndsPoll(isr(k), full)
  }

  /** Where polling ends at the latest: a reading of the tick, or of the status if there is no timeout. */
  ghost function PollBound(tick: Clock, n: nat, isr: nat -> IrqFlags, m: nat, full: bool, timeout: u32, start: u32):
      (k: nat)
    requires timeout < HAL_MAX_DELAY || Finishes(isr, full)
    ensures if timeout < HAL_MAX_DELAY then n <= k && Since(tick(k), start) > timeout
            else m <= k && EndsPoll(isr(k), full)
  {
    if timeout < HAL_MAX_DELAY then Deadline(tick, n, start, timeout)
    else
      assert FinishesAfter(isr, full, m);
      var k: nat :| m <= k && EndsPoll(isr(k), full);
      k
  }

  /** Readings `lo..hi` of the status: none has the awaited flag. */
  predicate NoneEnds(isr: nat -> IrqFlags, full: bool, lo: nat, hi: nat) {
    forall i :: lo <= i < hi ==> !Awaited(isr(i), full)
  }

  function Noted(e: DmaError, f: IrqFlags): DmaError {
    e.(te := e.te || f.te, fe := e.fe || f.fe, dme := e.dme || f.dme)
  }

  /** The error code with the errors of readings `lo..hi` of the status added to it. */
  function Recorded(isr: nat -> IrqFlags, lo: nat, hi: nat, e: DmaError): DmaError
    decreases hi
  {
    if hi <= lo then e else Noted(Recorded(isr, lo, hi - 1, e), isr(hi - 1))
  }

  /** Each error is recorded iff it was before or some reading shows it; the other bits stay. */
  lemma {:induction false} RecordedIff(isr: nat -> IrqFlags, lo: nat, hi: nat, e: DmaError)
    ensures var r := Recorded(isr, lo, hi, e);
            && (r.te <==> e.te || exists i :: lo <= i < hi && isr(i).te)
            && (r.fe <==> e.fe || exists i :: lo <= i < hi && isr(i).fe)
            && (r.dme <==> e.dme || exists i :: lo <= i < hi && isr(i).dme)
            && r.timeout == e.timeout && r.param == e.param && r.noXfer == e.noXfer
            && r.notSupported == e.notSupported
    decreases hi
  {
    if lo < hi { RecordedIff(isr, lo, hi - 1, e); }
  }

  lemma NextReading(isr: nat -> IrqFlags, full: bool, lo: nat, hi: nat, e: DmaError)
    requires lo < hi && NoneEnds(isr, full, lo, hi - 1) && !Awaited(isr(hi - 1), full)
    ensures NoneEnds(isr, full, lo, hi)
    ensures Recorded(isr, lo + 1, hi + 1, e) == Noted(Recorded(isr, lo + 1, hi, e), isr(hi))
  {
  }

  /** The tick, read for the `n`-th time, is more than `limit` after `start`. */
  predicate Over(tick: Clock, n: nat, start: u32, limit: u32) {
    Since(tick(n), start) > limit
  }

  /** Readings `lo..hi` of the tick are all in time. */
  predicate InTime(tick: Clock, lo: nat, hi: nat, start: u32, limit: u32) {
    forall i :: lo <= i < hi ==> !Over(tick, i, start, limit)
  }

  /** Readings `lo..hi` of the enable bit all find the stream on. */
  predicate AllOn(stillOn: nat -> bool, lo: nat, hi: nat) {
    forall i :: lo <= i < hi ==> stillOn(i)
  }

  class DmaHandle {
    // hardware: the n-th reading of CR.EN after a disable, and of the interrupt status register
    const stillOn: nat -> bool
    const isr: nat -> IrqFlags
    const tick: Clock
    var enReads: nat
    var isrReads: nat
    var tickReads: nat

    // handle and stream registers
    var state: DmaState
    var locked: bool
    var errorCode: DmaError
    var stream: Stream
    var callbacks: Callbacks

    constructor (stillOn: nat -> bool, isr: nat -> IrqFlags, tick: Clock)
      ensures View() == Dma(RESET, false, NO_ERROR, RESET_STREAM, Callbacks(false, false, false, false))
      ensures Sound(View())
      ensures this.stillOn == stillOn && this.isr == isr && this.tick == tick
    {
      this.stillOn, this.isr, this.tick := stillOn, isr, tick;
      enReads, isrReads, tickReads := 0, 0, 0;
      state, locked, errorCode := RESET, false, NO_ERROR;
      stream, callbacks := RESET_STREAM, Callbacks(false, false, false, false);
    }

    function View(): Dma
      reads this
    {
      Dma(state, locked, errorCode, stream, callbacks)
    }

    method Assign(d: Dma)
      modifies this`state, this`locked, this`errorCode, this`stream, this`callbacks
      ensures View() == d
    {
      state, locked, errorCode, stream, callbacks := d.state, d.locked, d.error, d.stream, d.cb;
    }

    /**
     What a wait for the stream to turn off has read: the enable bit, on at every reading but the last
     if it succeeded; and the tick after each that found it on, over the limit only at the last, if it
     failed.
     */
    ghost predicate Waited(stuck: bool, ens: nat, ticks: nat, start: u32)
      reads this
    {
      && ens < enReads && ticks <= tickReads
      && if stuck then
           && AllOn(stillOn, ens, enReads) && tickReads - ticks == enReads - ens
           && InTime(tick, ticks, tickReads - 1, start, 5) && Over(tick, tickReads - 1, start, 5)
         else
           && AllOn(stillOn, ens, enReads - 1) && !stillOn(enReads - 1) && tickReads - ticks == enReads - ens - 1
           && InTime(tick, ticks, tickReads, start, 5)
    }

    /** Disables the stream and waits until it is off; `stuck` when that takes too long. */
    method Disable(start: u32) returns (stuck: bool)
      modifies this`enReads, this`tickReads
      ensures Waited(stuck, old(enReads), old(tickReads), start)
    {
      ghost var deadline := Deadline(tick, tickReads, start, HAL_TIMEOUT_DMA_ABORT);
      var on := stillOn(enReads);
      enReads := enReads + 1;
      while on
        invariant old(enReads) < enReads && on == stillOn(enReads - 1) && AllOn(stillOn, old(enReads), enReads - 1)
        invariant tickReads - old(tickReads) == enReads - old(enReads) - 1
        invariant InTime(tick, old(tickReads), tickReads, start, HAL_TIMEOUT_DMA_ABORT)
        invariant tickReads <= deadline
        decreases deadline - tickReads
      {
        var t := tick(tickReads);
        tickReads := tickReads + 1;
        if Since(t, start) > HAL_TIMEOUT_DMA_ABORT {
          return true;
        }
        on := stillOn(enReads);
        enReads := enReads + 1;
      }
      stuck := false;
    }

    method GetTick() returns (t: u32)
      modifies this`tickReads
      ensures tickReads == old(tickReads) + 1 && t == tick(old(tickReads))
    {
      t := tick(tickReads);
      tickReads := tickReads + 1;
    }

    /** HAL_DMA_Init; `circ` and `badFifo` come from the Init structure. */
    method Init(circ: bool, badFifo: bool) returns (r: Status)
      modifies this
      ensures (View(), r) == DoInit(old(View()), circ, r == HAL_TIMEOUT, badFifo)
      ensures Waited(r == HAL_TIMEOUT, old(enReads), old(tickReads) + 1, tick(old(tickReads)))
      ensures old(Sound(View())) ==> Sound(View())
    {
      var start := GetTick();
      locked := false;
      state := BUSY;
      var stuck := Disable(start);
      if stuck {
        errorCode := NO_ERROR.(timeout := true);
        state := TIMEOUT;
        return HAL_TIMEOUT;
      }
      stream := stream.(en := false, circ := circ);
      if badFifo {
        errorCode := NO_ERROR.(param := true);
        state := READY;
        return HAL_ERROR;
      }
      errorCode := NO_ERROR;
      state := READY;
      return HAL_OK;
    }

    /** HAL_DMA_Start */
    method Start(src: nat, len: nat) returns (r: Status)
      modifies this
      ensures (View(), r) == DoStart(old(View()), src, len)
      ensures old(Sound(View())) ==> Sound(View())
    {
      if locked { return HAL_BUSY; }
      locked := true;
      if state == READY {
        state := BUSY;
        errorCode := NO_ERROR;
        stream := Enabled(stream, src, len);
        r := HAL_OK;
      } else {
        locked := false;
        r := HAL_BUSY;
      }
    }

    /** HAL_DMA_Start_IT */
    method StartIt(src: nat, len: nat) returns (r: Status)
      modifies this
      ensures (View(), r) == DoStartIt(old(View()), src, len)
      ensures old(Sound(View())) ==> Sound(View())
    {
      if locked { return HAL_BUSY; }
      locked := true;
      if state == READY {
        state := BUSY;
        errorCode := NO_ERROR;
        stream := Listening(Enabled(stream, src, len), callbacks.half);
        r := HAL_OK;
      } else {
        locked := false;
        r := HAL_BUSY;
      }
    }

    /** HAL_DMA_Abort */
    method Abort() returns (r: Status)
      modifies this
      ensures (View(), r) == DoAbort(old(View()), r == HAL_TIMEOUT)
      ensures old(state) == BUSY ==>
                Waited(r == HAL_TIMEOUT, old(enReads), old(tickReads) + 1, tick(old(tickReads)))
      ensures old(Sound(View())) ==> Sound(View())
      ensures callbacks == old(callbacks) && isrReads == old(isrReads) && tickReads > old(tickReads)
    {
      var start := GetTick();
      if state != BUSY {
        errorCode := NO_ERROR.(noXfer := true);
        locked := false;
        return HAL_ERROR;
      }
      stream := Silenced(stream, callbacks.half);
      var stuck := Disable(start);
      if stuck {
        errorCode := NO_ERROR.(timeout := true);
        locked := false;
        state := TIMEOUT;
        return HAL_TIMEOUT;
      }
      stream := stream.(en := false);
      locked := false;
      state := READY;
      return HAL_OK;
    }

    /** HAL_DMA_Abort_IT */
    method AbortIt() returns (r: Status)
      modifies this
      ensures (View(), r) == DoAbortIt(old(View()))
      ensures old(Sound(View())) ==> Sound(View())
    {
      if state != BUSY {
        errorCode := NO_ERROR.(noXfer := true);
        return HAL_ERROR;
      }
      state := ABORT;
      stream := stream.(en := false);
      return HAL_OK;
    }

    /**
     What a poll has read since reading `isrs` of the status and `ticks` of the tick: no status but the
     last has the awaited flag; it timed out because time was up, and not after a transfer error.
     */
    ghost predicate Polled(full: bool, timeout: u32, start: u32, isrs: nat, ticks: nat, timedOut: bool, te: bool)
      reads this`isrReads, this`tickReads
    {
      && isrs < isrReads && ticks <= tickReads && NoneEnds(isr, full, isrs, isrReads - 1)
      && if timedOut then !Awaited(isr(isrReads - 1), full) && !te && TimeIsUp(timeout, start, ticks)
         else te || Awaited(isr(isrReads - 1), full)
    }

    /** There is no time at all, or the last reading of the tick was over the timeout. */
    ghost predicate TimeIsUp(timeout: u32, start: u32, ticks: nat)
      reads this`tickReads
    {
      timeout == 0 || (timeout < HAL_MAX_DELAY && ticks < tickReads && Over(tick, tickReads - 1, start, timeout))
    }

    /** HAL_DMA_PollForTransfer */
    method PollForTransfer(full: bool, timeout: u32) returns (r: Status)
      requires timeout < HAL_MAX_DELAY || Finishes(isr, full)
      modifies this
      ensures old(state) != BUSY || old(stream.circ) ==> (View(), r) == DoPoll(old(View()), full, PollTimedOut)
      ensures old(state) == BUSY && !old(stream.circ) ==>
                var d, seen := old(View()), Recorded(isr, old(isrReads) + 1, isrReads, old(errorCode));
                && Polled(full, timeout, tick(old(tickReads)), old(isrReads), old(tickReads) + 1, r == HAL_TIMEOUT,
                          seen.te)
                && (if r == HAL_TIMEOUT then (View(), r) == DoPoll(d, full, PollTimedOut)
                    else if seen.te then exists stuck :: (View(), r) == DoPoll(d, full, PollError(seen, stuck))
                    else (View(), r) == DoPoll(d, full, PollDone(seen)))
      ensures old(Sound(View())) ==> Sound(View())
    {
      var start := GetTick();
      if state != BUSY {
        errorCode := NO_ERROR.(noXfer := true);
        locked := false;
        return HAL_ERROR;
      }
      if stream.circ {
        errorCode := NO_ERROR.(notSupported := true);
        return HAL_ERROR;
      }
      var timedOut := PollFlags(full, timeout, start);
      r := Conclude(full, timedOut);
    }

    /** What a poll makes of its end. */
    method Conclude(full: bool, timedOut: bool) returns (r: Status)
      requires state == BUSY && !stream.circ && (timedOut ==> !errorCode.te)
      modifies this
      ensures isrReads == old(isrReads) && tickReads >= old(tickReads) && (timedOut ==> tickReads == old(tickReads))
      ensures r == if timedOut then HAL_TIMEOUT else if old(errorCode.te) then HAL_ERROR else HAL_OK
      ensures timedOut ==> (View(), r) == DoPoll(old(View()), full, PollTimedOut)
      ensures r == HAL_ERROR ==>
                exists stuck :: (View(), r) == DoPoll(old(View()), full, PollError(old(errorCode), stuck))
      ensures r == HAL_OK ==> (View(), r) == DoPoll(old(View()), full, PollDone(old(errorCode)))
    {
      if timedOut {
        errorCode := NO_ERROR.(timeout := true);
        locked := false;
        state := READY;
        return HAL_TIMEOUT;
      }
      if errorCode.te {
        GiveUp(full);
        return HAL_ERROR;
      }
      if full {
        locked := false;
        state := READY;
      }
      return HAL_OK;
    }

    /** A poll has seen a transfer error. */
    method GiveUp(full: bool)
      requires state == BUSY && !stream.circ
      modifies this
      ensures isrReads == old(isrReads) && tickReads >= old(tickReads)
      ensures exists stuck ::
                (View(), HAL_ERROR) == DoPoll(old(View()), full, PollError(old(errorCode), stuck))
    {
      ghost var d := View();
      var a := Abort();
      locked := false;
      state := READY;
      assert (View(), HAL_ERROR) == DoPoll(d, full, PollError(d.error, a == HAL_TIMEOUT));
    }

    /** Whether the timeout has passed; with HAL_MAX_DELAY the tick is not even read. */
    method Expired(timeout: u32, start: u32) returns (over: bool)
      modifies this`tickReads
      ensures tickReads >= old(tickReads) && (0 < timeout < HAL_MAX_DELAY ==> tickReads == old(tickReads) + 1)
      ensures over <==> TimeIsUp(timeout, start, old(tickReads))
    {
      if timeout == HAL_MAX_DELAY { return false; }
      if timeout == 0 { return true; }
      var t := tick(tickReads);
      tickReads := tickReads + 1;
      over := Since(t, start) > timeout;
    }

    /** The readings of a poll that has not ended before the last of them, `f`. */
    ghost predicate PollSoFar(full: bool, isrs: nat, before: DmaError, f: IrqFlags)
      reads this`isrReads, this`errorCode
    {
      && isrs < isrReads && f == isr(isrReads - 1) && NoneEnds(isr, full, isrs, isrReads - 1)
      && errorCode == Recorded(isr, isrs + 1, isrReads, before)
    }

    /** A turn of the loop: if there is time, reads the status and records the errors that it shows. */
    method PollAgain(full: bool, timeout: u32, start: u32, last: IrqFlags, ghost isrs: nat, ghost before: DmaError)
        returns (over: bool, f: IrqFlags)
      requires PollSoFar(full, isrs, before, last) && !Awaited(last, full)
      modifies this`isrReads, this`tickReads, this`errorCode
      ensures tickReads >= old(tickReads) && (0 < timeout < HAL_MAX_DELAY ==> tickReads == old(tickReads) + 1)
      ensures over <==> TimeIsUp(timeout, start, old(tickReads))
      ensures if over then isrReads == old(isrReads) && errorCode == old(errorCode) else isrReads == old(isrReads) + 1
      ensures over ==> f == last
      ensures PollSoFar(full, isrs, before, f)
    {
      over := Expired(timeout, start);
      if over { return over, last; }
      NextReading(isr, full, isrs, isrReads, before);
      f := isr(isrReads);
      isrReads := isrReads + 1;
      errorCode := errorCode.(te := errorCode.te || f.te, fe := errorCode.fe || f.fe, dme := errorCode.dme || f.dme);
    }

    /** The polling loop: until the awaited flag, a transfer error, or the timeout. */
    method PollFlags(full: bool, timeout: u32, start: u32) returns (timedOut: bool)
      requires timeout < HAL_MAX_DELAY || Finishes(isr, full)
      modifies this`isrReads, this`tickReads, this`errorCode
      ensures Polled(full, timeout, start, old(isrReads), old(tickReads), timedOut, errorCode.te)
      ensures errorCode == Recorded(isr, old(isrReads) + 1, isrReads, old(errorCode))
    {
      ghost var isrs, ticks, before := isrReads, tickReads, errorCode;
      ghost var bound := PollBound(tick, ticks, isr, isrs + 1, full, timeout, start);
      var f := isr(isrReads);
      isrReads := isrReads + 1;
      while !Awaited(f, full) && !errorCode.te
        invariant ticks <= tickReads && PollSoFar(full, isrs, before, f)
        invariant Awaited(f, full) || errorCode.te
                  || (if timeout < HAL_MAX_DELAY then tickReads else isrReads) <= bound
        decreases bound - if timeout < HAL_MAX_DELAY then tickReads else isrReads
      {
        timedOut, f := PollAgain(full, timeout, start, f, isrs, before);
        if timedOut { return; }
      }
      timedOut := false;
    }

    /** HAL_DMA_RegisterCallback and HAL_DMA_UnRegisterCallback */
    method RegisterCallback(id: CallbackId, on: bool) returns (r: Status)
      modifies this
      ensures (View(), r) == DoRegister(old(View()), id, on)
      ensures old(Sound(View())) ==> Sound(View())
    {
      if locked { return HAL_BUSY; }
      locked := true;
      r := HAL_OK;
      if state == READY {
        callbacks := SetCallback(callbacks, id, on);
      } else {
        r := HAL_ERROR;
      }
      locked := false;
    }

    /** A callback, which may make any sequence of driver calls. */
    method Callback(ops: seq<Op>)
      modifies this`state, this`locked, this`errorCode, this`stream, this`callbacks
      ensures View() == DoAll(old(View()), ops)
    {
      var i := 0;
      while i < |ops|
        invariant 0 <= i <= |ops|
        invariant DoAll(View(), ops[i..]) == DoAll(old(View()), ops)
      {
        assert ops[i..][0] == ops[i] && ops[i..][1..] == ops[i + 1..];
        var next := Do(View(), ops[i]).0;
        Assign(next);
        i := i + 1;
      }
    }

    /** HAL_DMA_IRQHandler */
    method IRQHandler(f: IrqFlags, b: Behaviour)
      modifies this
      ensures View() == Irq(old(View()), f, b)
      ensures old(Sound(View())) ==> Sound(View())
    {
      ghost var d := View();
      SoundIrqIf(d, f, b);
      HandleErrors(f);
      HandleHalf(f, b.half);
      ghost var e := View();
      if f.tc && stream.tcie {
        if state == ABORT {
          stream := Silenced(stream, callbacks.half);
          locked := false;
          state := READY;
          if callbacks.abort {
            Callback(b.abort);
          }
          return;
        }
        if !stream.circ {
          stream := stream.(tcie := false);
          locked := false;
          state := READY;
        }
        assert View() == Finished(e);
        if callbacks.cplt {
          Callback(b.cplt);
        }
      }
      HandleFailure(b.error);
    }

    method HandleErrors(f: IrqFlags)
      modifies this
      ensures View() == IrqErrors(old(View()), f)
    {
      if f.te && stream.teie {
        stream := stream.(teie := false);
        errorCode := errorCode.(te := true);
      }
      if f.fe && stream.feie {
        errorCode := errorCode.(fe := true);
      }
      if f.dme && stream.dmeie {
        errorCode := errorCode.(dme := true);
      }
    }

    method HandleHalf(f: IrqFlags, half: seq<Op>)
      modifies this
      ensures View() == IrqHalf(old(View()), f, half)
    {
      if f.ht && stream.htie {
        if !stream.circ {
          stream := stream.(htie := false);
        }
        assert View() == old(View()).(stream := old(stream).(htie := old(stream).circ));
        if callbacks.half {
          Callback(half);
        }
      }
    }

    method HandleFailure(error: seq<Op>)
      modifies this
      ensures View() == IrqFail(old(View()), error)
    {
      if errorCode != NO_ERROR {
        if errorCode.te {
          state := ABORT;
          stream := stream.(en := false);
          locked := false;
          state := READY;
        }
        if callbacks.error {
          Callback(error);
        }
      }
    }
  }

  lemma SoundIrqIf(d: Dma, f: IrqFlags, b: Behaviour)
    ensures Sound(d) ==> Sound(Irq(d, f, b))
  {
    if Sound(d) {
      SoundIrq(d, f, b);
    }
  }
}
