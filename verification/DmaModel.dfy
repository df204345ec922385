/**
 The DMA stream handle on values: every call of the driver as a function of the handle and of
 what the hardware answered. Only single-buffer streams are modelled.
 */
module DmaModel {
  import opened Hal
  import opened Words

  datatype DmaState = RESET | READY | BUSY | TIMEOUT | ABORT

  /** ErrorCode, one field per bit. */
  datatype DmaError = DmaError(te: bool, fe: bool, dme: bool, timeout: bool, param: bool,
                               noXfer: bool, notSupported: bool)

  const NO_ERROR := DmaError(false, false, false, false, false, false, false)

  datatype CallbackId = CPLT | HALF | ERROR_CB | ABORT_CB

  /** The stream registers: enable, circular mode and the interrupt enables. */
  datatype Stream = Stream(addr: nat, ndtr: nat, en: bool, circ: bool,
                           tcie: bool, teie: bool, dmeie: bool, feie: bool, htie: bool)

  /** Which callbacks are registered. */
  datatype Callbacks = Callbacks(cplt: bool, half: bool, error: bool, abort: bool)

  datatype Dma = Dma(state: DmaState, locked: bool, error: DmaError, stream: Stream, cb: Callbacks)

  /** What PollForTransfer saw before it stopped polling. */
  datatype PollOutcome =
    | PollTimedOut
    | PollError(error: DmaError, stuck: bool)
    | PollDone(error: DmaError)

  datatype Op =
    | Init(circ: bool, stuck: bool, badFifo: bool)
    | DeInit
    | Start(src: nat, len: nat)
    | StartIt(src: nat, len: nat)
    | Abort(stuck: bool)
    | AbortIt
    | Poll(full: bool, outcome: PollOutcome)
    | Register(id: CallbackId, on: bool)

  // ---- the calls -----------------------------------------------------------------------

  function Enabled(t: Stream, src: nat, len: nat): Stream {
    t.(addr := src, ndtr := len, en := true)
  }

  /** The transfer interrupts of a stream started with HAL_DMA_Start_IT. */
  function Listening(t: Stream, half: bool): Stream {
    t.(tcie := true, teie := true, dmeie := true, feie := true, htie := t.htie || half)
  }

  function Silenced(t: Stream, half: bool): Stream {
    t.(tcie := false, teie := false, dmeie := false, feie := false, htie := t.htie && !half)
  }

  /** `stuck`: the stream does not disable in time. `badFifo`: incompatible FIFO parameters. */
  function DoInit(d: Dma, circ: bool, stuck: bool, badFifo: bool): (Dma, Status) {
    if stuck then
      (d.(locked := false, state := TIMEOUT, error := NO_ERROR.(timeout := true)), HAL_TIMEOUT)
    else
      var t := d.stream.(en := false, circ := circ);
      if badFifo then
        (d.(locked := false, state := READY, error := NO_ERROR.(param := true), stream := t), HAL_ERROR)
      else
        (d.(locked := false, state := READY, error := NO_ERROR, stream := t), HAL_OK)
  }

  const RESET_STREAM := Stream(0, 0, false, false, false, false, false, false, false)

  function DoDeInit(d: Dma): (Dma, Status) {
    if d.state == BUSY then (d, HAL_BUSY)
    else (d.(state := RESET, error := NO_ERROR, locked := false, stream := RESET_STREAM), HAL_OK)
  }

  function DoStart(d: Dma, src: nat, len: nat): (Dma, Status) {
    if d.locked then (d, HAL_BUSY)
    else if d.state == READY then
      (d.(locked := true, state := BUSY, error := NO_ERROR, stream := Enabled(d.stream, src, len)), HAL_OK)
    else (d, HAL_BUSY)
  }

  function DoStartIt(d: Dma, src: nat, len: nat): (Dma, Status) {
    if d.locked then (d, HAL_BUSY)
    else if d.state == READY then
      (d.(locked := true, state := BUSY, error := NO_ERROR,
          stream := Listening(Enabled(d.stream, src, len), d.cb.half)), HAL_OK)
    else (d, HAL_BUSY)
  }

  function DoAbort(d: Dma, stuck: bool): (Dma, Status) {
    if d.state != BUSY then (d.(error := NO_ERROR.(noXfer := true), locked := false), HAL_ERROR)
    else
      var t := Silenced(d.stream, d.cb.half).(en := stuck && d.stream.en);
      if stuck then
        (d.(stream := t, error := NO_ERROR.(timeout := true), locked := false, state := TIMEOUT), HAL_TIMEOUT)
      else
        (d.(stream := t, locked := false, state := READY), HAL_OK)
  }

  function DoAbortIt(d: Dma): (Dma, Status) {
    if d.state != BUSY then (d.(error := NO_ERROR.(noXfer := true)), HAL_ERROR)
    else (d.(state := ABORT, stream := d.stream.(en := false)), HAL_OK)
  }

  function DoPoll(d: Dma, full: bool, outcome: PollOutcome): (Dma, Status) {
    if d.state != BUSY then (d.(error := NO_ERROR.(noXfer := true), locked := false), HAL_ERROR)
    else if d.stream.circ then (d.(error := NO_ERROR.(notSupported := true)), HAL_ERROR)
    else
      match outcome
      case PollTimedOut => (d.(error := NO_ERROR.(timeout := true), locked := false, state := READY), HAL_TIMEOUT)
      case PollError(error, stuck) =>
        (DoAbort(d.(error := error), stuck).0.(locked := false, state := READY), HAL_ERROR)
      case PollDone(error) =>
        (if full then d.(error := error, locked := false, state := READY) else d.(error := error), HAL_OK)
  }

  function SetCallback(cb: Callbacks, id: CallbackId, on: bool): Callbacks {
    match id
    case CPLT => cb.(cplt := on)
    case HALF => cb.(half := on)
    case ERROR_CB => cb.(error := on)
    case ABORT_CB => cb.(abort := on)
  }

  /** HAL_DMA_RegisterCallback and HAL_DMA_UnRegisterCallback */
  function DoRegister(d: Dma, id: CallbackId, on: bool): (Dma, Status) {
    if d.locked then (d, HAL_BUSY)
    else if d.state == READY then (d.(cb := SetCallback(d.cb, id, on)), HAL_OK)
    else (d, HAL_ERROR)
  }

  function Do(d: Dma, op: Op): (Dma, Status) {
    match op
    case Init(circ, stuck, badFifo) => DoInit(d, circ, stuck, badFifo)
    case DeInit => DoDeInit(d)
    case Start(src, len) => DoStart(d, src, len)
    case StartIt(src, len) => DoStartIt(d, src, len)
    case Abort(stuck) => DoAbort(d, stuck)
    case AbortIt => DoAbortIt(d)
    case Poll(full, outcome) => DoPoll(d, full, outcome)
    case Register(id, on) => DoRegister(d, id, on)
  }

  function DoAll(d: Dma, ops: seq<Op>): Dma
    decreases |ops|
  {
    if ops == [] then d else DoAll(Do(d, ops[0]).0, ops[1..])
  }

  // ---- the interrupt handler -----------------------------------------------------------

  datatype IrqFlags = IrqFlags(te: bool, fe: bool, dme: bool, ht: bool, tc: bool)

  /** What the callbacks do, should they be called: any sequence of driver calls. */
  datatype Behaviour = Behaviour(half: seq<Op>, cplt: seq<Op>, abort: seq<Op>, error: seq<Op>)

  function IrqErrors(d: Dma, f: IrqFlags): Dma {
    d.(error := d.error.(te := d.error.te || (f.te && d.stream.teie),
                         fe := d.error.fe || (f.fe && d.stream.feie),
                         dme := d.error.dme || (f.dme && d.stream.dmeie)),
       stream := d.stream.(teie := d.stream.teie && !f.te))
  }

  function IrqHalf(d: Dma, f: IrqFlags, half: seq<Op>): Dma {
    if f.ht && d.stream.htie then
      var e := d.(stream := d.stream.(htie := d.stream.circ));
      if e.cb.half then DoAll(e, half) else e
    else d
  }

  /** Transfer complete on a running stream: ready and unlocked before the callback runs. */
  function Finished(d: Dma): Dma {
    if d.stream.circ then d
    else d.(stream := d.stream.(tcie := false), locked := false, state := READY)
  }

  /** Transfer complete on a stream that is being aborted. */
  function Aborted(d: Dma): Dma {
    d.(stream := Silenced(d.stream, d.cb.half), locked := false, state := READY)
  }

  function IrqFail(d: Dma, error: seq<Op>): Dma {
    if d.error == NO_ERROR then d
    else
      var e := if d.error.te then d.(stream := d.stream.(en := false), locked := false, state := READY) else d;
      if e.cb.error then DoAll(e, error) else e
  }

  function IrqComplete(d: Dma, b: Behaviour): Dma {
    var c := Finished(d);
    if c.cb.cplt then DoAll(c, b.cplt) else c
  }

  /** HAL_DMA_IRQHandler */
  function Irq(d: Dma, f: IrqFlags, b: Behaviour): Dma {
    var e := IrqHalf(IrqErrors(d, f), f, b.half);
    if f.tc && e.stream.tcie && e.state == ABORT then
      var a := Aborted(e);
      if a.cb.abort then DoAll(a, b.abort) else a
    else
      IrqFail(if f.tc && e.stream.tcie then IrqComplete(e, b) else e, b.error)
  }

  // ---- the handle invariant ------------------------------------------------------------

  /** A busy handle is locked, and only a busy or aborting handle is. */
  predicate Sound(d: Dma) {
    (d.state == BUSY ==> d.locked) && (d.locked ==> d.state == BUSY || d.state == ABORT)
  }

  lemma SoundCall(d: Dma, op: Op)
    requires Sound(d)
    ensures Sound(Do(d, op).0)
  {
    match op
    case Init(circ, stuck, badFifo) =>
    case DeInit =>
    case Start(src, len) =>
    case StartIt(src, len) =>
    case Abort(stuck) =>
    case AbortIt =>
    case Poll(full, outcome) =>
    case Register(id, on) =>
  }

  lemma {:induction false} SoundCalls(d: Dma, ops: seq<Op>)
    requires Sound(d)
    ensures Sound(DoAll(d, ops))
    decreases |ops|
  {
    if ops != [] {
      SoundCall(d, ops[0]);
      SoundCalls(Do(d, ops[0]).0, ops[1..]);
    }
  }

  lemma {:induction false} SoundFail(d: Dma, error: seq<Op>)
    requires Sound(d)
    ensures Sound(IrqFail(d, error))
  {
    if d.error != NO_ERROR {
      var e := if d.error.te then d.(stream := d.stream.(en := false), locked := false, state := READY) else d;
      SoundCalls(e, error);
    }
  }

  lemma {:induction false} SoundHalf(d: Dma, f: IrqFlags, half: seq<Op>)
    requires Sound(d)
    ensures Sound(IrqHalf(d, f, half))
  {
    SoundCalls(d.(stream := d.stream.(htie := d.stream.circ)), half);
  }

  /** Whatever the callbacks call, the handler returns with a sound handle. */
  lemma {:induction false} SoundIrq(d: Dma, f: IrqFlags, b: Behaviour)
    requires Sound(d)
    ensures Sound(Irq(d, f, b))
  {
    var e0 := IrqErrors(d, f);
    SoundHalf(e0, f, b.half);
    var e := IrqHalf(e0, f, b.half);
    if f.tc && e.stream.tcie && e.state == ABORT {
      SoundCalls(Aborted(e), b.abort);
    } else {
      SoundCalls(Finished(e), b.cplt);
      SoundFail(if f.tc && e.stream.tcie then IrqComplete(e, b) else e, b.error);
    }
  }

  /** A call, an interrupt, or the hardware moving the last item of a transfer. */
  datatype Event = Call(op: Op) | Interrupt(f: IrqFlags, b: Behaviour) | Complete

  /** The hardware disables a stream that is not circular. */
  function Exhausted(d: Dma): Dma {
    d.(stream := d.stream.(en := d.stream.en && d.stream.circ))
  }

  function Happens(d: Dma, e: Event): Dma {
    match e
    case Call(op) => Do(d, op).0
    case Interrupt(f, b) => Irq(d, f, b)
    case Complete => Exhausted(d)
  }

  function History(d: Dma, events: seq<Event>): Dma {
    if events == [] then d else Happens(History(d, events[..|events| - 1]), events[|events| - 1])
  }

  /** The handle stays sound over every history of calls and interrupts. */
  lemma {:induction false} SoundForever(d: Dma, events: seq<Event>)
    requires Sound(d)
    ensures Sound(History(d, events))
  {
    if events != [] {
      var before := History(d, events[..|events| - 1]);
      SoundForever(d, events[..|events| - 1]);
      match events[|events| - 1]
      case Call(op) => SoundCall(before, op);
      case Interrupt(f, b) => SoundIrq(before, f, b);
      case Complete =>
    }
  }

  /** A start is accepted exactly when the handle is ready, and otherwise leaves the stream alone. */
  lemma {:induction false} StartNeedsReady(d: Dma, events: seq<Event>, src: nat, len: nat)
    requires Sound(d)
    ensures var h := History(d, events);
            && (DoStart(h, src, len).1 == HAL_OK <==> h.state == READY)
            && (DoStartIt(h, src, len).1 == HAL_OK <==> h.state == READY)
            && (h.state != READY ==> DoStart(h, src, len).0 == h && DoStartIt(h, src, len).0 == h)
  {
    SoundForever(d, events);
  }

  // ---- starts on a stream that still runs ------------------------------------------------

  /** A handle that is ready, or waits for the end of an abort, has a disabled stream. */
  predicate Calm(d: Dma) {
    d.state == READY || d.state == ABORT ==> !d.stream.en
  }

  /** A poll that sees its transfer complete: the hardware has disabled the stream. */
  predicate TruePoll(d: Dma, op: Op) {
    op.Poll? && op.full && op.outcome.PollDone? && d.state == BUSY && !d.stream.circ ==> !d.stream.en
  }

  /** A poll that gives an enabled stream up: it times out, or its abort does. */
  predicate GivesUp(d: Dma, op: Op) {
    && op.Poll? && d.state == BUSY && !d.stream.circ && d.stream.en
    && (op.outcome.PollTimedOut? || (op.outcome.PollError? && op.outcome.stuck))
  }

  /** Exactly such polls make a handle ready whose stream still runs. */
  lemma CalmIffNotGivenUp(d: Dma, op: Op)
    requires Calm(d) && TruePoll(d, op)
    ensures Calm(Do(d, op).0) <==> !GivesUp(d, op)
  {
    match op
    case Init(circ, stuck, badFifo) =>
    case DeInit =>
    case Start(src, len) =>
    case StartIt(src, len) =>
    case Abort(stuck) =>
    case AbortIt =>
    case Poll(full, outcome) =>
    case Register(id, on) =>
  }

  /** After one, the next start is accepted while the stream has all its items left. */
  lemma StartedWhileRunning(d: Dma, full: bool, src: nat, len: nat)
    requires GivesUp(d, Poll(full, PollTimedOut))
    ensures var h := Do(d, Poll(full, PollTimedOut)).0;
            h.stream == d.stream && h.stream.en && DoStart(h, src, len).1 == DoStartIt(h, src, len).1 == HAL_OK
  {
  }

  predicate PollsCalmly(d: Dma, ops: seq<Op>)
    decreases |ops|
  {
    ops == [] || (TruePoll(d, ops[0]) && !GivesUp(d, ops[0]) && PollsCalmly(Do(d, ops[0]).0, ops[1..]))
  }

  lemma {:induction false} CalmCalls(d: Dma, ops: seq<Op>)
    requires Calm(d) && PollsCalmly(d, ops)
    ensures Calm(DoAll(d, ops))
    decreases |ops|
  {
    if ops != [] {
      CalmIffNotGivenUp(d, ops[0]);
      CalmCalls(Do(d, ops[0]).0, ops[1..]);
    }
  }

  /** No callback gives a stream up, whatever the state it is called in. */
  ghost predicate CalmCallback(ops: seq<Op>) {
    forall d: Dma :: PollsCalmly(d, ops)
  }

  /**
   A transfer-complete flag is true if the hardware has disabled the stream by the time the
   completion is handled, that is, after the half-transfer callback.
   */
  predicate TrueFlag(d: Dma, f: IrqFlags, half: seq<Op>) {
    var e := IrqHalf(IrqErrors(d, f), f, half);
    f.tc && !e.stream.circ ==> !e.stream.en
  }

  ghost predicate CalmEvent(d: Dma, e: Event) {
    match e
    case Call(op) => TruePoll(d, op) && !GivesUp(d, op)
    case Interrupt(f, b) =>
      && TrueFlag(d, f, b.half)
      && CalmCallback(b.half) && CalmCallback(b.cplt) && CalmCallback(b.abort) && CalmCallback(b.error)
    case Complete => true
  }

  ghost predicate CalmHistory(d: Dma, events: seq<Event>) {
    forall i :: 0 <= i < |events| ==> CalmAt(d, events, i)
  }

  ghost predicate CalmAt(d: Dma, events: seq<Event>, i: nat)
    requires i < |events|
  {
    CalmEvent(History(d, events[..i]), events[i])
  }

  lemma {:induction false} CalmHalf(d: Dma, f: IrqFlags, half: seq<Op>)
    requires Calm(d) && CalmCallback(half)
    ensures Calm(IrqHalf(IrqErrors(d, f), f, half))
  {
    var e := IrqErrors(d, f);
    if f.ht && e.stream.htie {
      CalmCalls(e.(stream := e.stream.(htie := e.stream.circ)), half);
    }
  }

  lemma {:induction false} CalmFail(d: Dma, error: seq<Op>)
    requires Calm(d) && CalmCallback(error)
    ensures Calm(IrqFail(d, error))
  {
    if d.error != NO_ERROR {
      CalmCalls(if d.error.te then d.(stream := d.stream.(en := false), locked := false, state := READY) else d, error);
    }
  }

  lemma {:induction false} CalmIrq(d: Dma, f: IrqFlags, b: Behaviour)
    requires Calm(d) && CalmEvent(d, Interrupt(f, b))
    ensures Calm(Irq(d, f, b))
  {
    CalmHalf(d, f, b.half);
    var e := IrqHalf(IrqErrors(d, f), f, b.half);
    if f.tc && e.stream.tcie && e.state == ABORT {
      CalmCalls(Aborted(e), b.abort);
    } else {
      if f.tc && e.stream.tcie { CalmCalls(Finished(e), b.cplt); }
      CalmFail(if f.tc && e.stream.tcie then IrqComplete(e, b) else e, b.error);
    }
  }

  /** In a history without such polls a start is accepted only on a stream that is disabled. */
  lemma {:induction false} StartFindsStreamDisabled(d: Dma, events: seq<Event>, src: nat, len: nat)
    requires Calm(d) && CalmHistory(d, events)
    ensures var h := History(d, events);
            Calm(h) && (DoStart(h, src, len).1 == HAL_OK || DoStartIt(h, src, len).1 == HAL_OK ==> !h.stream.en)
  {
    if events != [] {
      var n := |events| - 1;
      forall i | 0 <= i < n ensures CalmAt(d, events[..n], i) {
        assert CalmAt(d, events, i) && events[..n][..i] == events[..i];
      }
      StartFindsStreamDisabled(d, events[..n], src, len);
      assert CalmAt(d, events, n);
      var before := History(d, events[..n]);
      match events[n]
      case Call(op) => CalmIffNotGivenUp(before, op);
      case Interrupt(f, b) => CalmIrq(before, f, b);
      case Complete =>
    }
  }
}
