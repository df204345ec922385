/**
 Interrupt and DMA driven master transfers on values: the handle, the registers, the wire and
 the DMA stream, with the driver's functions and the events of a conforming peripheral as
 functions from one configuration to the next. Sequential transfers are not modelled, so
 XferOptions is I2C_NO_OPTION_FRAME throughout.
 */
module I2cModel {
  import opened Hal
  import opened Words
  import opened I2cBus
  import opened DmaModel

  datatype State = READY | BUSY_TX | BUSY_RX | ABORTING
  datatype Mode = NONE | MASTER | MEM
  datatype Isr = NO_ISR | ISR_IT | ISR_DMA
  datatype Errors = Errors(af: bool, size: bool, dmaFailed: bool)
  datatype Callback = MasterTxCplt | MasterRxCplt | MemTxCplt | MemRxCplt | ErrorCallback | AbortCplt

  const NO_ERRORS := Errors(false, false, false)

  datatype Counters = Counters(size: u16, count: u16, ptr: nat)
  datatype Handle = Handle(state: State, mode: Mode, isr: Isr, err: Errors, locked: bool)

  /** Status flags of the peripheral that software looks at. */
  datatype Flags = Flags(txis: bool, rxne: bool, tcr: bool, tc: bool, stopf: bool, af: bool)

  /** Interrupt enables of CR1. */
  datatype Enables = Enables(txi: bool, rxi: bool, tci: bool, stopi: bool, nacki: bool)

  datatype Regs = Regs(fl: Flags, ie: Enables, rxdr: byte, sadd: u16, autoEnd: bool, dmaEn: bool)

  const NO_FLAGS := Flags(false, false, false, false, false, false)
  const ALL_OFF := Enables(false, false, false, false, false)

  /** A DMA stream with its pending transfer-complete flag, and the blocks started on it so far. */
  datatype Block = Block(start: nat, len: nat)
  datatype Dmac = Dmac(d: Dma, tcif: bool, blocks: seq<Block>, refused: bool)

  datatype World = World(h: Handle, n: Counters, r: Regs, port: Port, mem: seq<byte>, s: Dmac, calls: seq<Callback>)

  // ---- small pieces --------------------------------------------------------------------

  function Said(w: World, c: Callback): World {
    w.(calls := w.calls + [c])
  }

  /** A write to CR2; a new count clears TCR and TC. */
  function Configure(w: World, a: Access): World
    requires a.Cr2?
  {
    w.(port := Touch(w.port, a),
       r := w.r.(fl := w.r.fl.(tcr := false, tc := false), sadd := a.addr, autoEnd := a.mode == AutoEnd))
  }

  /** I2C_Flush_TXDR: the dummy byte that clears a pending TXIS is never sent. */
  function Flushed(w: World): World {
    w.(r := w.r.(fl := w.r.fl.(txis := false)))
  }

  datatype Request = TX_IT | RX_IT | ERROR_IT | CPLT_IT | RELOAD_IT

  const XFER_TX_IT: bv16 := 0x0001
  const XFER_RX_IT: bv16 := 0x0002
  const XFER_LISTEN_IT: bv16 := 0x0004
  const XFER_ERROR_IT: bv16 := 0x0011
  const XFER_CPLT_IT: bv16 := 0x0012
  const XFER_RELOAD_IT: bv16 := 0x0012

  function Code(q: Request): bv16 {
    match q
    case TX_IT => XFER_TX_IT
    case RX_IT => XFER_RX_IT
    case ERROR_IT => XFER_ERROR_IT
    case CPLT_IT => XFER_CPLT_IT
    case RELOAD_IT => XFER_RELOAD_IT
  }

  /**
   What I2C_Enable_IRQ comes to. The request codes overlap: CPLT and RELOAD are the same code,
   which contains the RX bit, and ERROR contains the TX bit; outside DMA mode these bits take
   effect, so that every request there enables a data interrupt.
   */
  function Enabling(ie: Enables, isr: Isr, q: Request): Enables {
    if isr == ISR_DMA then
      match q
      case ERROR_IT => ie.(nacki := true)
      case CPLT_IT => ie.(stopi := true, tci := true)
      case RELOAD_IT => ie.(stopi := true, tci := true)
      case _ => ie
    else
      match q
      case TX_IT => ie.(tci := true, stopi := true, nacki := true, txi := true)
      case ERROR_IT => ie.(tci := true, stopi := true, nacki := true, txi := true)
      case _ => ie.(tci := true, stopi := true, nacki := true, rxi := true)
  }

  function Enabled(w: World, q: Request): World {
    w.(r := w.r.(ie := Enabling(w.r.ie, w.h.isr, q)))
  }

  // ---- completion and errors -----------------------------------------------------------

  /** I2C_DMAAbort */
  function DmaAbort(w: World): World {
    var v := w.(s := w.s.(d := w.s.d.(cb := w.s.d.cb.(abort := false))));
    if v.h.state == ABORTING then Said(v.(h := v.h.(state := State.READY)), AbortCplt)
    else Said(v, ErrorCallback)
  }

  /** The first half of I2C_ITError: all interrupt enables go off. */
  function ErrorReset(w: World, code: Errors): World {
    var err := Errors(w.h.err.af || code.af, w.h.err.size || code.size, w.h.err.dmaFailed || code.dmaFailed);
    w.(h := Handle(if w.h.state == ABORTING then ABORTING else State.READY, NONE, NO_ISR, err, false),
       n := w.n.(count := 0),
       r := w.r.(ie := ALL_OFF))
  }

  /** The second half: a running DMA request is aborted, otherwise the user is told at once. */
  function ErrorTail(w: World): World {
    if w.r.dmaEn then
      var v := w.(r := w.r.(dmaEn := false));
      var (e, status) := DoAbortIt(v.s.d.(cb := v.s.d.cb.(abort := true)));
      if status == HAL_OK then v.(s := v.s.(d := e, tcif := true))
      else DmaAbort(v.(s := v.s.(d := e)))
    else if w.h.state == ABORTING then Said(w.(h := w.h.(state := State.READY)), AbortCplt)
    else Said(w, ErrorCallback)
  }

  /** I2C_ITError */
  function ItError(w: World, code: Errors): World {
    ErrorTail(ErrorReset(w, code))
  }

  function CompletionOf(state: State, mode: Mode): Callback {
    if state == BUSY_TX then (if mode == MEM then MemTxCplt else MasterTxCplt)
    else (if mode == MEM then MemRxCplt else MasterRxCplt)
  }

  /** The first half of I2C_ITMasterCplt; `af` is the NACK flag of the handler's snapshot. */
  function CpltReset(w: World, af: bool): World {
    w.(port := Touch(w.port, ClearStop),
       h := w.h.(isr := NO_ISR, err := w.h.err.(af := w.h.err.af || af)),
       r := w.r.(ie := ALL_OFF, fl := w.r.fl.(stopf := false, txis := false, af := w.r.fl.af && !af)))
  }

  /** I2C_ITMasterCplt */
  function MasterCplt(w: World, af: bool): World {
    var v := CpltReset(w, af);
    if v.h.err != NO_ERRORS || v.h.state == ABORTING then ItError(v, v.h.err)
    else if v.h.state == BUSY_TX || v.h.state == BUSY_RX then
      Said(v.(h := v.h.(state := State.READY, mode := NONE, locked := false)), CompletionOf(v.h.state, v.h.mode))
    else v
  }

  /** I2C_ITMasterSequentialCplt */
  function SequentialCplt(w: World): World {
    Said(w.(h := w.h.(state := State.READY, mode := NONE, isr := NO_ISR, locked := false),
            r := w.r.(ie := w.r.ie.(tci := false, stopi := false, nacki := false,
                                    txi := w.r.ie.txi && w.h.state != BUSY_TX,
                                    rxi := w.r.ie.rxi && w.h.state == BUSY_TX))),
         if w.h.state == BUSY_TX then MasterTxCplt else MasterRxCplt)
  }

  // ---- I2C_Master_ISR_IT ---------------------------------------------------------------

  function Counted(n: Counters): Counters {
    Counters(Wrap16(n.size - 1), Wrap16(n.count - 1), n.ptr + 1)
  }

  /** Reads RXDR into the buffer; a store past the buffer's end is dropped. */
  function TakeRx(w: World): World {
    w.(port := Touch(w.port, Rxdr(w.r.rxdr)),
       mem := if w.n.ptr < |w.mem| then w.mem[w.n.ptr := w.r.rxdr] else w.mem,
       n := Counted(w.n),
       r := w.r.(fl := w.r.fl.(rxne := false)))
  }

  function PutTx(w: World): World {
    w.(port := Touch(w.port, Txdr(if w.n.ptr < |w.mem| then w.mem[w.n.ptr] else 0)),
       n := Counted(w.n),
       r := w.r.(fl := w.r.fl.(txis := false)))
  }

  function ItReload(w: World): World {
    if w.n.size == 0 && w.n.count != 0 then
      Configure(w.(n := w.n.(size := ChunkSize(w.n.count))), ChunkOf(w.r.sadd, w.n.count, NoStartStop))
    else if !w.r.autoEnd then SequentialCplt(w)
    else ItError(w, NO_ERRORS.(size := true))
  }

  function ItComplete(w: World): World {
    if w.n.count == 0 then
      if !w.r.autoEnd then w.(port := Touch(w.port, Cr2(w.r.sadd, 0, SoftEnd, GenerateStop))) else w
    else ItError(w, NO_ERRORS.(size := true))
  }

  function NackSeen(w: World): World {
    Flushed(w.(h := w.h.(err := w.h.err.(af := true)), r := w.r.(fl := w.r.fl.(af := false))))
  }

  /** The chain of alternatives of the handler, on the flags and enables it read on entry. */
  function ItData(w: World, fl: Flags, ie: Enables): World {
    if fl.af && ie.nacki then NackSeen(w)
    else if fl.rxne && ie.rxi then TakeRx(w)
    else if fl.txis && ie.txi then PutTx(w)
    else if fl.tcr && ie.tci then ItReload(w)
    else if fl.tc && ie.tci then ItComplete(w)
    else w
  }

  function IsrIt(w: World): World {
    if w.h.locked then w
    else
      var v := ItData(w.(h := w.h.(locked := true)), w.r.fl, w.r.ie);
      var u := if w.r.fl.stopf && w.r.ie.stopi then MasterCplt(v, w.r.fl.af) else v;
      u.(h := u.h.(locked := false))
  }

  // ---- I2C_Master_ISR_DMA and the DMA callbacks ----------------------------------------

  function DmaReload(w: World): World {
    var v := w.(r := w.r.(ie := w.r.ie.(tci := false)));
    if v.n.count != 0 then
      var size := ChunkSize(v.n.count);
      var u := Configure(v, ChunkOf(v.r.sadd, v.n.count, NoStartStop));
      u.(n := u.n.(size := size, count := u.n.count - size), r := u.r.(dmaEn := true))
    else ItError(v, NO_ERRORS.(size := true))
  }

  function IsrDma(w: World): World {
    if w.h.locked then w
    else
      var fl, ie := w.r.fl, w.r.ie;
      var v := w.(h := w.h.(locked := true));
      var u := if fl.af && ie.nacki then Enabled(NackSeen(v), CPLT_IT)
               else if fl.tcr && ie.tci then DmaReload(v)
               else if fl.stopf && ie.stopi then MasterCplt(v, fl.af)
               else v;
      u.(h := u.h.(locked := false))
  }

  /** HAL_DMA_Start_IT on the stream of the transfer, remembering the block and a refusal. */
  function StartBlock(s: Dmac, start: nat, len: nat): Dmac {
    var (d, status) := DoStartIt(s.d, start, len);
    if status == HAL_OK then s.(d := d, blocks := s.blocks + [Block(start, len)])
    else s.(d := d, refused := true)
  }

  /** I2C_DMAMasterTransmitCplt and I2C_DMAMasterReceiveCplt */
  function DmaCplt(w: World): World {
    var v := w.(r := w.r.(dmaEn := false));
    if v.n.count == 0 then Enabled(v, CPLT_IT)
    else
      var ptr := v.n.ptr + v.n.size;
      var size := ChunkSize(v.n.count);
      Enabled(v.(n := v.n.(ptr := ptr, size := size), s := StartBlock(v.s, ptr, size)), RELOAD_IT)
  }

  /** The transfer-complete interrupt of the stream (no other DMA flag is raised). */
  function DmaIrq(w: World): World {
    if !w.s.tcif || !w.s.d.stream.tcie then w
    else
      var v := w.(s := w.s.(tcif := false));
      if v.s.d.state == ABORT then
        var u := v.(s := v.s.(d := Aborted(v.s.d)));
        if u.s.d.cb.abort then DmaAbort(u) else u
      else
        DmaCplt(v.(s := v.s.(d := Finished(v.s.d))))
  }

  predicate Reading(bus: Bus) {
    bus.Settling? || ((bus.Active? || bus.Stopping?) && bus.read)
  }

  /** The bus still has a byte for the stream; after an abort only the one that it reads to no purpose. */
  predicate Requests(bus: Bus) {
    bus.Active? || bus.Settling? || (bus.Stopping? && bus.spare > 0)
  }

  /** The stream serves one request of the peripheral; after its last item the hardware disables it. */
  function DmaMove(w: World): World {
    var d := w.s.d;
    if !(w.r.dmaEn && d.stream.en && d.stream.ndtr > 0 && Requests(w.port.bus)) then w
    else
      var left := d.stream.ndtr - 1;
      var t := d.stream.(addr := d.stream.addr + 1, ndtr := left, en := left > 0);
      var s := w.s.(d := d.(stream := t), tcif := w.s.tcif || t.ndtr == 0);
      var at := d.stream.addr;
      if w.r.fl.txis && !Reading(w.port.bus) then
        w.(s := s, r := w.r.(fl := w.r.fl.(txis := false)),
           port := Touch(w.port, Txdr(if at < |w.mem| then w.mem[at] else 0)))
      else if w.r.fl.rxne && Reading(w.port.bus) then
        w.(s := s, r := w.r.(fl := w.r.fl.(rxne := false)),
           port := Touch(w.port, Rxdr(w.r.rxdr)),
           mem := if at < |w.mem| then w.mem[at := w.r.rxdr] else w.mem)
      else w
  }

  // ---- starting and aborting -----------------------------------------------------------

  function Direction(read: bool): StartStop {
    if read then GenerateStartRead else GenerateStartWrite
  }

  function Busy(read: bool): State {
    if read then BUSY_RX else BUSY_TX
  }

  /** The callback that reports success, by what was asked for. */
  function SuccessOf(read: bool, mode: Mode): Callback {
    if read && mode == MEM then MemRxCplt
    else if read then MasterRxCplt
    else if mode == MEM then MemTxCplt
    else MasterTxCplt
  }

  /** The handle of an accepted transfer. */
  function Prepared(w: World, read: bool, mode: Mode, isr: Isr, chunk: u16, count: u16): World {
    w.(h := Handle(Busy(read), mode, isr, NO_ERRORS, false), n := Counters(chunk, count, 0))
  }

  /** HAL_I2C_Master_Transmit_IT and HAL_I2C_Master_Receive_IT, once accepted. */
  function StartedIt(w: World, read: bool, addr: u16, size: u16, mode: Mode, request: StartStop): World {
    Enabled(Configure(Prepared(w, read, mode, ISR_IT, ChunkSize(size), size), ChunkOf(addr, size, request)),
            if read then RX_IT else TX_IT)
  }

  /** A new transfer is taken on when the handle is ready and unlocked and the bus is free. */
  predicate Accepts(w: World) {
    w.h.state == State.READY && !w.h.locked && w.port.bus == Idle
  }

  function MasterIt(w: World, read: bool, addr: u16, size: u16): World {
    if Accepts(w) then StartedIt(w, read, addr, size, MASTER, Direction(read)) else w
  }

  /** HAL_I2C_Master_Transmit_DMA, HAL_I2C_Master_Receive_DMA */
  function MasterDma(w: World, read: bool, addr: u16, size: u16): World {
    if !Accepts(w) then w
    else if size == 0 then
      // no data: interrupt mode, with the transmit interrupts even for a read
      Enabled(Configure(Prepared(w, read, MASTER, ISR_IT, 0, 0), ChunkOf(addr, 0, Direction(read))), TX_IT)
    else
      StartedDma(w, read, addr, size, MASTER, Direction(read))
  }

  function WithCallbacks(w: World): World {
    w.(s := w.s.(d := w.s.d.(cb := Callbacks(true, false, true, false))))
  }

  function Requesting(w: World): World {
    w.(r := w.r.(dmaEn := true))
  }

  function StartedDma(w: World, read: bool, addr: u16, size: u16, mode: Mode, request: StartStop): World {
    var chunk := ChunkSize(size);
    var v := WithCallbacks(Prepared(w, read, mode, ISR_DMA, chunk, size - chunk));
    var u := v.(s := StartBlock(v.s, 0, chunk));
    Requesting(Enabled(Configure(u, ChunkOf(addr, size, request)), ERROR_IT))
  }

  /** HAL_I2C_Master_Abort_IT */
  function MasterAbort(w: World): World {
    if w.h.mode != MASTER || w.h.locked then w
    else
      var v := w.(h := w.h.(state := ABORTING), r := w.r.(ie := ALL_OFF));
      Enabled(Configure(v, Cr2(w.r.sadd, 1, AutoEnd, GenerateStop)), CPLT_IT)
  }

  /** HAL_I2C_EV_IRQHandler */
  function EventIrq(w: World): World {
    match w.h.isr
    case NO_ISR => w
    case ISR_IT => IsrIt(w)
    case ISR_DMA => IsrDma(w)
  }

  // ---- the peripheral ------------------------------------------------------------------

  /** The last byte of the current chunk is through, or waits in RXDR to be read. */
  predicate LastByteOut(w: World) {
    && w.port.bus.Active?
    && (w.port.bus.left == 0 || (w.port.bus.read && w.port.bus.left == 1 && w.r.fl.rxne))
  }

  datatype Step =
    | RaiseTxis | RaiseRxne(b: byte) | RaiseTcr | RaiseTc | RaiseNack | RaiseStop
    | ServeEvent | ServeDmaIrq | MoveByDma | UserAbort

  /** The peripheral's own steps. */
  predicate Raises(s: Step) {
    s.RaiseTxis? || s.RaiseRxne? || s.RaiseTcr? || s.RaiseTc? || s.RaiseNack? || s.RaiseStop?
  }

  predicate CanTxis(w: World) {
    w.port.bus.Active? && !w.port.bus.read && w.port.bus.left > 0 && !w.r.fl.txis
  }

  predicate CanRxne(w: World) {
    && !w.r.fl.rxne
    && (|| (w.port.bus.Active? && w.port.bus.read && w.port.bus.left > 0)
        || (w.port.bus.Stopping? && w.port.bus.read && w.port.bus.spare > 0))
  }

  predicate CanTcr(w: World) {
    LastByteOut(w) && w.port.bus.mode == Reload && !w.r.fl.tcr
  }

  predicate CanTc(w: World) {
    LastByteOut(w) && w.port.bus.mode == SoftEnd && !w.r.fl.tc
  }

  /** A slave may refuse its address, or any byte that it is sent, until the chunk is closed. */
  predicate CanNack(w: World) {
    && w.port.bus.Active? && !w.r.fl.tcr && !w.r.fl.tc && !w.r.fl.stopf
    && (w.port.bus.read ==> !w.r.fl.rxne && w.port.wire != [] && w.port.wire[|w.port.wire| - 1].Start?)
  }

  predicate CanStop(w: World) {
    !w.r.fl.stopf && (w.port.bus.Stopping? || (LastByteOut(w) && w.port.bus.mode == AutoEnd))
  }

  function Next(w: World, s: Step): World {
    match s
    case RaiseTxis => if CanTxis(w) then w.(r := w.r.(fl := w.r.fl.(txis := true))) else w
    case RaiseRxne(b) => if CanRxne(w) then w.(r := w.r.(fl := w.r.fl.(rxne := true), rxdr := b)) else w
    case RaiseTcr => if CanTcr(w) then w.(r := w.r.(fl := w.r.fl.(tcr := true))) else w
    case RaiseTc => if CanTc(w) then w.(r := w.r.(fl := w.r.fl.(tc := true))) else w
    case RaiseNack =>
      if CanNack(w)
      then w.(r := w.r.(fl := w.r.fl.(af := true)), port := w.port.(bus := Nacked(w.port.bus))) else w
    case RaiseStop => if CanStop(w) then w.(r := w.r.(fl := w.r.fl.(stopf := true))) else w
    case ServeEvent => EventIrq(w)
    case ServeDmaIrq => DmaIrq(w)
    case MoveByDma => DmaMove(w)
    case UserAbort => MasterAbort(w)
  }

  function Play(w: World, steps: seq<Step>): World {
    if steps == [] then w else Next(Play(w, steps[..|steps| - 1]), steps[|steps| - 1])
  }

  // ---- runs that get somewhere ---------------------------------------------------------

  /** Neither the peripheral nor the handler has anything left to do. */
  ghost predicate AtRest(w: World) {
    forall s: Step :: s != UserAbort ==> Next(w, s) == w
  }

  /** Step `i` changes something. */
  predicate Effective(w: World, steps: seq<Step>, i: nat)
    requires i < |steps|
  {
    Play(w, steps[..i + 1]) != Play(w, steps[..i])
  }

  /** Every step changes something. */
  predicate AllEffective(w: World, steps: seq<Step>) {
    forall i: nat :: i < |steps| ==> Effective(w, steps, i)
  }

  function Bit(b: bool): nat {
    if b then 1 else 0
  }
}
