/**
 The interrupt and DMA driven part of the I2C driver on its handle, its registers and the DMA
 handle it drives. Every method is tied to the function of `I2cModel` that `I2cInterrupt` and
 `I2cDma` reason about.
 */
module I2cDriver {
  import opened Hal
  import opened Words
  import opened I2cBus
  import opened I2cModel
  import D = DmaModel
  import opened DmaStream

  class I2cHandle {
    // handle: State, Mode, XferISR, ErrorCode and Lock; XferSize, XferCount and pBuffPtr
    var h: Handle
    var n: Counters
    const pData: array<byte>
    const hdma: DmaHandle

    // peripheral
    var regs: Regs
    var port: Port

    // the stream's pending interrupt, its history, and the callbacks made
    var tcif: bool
    var blocks: seq<Block>
    var refused: bool
    var calls: seq<Callback>

    constructor (pData: array<byte>, hdma: DmaHandle)
      ensures this.pData == pData && this.hdma == hdma
      ensures Accepts(View()) && calls == [] && regs.fl == NO_FLAGS && regs.ie == ALL_OFF
    {
      h := Handle(State.READY, NONE, NO_ISR, NO_ERRORS, false);
      n := Counters(0, 0, 0);
      this.pData, this.hdma := pData, hdma;
      regs := Regs(NO_FLAGS, ALL_OFF, 0, 0, false, false);
      port := Port(Idle, [], []);
      tcif, blocks, refused, calls := false, [], false, [];
    }

    function View(): World
      reads this, pData, hdma
    {
      World(h, n, regs, port, pData[..], Dmac(hdma.View(), tcif, blocks, refused), calls)
    }

    // ---- small pieces ------------------------------------------------------------------

    method TransferConfig(a: Access)
      requires a.Cr2?
      modifies this`port, this`regs
      ensures View() == Configure(old(View()), a)
    {
      port := Touch(port, a);
      regs := regs.(fl := regs.fl.(tcr := false, tc := false), sadd := a.addr, autoEnd := a.mode == AutoEnd);
    }

    method FlushTxdr()
      modifies this`regs
      ensures View() == Flushed(old(View()))
    {
      regs := regs.(fl := regs.fl.(txis := false));
    }

    /** I2C_Enable_IRQ: the tests on the bits of the code amount to what the request enables. */
    method EnableIrq(q: Request)
      modifies this`regs
      ensures View() == Enabled(old(View()), q)
    {
      var request, ie := Code(q), regs.ie;
      if h.isr == ISR_DMA {
        if request & XFER_LISTEN_IT == XFER_LISTEN_IT {
          ie := ie.(stopi := true, nacki := true);
        }
        if request & XFER_ERROR_IT == XFER_ERROR_IT {
          ie := ie.(nacki := true);
        }
        if request & XFER_CPLT_IT == XFER_CPLT_IT {
          ie := ie.(stopi := true);
        }
        if request & XFER_RELOAD_IT == XFER_RELOAD_IT {
          ie := ie.(tci := true);
        }
      } else {
        if request & XFER_LISTEN_IT == XFER_LISTEN_IT {
          ie := ie.(stopi := true, nacki := true);
        }
        if request & XFER_TX_IT == XFER_TX_IT {
          ie := ie.(tci := true, stopi := true, nacki := true, txi := true);
        }
        if request & XFER_RX_IT == XFER_RX_IT {
          ie := ie.(tci := true, stopi := true, nacki := true, rxi := true);
        }
        if request & XFER_CPLT_IT == XFER_CPLT_IT {
          ie := ie.(stopi := true);
        }
      }
      regs := regs.(ie := ie);
    }

    method Notify(c: Callback)
      modifies this`calls
      ensures View() == Said(old(View()), c)
    {
      calls := calls + [c];
    }

    // ---- completion and errors ---------------------------------------------------------

    /** I2C_DMAAbort */
    method DmaAborted()
      modifies this`h, this`calls, hdma
      ensures View() == DmaAbort(old(View()))
    {
      hdma.callbacks := hdma.callbacks.(abort := false);
      if h.state == ABORTING {
        h := h.(state := State.READY);
        Notify(AbortCplt);
      } else {
        Notify(ErrorCallback);
      }
    }

    /** The first half of I2C_ITError. */
    method ResetAfterError(code: Errors)
      modifies this
      ensures View() == ErrorReset(old(View()), code)
    {
      h := h.(mode := NONE, isr := NO_ISR, locked := false,
              err := Errors(h.err.af || code.af, h.err.size || code.size, h.err.dmaFailed || code.dmaFailed));
      n := n.(count := 0);
      regs := regs.(ie := ALL_OFF);
      if h.state != ABORTING {
        h := h.(state := State.READY);
      }
    }

    /** The second half of I2C_ITError. */
    method ReportError()
      modifies this, hdma
      ensures View() == ErrorTail(old(View()))
    {
      if regs.dmaEn {
        regs := regs.(dmaEn := false);
        hdma.callbacks := hdma.callbacks.(abort := true);
        var status := hdma.AbortIt();
        if status == HAL_OK {
          tcif := true;
        } else {
          DmaAborted();
        }
      } else if h.state == ABORTING {
        h := h.(state := State.READY);
        Notify(AbortCplt);
      } else {
        Notify(ErrorCallback);
      }
    }

    /** I2C_ITError */
    method ITError(code: Errors)
      modifies this, hdma
      ensures View() == ItError(old(View()), code)
    {
      ResetAfterError(code);
      ReportError();
    }

    /** The first half of I2C_ITMasterCplt. */
    method ResetAfterStop(af: bool)
      modifies this
      ensures View() == CpltReset(old(View()), af)
    {
      port := Touch(port, ClearStop);
      regs := regs.(ie := ALL_OFF, fl := regs.fl.(stopf := false, txis := false));
      h := h.(isr := NO_ISR);
      if af {
        regs := regs.(fl := regs.fl.(af := false));
        h := h.(err := h.err.(af := true));
      }
    }

    /** I2C_ITMasterCplt */
    method ITMasterCplt(af: bool)
      modifies this, hdma
      ensures View() == MasterCplt(old(View()), af)
    {
      ResetAfterStop(af);
      if h.err != NO_ERRORS || h.state == ABORTING {
        ITError(h.err);
      } else if h.state == BUSY_TX {
        h := h.(state := State.READY);
        if h.mode == MEM {
          h := h.(mode := NONE, locked := false);
          Notify(MemTxCplt);
        } else {
          h := h.(mode := NONE, locked := false);
          Notify(MasterTxCplt);
        }
      } else if h.state == BUSY_RX {
        h := h.(state := State.READY);
        if h.mode == MEM {
          h := h.(mode := NONE, locked := false);
          Notify(MemRxCplt);
        } else {
          h := h.(mode := NONE, locked := false);
          Notify(MasterRxCplt);
        }
      }
    }

    /** I2C_ITMasterSequentialCplt */
    method ITMasterSequentialCplt()
      modifies this
      ensures View() == SequentialCplt(old(View()))
    {
      h := h.(mode := NONE, isr := NO_ISR, locked := false);
      if h.state == BUSY_TX {
        h := h.(state := State.READY);
        regs := regs.(ie := regs.ie.(tci := false, stopi := false, nacki := false, txi := false));
        Notify(MasterTxCplt);
      } else {
        h := h.(state := State.READY);
        regs := regs.(ie := regs.ie.(tci := false, stopi := false, nacki := false, rxi := false));
        Notify(MasterRxCplt);
      }
    }

    // ---- interrupt handlers ------------------------------------------------------------

    method CountByte()
      modifies this`n
      ensures View() == old(View()).(n := Counted(old(View()).n))
    {
      n := n.(ptr := n.ptr + 1);
      n := n.(size := Wrap16(n.size - 1), count := Wrap16(n.count - 1));
    }

    method ReadRxdr()
      modifies this, pData
      ensures View() == TakeRx(old(View()))
    {
      port := Touch(port, Rxdr(regs.rxdr));
      if n.ptr < pData.Length {
        pData[n.ptr] := regs.rxdr;
      }
      regs := regs.(fl := regs.fl.(rxne := false));
      CountByte();
    }

    method WriteTxdr()
      modifies this
      ensures View() == PutTx(old(View()))
    {
      port := Touch(port, Txdr(if n.ptr < pData.Length then pData[n.ptr] else 0));
      regs := regs.(fl := regs.fl.(txis := false));
      CountByte();
    }

    method ServeTcr()
      modifies this, hdma
      ensures View() == ItReload(old(View()))
    {
      if n.size == 0 && n.count != 0 {
        n := n.(size := ChunkSize(n.count));
        TransferConfig(ChunkOf(regs.sadd, n.count, NoStartStop));
      } else if !regs.autoEnd {
        ITMasterSequentialCplt();
      } else {
        ITError(NO_ERRORS.(size := true));
      }
    }

    method ServeTc()
      modifies this, hdma
      ensures View() == ItComplete(old(View()))
    {
      if n.count == 0 {
        if !regs.autoEnd {
          port := Touch(port, Cr2(regs.sadd, 0, SoftEnd, GenerateStop));
        }
      } else {
        ITError(NO_ERRORS.(size := true));
      }
    }

    method ServeNack()
      modifies this
      ensures View() == NackSeen(old(View()))
    {
      regs := regs.(fl := regs.fl.(af := false));
      h := h.(err := h.err.(af := true));
      FlushTxdr();
    }

    /** The if-chain of I2C_Master_ISR_IT. */
    method ServeData(fl: Flags, ie: Enables)
      modifies this, pData, hdma
      ensures View() == ItData(old(View()), fl, ie)
    {
      if fl.af && ie.nacki {
        ServeNack();
      } else if fl.rxne && ie.rxi {
        ReadRxdr();
      } else if fl.txis && ie.txi {
        WriteTxdr();
      } else if fl.tcr && ie.tci {
        ServeTcr();
      } else if fl.tc && ie.tci {
        ServeTc();
      }
    }

    /** I2C_Master_ISR_IT */
    method MasterIsrIt(fl: Flags, ie: Enables)
      requires fl == regs.fl && ie == regs.ie
      modifies this, pData, hdma
      ensures View() == IsrIt(old(View()))
    {
      if h.locked { return; }
      h := h.(locked := true);
      ServeData(fl, ie);
      if fl.stopf && ie.stopi {
        ITMasterCplt(fl.af);
      }
      h := h.(locked := false);
    }

    /** The TCR branch of I2C_Master_ISR_DMA. */
    method ServeTcrDma()
      modifies this, hdma
      ensures View() == DmaReload(old(View()))
    {
      regs := regs.(ie := regs.ie.(tci := false));
      if n.count != 0 {
        n := n.(size := ChunkSize(n.count));
        TransferConfig(ChunkOf(regs.sadd, n.count, NoStartStop));
        n := n.(count := n.count - n.size);
        regs := regs.(dmaEn := true);
      } else {
        ITError(NO_ERRORS.(size := true));
      }
    }

    /** I2C_Master_ISR_DMA */
    method MasterIsrDma(fl: Flags, ie: Enables)
      requires fl == regs.fl && ie == regs.ie
      modifies this, hdma
      ensures View() == IsrDma(old(View()))
    {
      if h.locked { return; }
      h := h.(locked := true);
      if fl.af && ie.nacki {
        ServeNack();
        EnableIrq(CPLT_IT);
      } else if fl.tcr && ie.tci {
        ServeTcrDma();
      } else if fl.stopf && ie.stopi {
        ITMasterCplt(fl.af);
      }
      h := h.(locked := false);
    }

    /** HAL_I2C_EV_IRQHandler */
    method EventIRQHandler()
      modifies this, pData, hdma
      ensures View() == EventIrq(old(View()))
    {
      match h.isr
      case NO_ISR =>
      case ISR_IT => MasterIsrIt(regs.fl, regs.ie);
      case ISR_DMA => MasterIsrDma(regs.fl, regs.ie);
    }

    // ---- DMA ---------------------------------------------------------------------------

    /** HAL_DMA_Start_IT, with the block noted when it is accepted. */
    method StartStream(start: nat, len: nat)
      modifies this`blocks, this`refused, hdma
      ensures View() == old(View()).(s := StartBlock(old(View()).s, start, len))
    {
      var status := hdma.StartIt(start, len);
      if status == HAL_OK {
        blocks := blocks + [Block(start, len)];
      } else {
        refused := true;
      }
    }

    /** I2C_DMAMasterTransmitCplt and I2C_DMAMasterReceiveCplt */
    method DmaMasterCplt()
      modifies this, hdma
      ensures View() == DmaCplt(old(View()))
    {
      regs := regs.(dmaEn := false);
      if n.count == 0 {
        EnableIrq(CPLT_IT);
      } else {
        n := n.(ptr := n.ptr + n.size, size := ChunkSize(n.count));
        StartStream(n.ptr, n.size);
        EnableIrq(RELOAD_IT);
      }
    }

    /** The transfer-complete interrupt of the stream, with the driver's own callbacks installed. */
    method DmaInterrupt()
      modifies this, hdma
      ensures View() == DmaIrq(old(View()))
    {
      if !tcif || !hdma.stream.tcie { return; }
      tcif := false;
      if hdma.state == D.ABORT {
        hdma.stream := D.Silenced(hdma.stream, hdma.callbacks.half);
        hdma.locked := false;
        hdma.state := D.READY;
        if hdma.callbacks.abort {
          DmaAborted();
        }
      } else {
        if !hdma.stream.circ {
          hdma.stream := hdma.stream.(tcie := false);
          hdma.locked := false;
          hdma.state := D.READY;
        }
        DmaMasterCplt();
      }
    }

    // ---- starting and aborting ---------------------------------------------------------

    method Prepare(read: bool, mode: Mode, isr: Isr, chunk: u16, count: u16)
      modifies this
      ensures View() == Prepared(old(View()), read, mode, isr, chunk, count)
    {
      h := Handle(Busy(read), mode, isr, NO_ERRORS, false);
      n := Counters(chunk, count, 0);
    }

    /** HAL_I2C_Master_Transmit_IT and HAL_I2C_Master_Receive_IT */
    method MasterStartIt(read: bool, addr: u16, size: u16) returns (accepted: bool)
      modifies this
      ensures accepted == Accepts(old(View()))
      ensures View() == MasterIt(old(View()), read, addr, size)
    {
      accepted := h.state == State.READY && !h.locked && port.bus == Idle;
      if accepted {
        Prepare(read, MASTER, ISR_IT, ChunkSize(size), size);
        TransferConfig(ChunkOf(addr, size, Direction(read)));
        EnableIrq(if read then RX_IT else TX_IT);
      }
    }

    method StartDma(read: bool, addr: u16, size: u16)
      requires size > 0
      modifies this, hdma
      ensures View() == StartedDma(old(View()), read, addr, size, MASTER, Direction(read))
    {
      var chunk := ChunkSize(size);
      Prepare(read, MASTER, ISR_DMA, chunk, size - chunk);
      SetCallbacks();
      StartStream(0, chunk);
      TransferConfig(ChunkOf(addr, size, Direction(read)));
      EnableIrq(ERROR_IT);
      RequestDma();
    }

    method SetCallbacks()
      modifies hdma
      ensures View() == WithCallbacks(old(View()))
    {
      hdma.callbacks := D.Callbacks(true, false, true, false);
    }

    method RequestDma()
      modifies this`regs
      ensures View() == Requesting(old(View()))
    {
      regs := regs.(dmaEn := true);
    }

    /** HAL_I2C_Master_Transmit_DMA and HAL_I2C_Master_Receive_DMA */
    method MasterStartDma(read: bool, addr: u16, size: u16) returns (accepted: bool)
      modifies this, hdma
      ensures accepted == Accepts(old(View()))
      ensures View() == MasterDma(old(View()), read, addr, size)
    {
      accepted := h.state == State.READY && !h.locked && port.bus == Idle;
      if !accepted { return; }
      if size > 0 {
        StartDma(read, addr, size);
      } else {
        Prepare(read, MASTER, ISR_IT, 0, 0);
        TransferConfig(ChunkOf(addr, 0, Direction(read)));
        EnableIrq(TX_IT);
      }
    }

    /** HAL_I2C_Master_Abort_IT */
    method MasterAbortIt() returns (ok: bool)
      modifies this
      ensures View() == MasterAbort(old(View()))
      ensures ok == (old(h.mode) == MASTER && !old(h.locked))
    {
      ok := h.mode == MASTER && !h.locked;
      if ok {
        regs := regs.(ie := ALL_OFF);
        h := h.(state := ABORTING);
        TransferConfig(Cr2(regs.sadd, 1, AutoEnd, GenerateStop));
        EnableIrq(CPLT_IT);
      }
    }
  }
}
