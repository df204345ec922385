/**
 Blocking master and memory transfers. The status flags are adversarial; only the tick is
 known to keep advancing. Every call that starts on a ready, unlocked handle comes back with
 the handle ready and unlocked, and a call that reports HAL_OK has put exactly the requested
 transfer on the bus.
 */
module I2cPolling {
  import opened Hal
  import opened Words
  import opened I2cBus
  import opened I2cRecord
  import opened Board

  datatype State = READY | BUSY_TX | BUSY_RX
  datatype Mode = NONE | MASTER | MEM
  datatype ErrorCode = ErrorCode(af: bool, timeout: bool)

  const ERROR_NONE := ErrorCode(false, false)
  const ERROR_AF := ErrorCode(true, false)

  function BigEndian(bs: seq<byte>): int {
    if bs == [] then 0 else BigEndian(bs[..|bs| - 1]) * 256 + bs[|bs| - 1]
  }

  /** The memory address as it goes over the wire, most significant byte first. */
  function AddressBytes(mem: u16, addSize: byte): (r: seq<byte>)
    ensures |r| == if addSize == 1 then 1 else 2
  {
    if addSize == 1 then [mem % 256] else [mem / 256, mem % 256]
  }

  /** A big-endian reader recovers the address: all of it, or its low byte for 8-bit memories. */
  lemma {:induction false} AddressReadsBack(mem: u16, addSize: byte)
    ensures BigEndian(AddressBytes(mem, addSize)) == if addSize == 1 then mem % 256 else mem
  {
    var r := AddressBytes(mem, addSize);
    assert r[..|r| - 1] == if addSize == 1 then [] else [mem / 256];
    assert [r[0]][..0] == [];
    assert BigEndian([r[0]]) == r[0];
  }

  const READINGS_PER_TURN := 3

  /** From reading `k` on, flag `f` reads `v` for as many readings as a wait loop makes per turn. */
  predicate Shows(flag: (nat, Flag) -> bool, f: Flag, v: bool, k: nat) {
    forall j: nat :: k <= j < k + READINGS_PER_TURN ==> flag(j, f) == v
  }

  /** Whatever a call waits for comes at last; only a call without a timeout has to rely on it. */
  ghost predicate Answers(flag: (nat, Flag) -> bool) {
    forall f: Flag, v: bool, n: nat :: Comes(flag, f, v, n)
  }

  ghost predicate Comes(flag: (nat, Flag) -> bool, f: Flag, v: bool, n: nat) {
    exists k: nat :: n <= k && Shows(flag, f, v, k)
  }

  class Master {
    // hardware
    const flag: (nat, Flag) -> bool
    const tick: Clock
    const rxdr: nat -> byte
    var flagReads: nat
    var tickReads: nat
    var rxReads: nat
    var port: Port

    // handle
    var state: State
    var mode: Mode
    var errorCode: ErrorCode
    var locked: bool
    var pBuffPtr: nat
    var xferSize: u16
    var xferCount: u16

    /** Everything seen and done so far. */
    ghost var log: seq<Seen>

    constructor (flag: (nat, Flag) -> bool, tick: Clock, rxdr: nat -> byte)
      ensures Free() && port == Port(Idle, [], []) && log == []
      ensures this.flag == flag && this.tick == tick && this.rxdr == rxdr
    {
      this.flag, this.tick, this.rxdr := flag, tick, rxdr;
      flagReads, tickReads, rxReads := 0, 0, 0;
      port := Port(Idle, [], []);
      state, mode, errorCode, locked := READY, NONE, ERROR_NONE, false;
      pBuffPtr, xferSize, xferCount := 0, 0, 0;
      log := [];
    }

    predicate Free()
      reads this
    {
      state == READY && !locked
    }

    method GetFlag(f: Flag) returns (b: bool)
      modifies this`flagReads, this`log
      ensures b == flag(old(flagReads), f) && flagReads == old(flagReads) + 1
      ensures log == old(log) + [Flagged(f, b)]
    {
      b := flag(flagReads, f);
      log := log + [Flagged(f, b)];
      flagReads := flagReads + 1;
    }

    method GetTick() returns (t: u32)
      modifies this`tickReads, this`log
      ensures t == tick(old(tickReads)) && tickReads == old(tickReads) + 1
      ensures log == old(log) + [Ticked(t)]
    {
      t := tick(tickReads);
      log := log + [Ticked(t)];
      tickReads := tickReads + 1;
    }

    /** The check `Timeout == 0 || HAL_GetTick() - Tickstart > Timeout`, which HAL_MAX_DELAY never meets. */
    method Expired(timeout: u32, start: u32) returns (expired: bool)
      modifies this`tickReads, this`log
      ensures !expired ==> tickReads == old(tickReads) + 1 && Since(tick(old(tickReads)), start) <= timeout
      ensures expired ==> timeout < HAL_MAX_DELAY
      ensures if timeout == 0 then expired && log == old(log)
              else var e := Ticked(tick(old(tickReads))); log == old(log) + [e] && expired == Late(e, start, timeout)
    {
      if timeout == 0 {
        return true;
      }
      var t := GetTick();
      expired := Since(t, start) > timeout;
    }

    method Reach(a: Access)
      modifies this`port, this`log
      ensures port == Touch(old(port), a) && log == old(log) + [Did(a)]
    {
      port := Touch(port, a);
      log := log + [Did(a)];
    }

    /** The programming of the next chunk, which every transfer function repeats. */
    method NextChunk(addr: u16, request: StartStop)
      modifies this`xferSize, this`port, this`log
      ensures xferSize == ChunkSize(xferCount)
      ensures port == Touch(old(port), ChunkOf(addr, xferCount, request))
      ensures log == old(log) + [Did(ChunkOf(addr, xferCount, request))]
    {
      if xferCount > MAX_NBYTE_SIZE {
        xferSize := MAX_NBYTE_SIZE;
        Reach(Cr2(addr, MAX_NBYTE_SIZE, Reload, request));
      } else {
        xferSize := xferCount;
        Reach(Cr2(addr, xferSize, AutoEnd, request));
      }
    }

    // ---- waiting -----------------------------------------------------------------------

    /** HAL_MAX_DELAY stands for no timeout: such a call comes back if the bus answers. */
    ghost predicate Patient(timeout: u32) {
      timeout < HAL_MAX_DELAY || Answers(flag)
    }

    /** What a wait uses up: readings of the tick, or readings of flags if there is no timeout. */
    function Used(timeout: u32): nat
      reads this`tickReads, this`flagReads
    {
      if timeout < HAL_MAX_DELAY then tickReads else flagReads
    }

    /** Where a wait for flag `f` to read `v` ends at the latest. */
    ghost function Bound(f: Flag, v: bool, timeout: u32, start: u32): (k: nat)
      requires Patient(timeout)
      reads this`tickReads, this`flagReads
      ensures Used(timeout) <= k && EndsBy(f, v, timeout, start, k)
    {
      if timeout < HAL_MAX_DELAY then Deadline(tick, tickReads, start, timeout)
      else
        assert Comes(flag, f, v, flagReads);
        var k: nat :| flagReads <= k && Shows(flag, f, v, k);
        k
    }

    ghost predicate EndsBy(f: Flag, v: bool, timeout: u32, start: u32, k: nat) {
      if timeout < HAL_MAX_DELAY then Since(tick(k), start) > timeout else Shows(flag, f, v, k)
    }

    /** I2C_WaitOnFlagUntilTimeout; `turns` is the record up to its last turn. */
    method WaitOnFlag(f: Flag, status: bool, timeout: u32, start: u32) returns (r: Status, ghost turns: seq<Seen>)
      requires Patient(timeout)
      modifies this`flagReads, this`tickReads, this`state, this`mode, this`locked, this`log
      ensures r == HAL_OK ==> state == old(state) && mode == old(mode) && locked == old(locked)
      ensures r == HAL_OK ==> flagReads > 0 && flag(flagReads - 1, f) != status
      ensures r != HAL_OK ==> r == HAL_TIMEOUT && Free() && mode == NONE
      ensures Turns(old(log), turns, f, status, false, start, timeout)
      ensures Waited(turns, log, f, status, false, start, timeout, r == HAL_OK)
    {
      ghost var bound := Bound(f, !status, timeout, start);
      turns := log;
      var b := GetFlag(f);
      while b == status
        invariant state == old(state) && mode == old(mode) && locked == old(locked)
        invariant flagReads > 0 && b == flag(flagReads - 1, f)
        invariant b != status || Used(timeout) <= bound
        invariant |turns| >= |old(log)| && Turns(old(log), turns, f, status, false, start, timeout)
        invariant log == turns + [Flagged(f, b)]
        decreases bound - Used(timeout)
      {
        var expired := Expired(timeout, start);
        if expired {
          state, mode, locked := READY, NONE, false;
          return HAL_TIMEOUT, turns;
        }
        TurnsMore(old(log), turns, f, status, false, start, timeout, Last(log).t);
        turns := log;
        b := GetFlag(f);
      }
      r := HAL_OK;
    }

    /** I2C_IsAcknowledgeFailed */
    method IsAcknowledgeFailed(timeout: u32, start: u32) returns (r: Status, ghost turns: seq<Seen>)
      requires Patient(timeout)
      modifies this`flagReads, this`tickReads, this`state, this`mode, this`locked,
               this`errorCode, this`port, this`log
      ensures r == HAL_OK ==> state == old(state) && mode == old(mode) && locked == old(locked)
                              && errorCode == old(errorCode) && port == old(port)
      ensures r == HAL_OK ==> tickReads == old(tickReads) && flagReads == old(flagReads) + 1
      ensures r != HAL_OK ==> Free() && mode == NONE
      ensures r == HAL_ERROR ==> errorCode == ErrorCode(true, false) && port.wire == old(port).wire + [Stop]
                                 && (old(port).bus.Active? ==> port.bus == Idle)
      ensures r == HAL_TIMEOUT ==> errorCode == old(errorCode) && port == old(port)
      ensures r in {HAL_OK, HAL_ERROR, HAL_TIMEOUT} && port.programmed == old(port).programmed
      ensures Checked(old(log), turns, log, start, timeout, r)
    {
      var af := GetFlag(AF);
      turns := log;
      if af {
        r, turns := WaitOnFlag(STOPF, false, timeout, start);
        if r != HAL_OK { return; }
        port := port.(bus := Nacked(port.bus));
        Reach(ClearStop);
        errorCode := ERROR_AF;
        state, mode, locked := READY, NONE, false;
        return HAL_ERROR, turns;
      }
      return HAL_OK, turns;
    }

    /** The end of a reception that the slave has stopped. */
    method StopEarly()
      modifies this`state, this`mode, this`locked, this`errorCode, this`port, this`log
      ensures Free() && mode == NONE && errorCode == ERROR_NONE && log == old(log) + [Did(ClearStop)]
      ensures port.wire == old(port).wire + [Stop] && port.programmed == old(port).programmed
    {
      Reach(ClearStop);
      errorCode := ERROR_NONE;
      state, mode, locked := READY, NONE, false;
    }

    /** The transfer ends by an error: after the check of a NACK with outcome `ack`, or by an early STOP. */
    ghost predicate Ends(before: seq<Seen>, f: Flag, stops: seq<Seen>, start: u32, timeout: u32, ack: Status)
      reads this`log, this`errorCode
    {
      if ack == HAL_OK then f == RXNE && errorCode == ERROR_NONE && log == before + EARLY_STOP[1..]
      else
        && ack in {HAL_ERROR, HAL_TIMEOUT} && (ack == HAL_ERROR ==> errorCode == ERROR_AF)
        && Checked(before, stops, log, start, timeout, ack)
    }

    /**
     What a wait for `f` does between two readings of it: look for a NACK, in a reception also for a
     STOP, and then at the time. The caller deals with the timeout.
     */
    method Watch(f: Flag, timeout: u32, start: u32) returns (r: Status, ghost stops: seq<Seen>, ghost ack: Status)
      requires Patient(timeout)
      modifies this`flagReads, this`tickReads, this`state, this`mode, this`locked,
               this`errorCode, this`port, this`log
      ensures r in {HAL_OK, HAL_ERROR, HAL_TIMEOUT}
      ensures r != HAL_ERROR ==> state == old(state) && mode == old(mode) && locked == old(locked)
                                 && errorCode == old(errorCode) && port == old(port)
      ensures r == HAL_OK ==> flagReads == old(flagReads) + (if f == RXNE then 2 else 1)
                              && tickReads == old(tickReads) + 1 && Since(tick(old(tickReads)), start) <= timeout
                              && log == old(log) + Besides(f) + [Ticked(tick(old(tickReads)))]
      ensures r == HAL_TIMEOUT ==> timeout < HAL_MAX_DELAY && TimeIsOver(old(log) + Besides(f), log, start, timeout)
      ensures r == HAL_ERROR ==> Free() && mode == NONE && port.programmed == old(port).programmed
                                 && (port.wire == old(port).wire || port.wire == old(port).wire + [Stop])
                                 && Ends(old(log), f, stops, start, timeout, ack)
      ensures r == HAL_ERROR && f != RXNE ==> (ack == HAL_ERROR <==> port.wire != old(port).wire)
      ensures r == HAL_ERROR && ack == HAL_TIMEOUT ==> errorCode == old(errorCode)
    {
      r, stops := IsAcknowledgeFailed(timeout, start);
      ack := r;
      if r != HAL_OK { return HAL_ERROR, stops, ack; }
      if f == RXNE {
        var stop := GetFlag(STOPF);
        if stop {
          StopEarly();
          return HAL_ERROR, stops, ack;
        }
      }
      assert log == old(log) + Besides(f);
      var expired := Expired(timeout, start);
      r := if expired then HAL_TIMEOUT else HAL_OK;
    }

    /** The loop of the waits that look for a NACK. */
    method WatchFor(f: Flag, timeout: u32, start: u32)
      returns (r: Status, ghost turns: seq<Seen>, ghost stops: seq<Seen>, ghost ack: Status)
      requires Patient(timeout)
      modifies this`flagReads, this`tickReads, this`state, this`mode, this`locked,
               this`errorCode, this`port, this`log
      ensures r in {HAL_OK, HAL_ERROR, HAL_TIMEOUT}
      ensures r != HAL_ERROR ==> state == old(state) && mode == old(mode) && locked == old(locked)
                                 && errorCode == old(errorCode) && port == old(port)
      ensures r == HAL_OK ==> flagReads > 0 && flag(flagReads - 1, f)
      ensures r == HAL_ERROR ==> Free() && mode == NONE && port.programmed == old(port).programmed
                                 && (port.wire == old(port).wire || port.wire == old(port).wire + [Stop])
                                 && (f != RXNE ==> (ack == HAL_ERROR <==> port.wire != old(port).wire))
                                 && (ack == HAL_TIMEOUT ==> errorCode == old(errorCode))
      ensures Turns(old(log), turns, f, false, true, start, timeout)
      ensures if r == HAL_ERROR then Ends(turns + [Flagged(f, false)], f, stops, start, timeout, ack)
              else Waited(turns, log, f, false, true, start, timeout, r == HAL_OK)
    {
      ghost var bound := Bound(f, true, timeout, start);
      turns, stops, ack := log, log, HAL_OK;
      var b := GetFlag(f);
      while !b
        invariant state == old(state) && mode == old(mode) && locked == old(locked)
        invariant errorCode == old(errorCode) && port == old(port)
        invariant b || Used(timeout) <= bound
        invariant WatchSoFar(old(log), turns, f, start, timeout, b)
        decreases bound - Used(timeout)
      {
        ghost var more;
        r, b, more, stops, ack := WatchAgain(f, timeout, start, old(log), turns, bound);
        if r != HAL_OK { return; }
        turns := more;
      }
      r := HAL_OK;
    }

    /** The record of a wait for `f` up to a reading of it. */
    ghost predicate WatchSoFar(before: seq<Seen>, turns: seq<Seen>, f: Flag, start: u32, timeout: u32, b: bool)
      reads this`log, this`flagReads
    {
      && flagReads > 0 && b == flag(flagReads - 1, f) && log == turns + [Flagged(f, b)]
      && |turns| >= |before| && Turns(before, turns, f, false, true, start, timeout)
    }

    /** A turn of the loop, up to the next reading of the flag. */
    method WatchAgain(f: Flag, timeout: u32, start: u32, ghost before: seq<Seen>, ghost turns: seq<Seen>,
                      ghost bound: nat)
      returns (r: Status, b: bool, ghost more: seq<Seen>, ghost stops: seq<Seen>, ghost ack: Status)
      requires Patient(timeout) && WatchSoFar(before, turns, f, start, timeout, false)
      requires EndsBy(f, true, timeout, start, bound) && Used(timeout) <= bound
      modifies this`flagReads, this`tickReads, this`state, this`mode, this`locked,
               this`errorCode, this`port, this`log
      ensures r in {HAL_OK, HAL_ERROR, HAL_TIMEOUT}
      ensures r != HAL_ERROR ==> state == old(state) && mode == old(mode) && locked == old(locked)
                                 && errorCode == old(errorCode) && port == old(port)
      ensures r == HAL_OK ==> WatchSoFar(before, more, f, start, timeout, b)
                              && old(Used(timeout)) < Used(timeout) && (b || Used(timeout) <= bound)
      ensures r == HAL_TIMEOUT ==> TimeIsOver(turns + Turn(f, false, true), log, start, timeout)
      ensures r == HAL_ERROR ==> Free() && mode == NONE && port.programmed == old(port).programmed
                                 && (port.wire == old(port).wire || port.wire == old(port).wire + [Stop])
                                 && (f != RXNE ==> (ack == HAL_ERROR <==> port.wire != old(port).wire))
                                 && (ack == HAL_TIMEOUT ==> errorCode == old(errorCode))
                                 && Ends(turns + [Flagged(f, false)], f, stops, start, timeout, ack)
    {
      b := false;
      r, stops, ack := Watch(f, timeout, start);
      more := turns;
      TurnOf(turns, f);
      if r != HAL_OK { return; }
      TurnsMore(before, turns, f, false, true, start, timeout, Last(log).t);
      more := log;
      b := GetFlag(f);
    }

    /** I2C_WaitOnTXISFlagUntilTimeout and I2C_WaitOnSTOPFlagUntilTimeout */
    method WaitOnTxisOrStop(f: Flag, timeout: u32, start: u32)
      returns (r: Status, ghost turns: seq<Seen>, ghost stops: seq<Seen>, ghost ack: Status)
      requires Patient(timeout) && f in {TXIS, STOPF}
      modifies this`flagReads, this`tickReads, this`state, this`mode, this`locked,
               this`errorCode, this`port, this`log
      ensures r == HAL_OK ==> state == old(state) && mode == old(mode) && locked == old(locked)
                              && errorCode == old(errorCode) && port == old(port)
      ensures r == HAL_OK ==> flagReads > 0 && flag(flagReads - 1, f)
      ensures r != HAL_OK ==> Free() && mode == NONE && r != HAL_BUSY
      ensures port.wire == old(port).wire || port.wire == old(port).wire + [Stop]
      ensures port.programmed == old(port).programmed
      ensures old(errorCode) == ERROR_NONE && r != HAL_OK ==> (errorCode == ERROR_AF <==> port.wire != old(port).wire)
      ensures r == HAL_TIMEOUT ==> errorCode == ErrorCode(old(errorCode).af, true)
      ensures old(errorCode) == ERROR_NONE && errorCode == ERROR_AF ==> r == HAL_ERROR == ack
      ensures Turns(old(log), turns, f, false, true, start, timeout)
      ensures if r == HAL_ERROR then Ends(turns + [Flagged(f, false)], f, stops, start, timeout, ack)
              else Waited(turns, log, f, false, true, start, timeout, r == HAL_OK)
    {
      r, turns, stops, ack := WatchFor(f, timeout, start);
      if r == HAL_TIMEOUT {
        errorCode := errorCode.(timeout := true);
        state, mode, locked := READY, NONE, false;
      }
    }

    /** I2C_WaitOnRXNEFlagUntilTimeout: a timeout keeps `mode`. */
    method WaitOnRxne(timeout: u32, start: u32)
      returns (r: Status, ghost turns: seq<Seen>, ghost stops: seq<Seen>, ghost ack: Status)
      requires Patient(timeout)
      modifies this`flagReads, this`tickReads, this`state, this`mode, this`locked,
               this`errorCode, this`port, this`log
      ensures r == HAL_OK ==> state == old(state) && mode == old(mode) && locked == old(locked)
                              && errorCode == old(errorCode) && port == old(port)
      ensures r == HAL_OK ==> flagReads > 0 && flag(flagReads - 1, RXNE)
      ensures r != HAL_OK ==> Free() && r != HAL_BUSY && mode == if r == HAL_TIMEOUT then old(mode) else NONE
      ensures port.wire == old(port).wire || port.wire == old(port).wire + [Stop]
      ensures port.programmed == old(port).programmed
      ensures r == HAL_TIMEOUT ==> errorCode == ErrorCode(old(errorCode).af, true)
      ensures old(errorCode) == ERROR_NONE && errorCode == ERROR_AF ==> r == HAL_ERROR == ack
      ensures Turns(old(log), turns, RXNE, false, true, start, timeout)
      ensures if r == HAL_ERROR then Ends(turns + [Flagged(RXNE, false)], RXNE, stops, start, timeout, ack)
              else Waited(turns, log, RXNE, false, true, start, timeout, r == HAL_OK)
    {
      r, turns, stops, ack := WatchFor(RXNE, timeout, start);
      if r == HAL_TIMEOUT {
        errorCode := errorCode.(timeout := true);
        state, locked := READY, false;
      }
    }

    // ---- transfers ---------------------------------------------------------------------

    /** The counters of a transfer of `size` bytes in progress. */
    predicate Counting(size: u16)
      reads this
    {
      xferSize <= xferCount <= size && (xferCount > 0 ==> xferSize > 0) && pBuffPtr == size - xferCount
    }

    /** One byte further in the buffer, one less in both counters. */
    method CountByte(ghost size: u16)
      requires Counting(size) && xferCount > 0
      modifies this`pBuffPtr, this`xferCount, this`xferSize
      ensures pBuffPtr == old(pBuffPtr) + 1 && xferCount == old(xferCount) - 1 && xferSize == old(xferSize) - 1
    {
      pBuffPtr := pBuffPtr + 1;
      xferCount := xferCount - 1;
      xferSize := xferSize - 1;
    }

    /** How the transfer functions wait for TXIS and STOPF, and what they make of a failure. */
    method Await(f: Flag, timeout: u32, start: u32, ghost early: bool) returns (r: Status)
      requires Patient(timeout) && f in {TXIS, STOPF} && errorCode == ERROR_NONE
      modifies this`flagReads, this`tickReads, this`state, this`mode, this`locked,
               this`errorCode, this`port, this`log
      ensures r in {HAL_OK, HAL_ERROR, HAL_TIMEOUT} && Went(old(log), log, start, timeout, early, r)
      ensures r == HAL_OK ==> log != [] && Last(log) == Flagged(f, true) && errorCode == ERROR_NONE
                              && state == old(state) && mode == old(mode) && locked == old(locked) && port == old(port)
      ensures r != HAL_OK ==> Free()
      ensures r == HAL_ERROR ==> errorCode == ERROR_AF
    {
      ghost var turns, stops, ack;
      r, turns, stops, ack := WaitOnTxisOrStop(f, timeout, start);
      if r == HAL_ERROR {
        NackWent(old(log), turns, stops, log, f, start, timeout, early, ack);
      } else {
        WaitWent(old(log), turns, log, f, false, true, start, timeout, early, r == HAL_OK);
      }
      if r != HAL_OK {
        r := if errorCode == ERROR_AF then HAL_ERROR else HAL_TIMEOUT;
      }
    }

    /** A wait for one flag in the middle of a transfer. */
    method AwaitFlag(f: Flag, timeout: u32, start: u32, ghost early: bool) returns (r: Status)
      requires Patient(timeout) && f in {TCR, TC}
      modifies this`flagReads, this`tickReads, this`state, this`mode, this`locked, this`log
      ensures r in {HAL_OK, HAL_TIMEOUT} && Went(old(log), log, start, timeout, early, r)
      ensures r == HAL_OK ==> log != [] && Last(log) == Flagged(f, true)
                              && state == old(state) && mode == old(mode) && locked == old(locked)
      ensures r != HAL_OK ==> Free()
    {
      ghost var turns;
      r, turns := WaitOnFlag(f, false, timeout, start);
      WaitWent(old(log), turns, log, f, false, false, start, timeout, early, r == HAL_OK);
    }

    /** One turn of the transmit loop. */
    method SendByte(addr: u16, pData: array<byte>, timeout: u32, start: u32, ghost job: Job) returns (r: Status)
      requires Patient(timeout) && job.total <= pData.Length && !job.read && errorCode == ERROR_NONE
      requires job.total < TWO_TO_THE_16 && Counting(job.total) && xferCount > 0 && addr == job.addr
      modifies this
      ensures r in {HAL_OK, HAL_ERROR, HAL_TIMEOUT} && (r != HAL_OK ==> Free())
      ensures Went(old(log), log, start, timeout, false, r)
      ensures r == HAL_ERROR ==> errorCode == ERROR_AF
      ensures r == HAL_OK ==> Counting(job.total) && xferCount == old(xferCount) - 1 && errorCode == ERROR_NONE
      ensures r == HAL_OK && Midway(old(port), job, pData[..old(pBuffPtr)], old(xferSize)) ==>
                Midway(port, job, pData[..pBuffPtr], xferSize)
    {
      r := Await(TXIS, timeout, start, false);
      if r != HAL_OK { return; }
      ghost var waited := log;
      PutByte(pData, job);
      WentTo(waited, Txdr(pData[pBuffPtr - 1]), start, timeout, false);
      WentOn(old(log), waited, log, start, timeout, false, HAL_OK);
      ghost var sent := log;
      r := ReloadIfDue(addr, timeout, start, job, pData[..pBuffPtr], false);
      WentOn(old(log), sent, log, start, timeout, false, r);
    }

    /** The next byte goes to TXDR. */
    method PutByte(pData: array<byte>, ghost job: Job)
      requires job.total <= pData.Length && !job.read
      requires job.total < TWO_TO_THE_16 && Counting(job.total) && xferCount > 0
      modifies this`port, this`log, this`pBuffPtr, this`xferCount, this`xferSize
      ensures pBuffPtr == old(pBuffPtr) + 1 && xferCount == old(xferCount) - 1 && xferSize == old(xferSize) - 1
      ensures log == old(log) + [Did(Txdr(pData[old(pBuffPtr)]))]
      ensures Midway(old(port), job, pData[..old(pBuffPtr)], old(xferSize)) ==>
                Midway(port, job, pData[..pBuffPtr], xferSize)
    {
      if Midway(port, job, pData[..pBuffPtr], xferSize) {
        ByteMoved(port, job, pData[..pBuffPtr], xferSize, pData[pBuffPtr]);
        assert pData[..pBuffPtr] + [pData[pBuffPtr]] == pData[..pBuffPtr + 1];
      }
      Reach(Txdr(pData[pBuffPtr]));
      CountByte(job.total);
    }

    /** At the end of a chunk that is not the last: wait for TCR and program the next one. */
    method ReloadIfDue(addr: u16, timeout: u32, start: u32, ghost job: Job, ghost moved: seq<byte>, ghost early: bool)
      returns (r: Status)
      requires Patient(timeout)
      requires |moved| + xferCount == job.total && addr == job.addr
      modifies this`flagReads, this`tickReads, this`state, this`mode, this`locked, this`port, this`xferSize, this`log
      ensures r in {HAL_OK, HAL_TIMEOUT} && (r != HAL_OK ==> Free())
      ensures Went(old(log), log, start, timeout, early, r)
      ensures r == HAL_OK ==>
                xferSize == if old(xferSize) == 0 && xferCount > 0 then ChunkSize(xferCount) else old(xferSize)
      ensures r == HAL_OK && Midway(old(port), job, moved, old(xferSize)) ==> Midway(port, job, moved, xferSize)
    {
      WentNowhere(log, start, timeout, early);
      if xferSize == 0 && xferCount != 0 {
        r := AwaitFlag(TCR, timeout, start, early);
        if r != HAL_OK { return; }
        if Midway(port, job, moved, 0) {
          Reloaded(port, job, moved);
        }
        ghost var waited := log;
        NextChunk(addr, NoStartStop);
        WentTo(waited, ChunkOf(addr, xferCount, NoStartStop), start, timeout, early);
        WentOn(old(log), waited, log, start, timeout, early, HAL_OK);
      }
      r := HAL_OK;
    }

    /** The transmit loop of HAL_I2C_Master_Transmit and HAL_I2C_Mem_Write. */
    method WriteData(addr: u16, pData: array<byte>, timeout: u32, start: u32, ghost job: Job) returns (r: Status)
      requires Patient(timeout) && job.total <= pData.Length && !job.read && errorCode == ERROR_NONE
      requires job.total < TWO_TO_THE_16 && Counting(job.total) && pBuffPtr == 0 && addr == job.addr
      modifies this
      ensures r in {HAL_OK, HAL_ERROR, HAL_TIMEOUT} && (r != HAL_OK ==> Free())
      ensures Went(old(log), log, start, timeout, false, r)
      ensures r == HAL_ERROR ==> errorCode == ERROR_AF
      ensures r == HAL_OK ==> errorCode == ERROR_NONE
      ensures r == HAL_OK && Midway(old(port), job, [], old(xferSize)) ==>
                Midway(port, job, pData[..job.total], 0)
    {
      assert pData[..0] == [];
      WentNowhere(log, start, timeout, false);
      while xferCount > 0
        invariant Counting(job.total) && errorCode == ERROR_NONE
        invariant Went(old(log), log, start, timeout, false, HAL_OK)
        invariant Midway(old(port), job, [], old(xferSize)) ==> Midway(port, job, pData[..pBuffPtr], xferSize)
        decreases xferCount
      {
        ghost var sofar := log;
        r := SendByte(addr, pData, timeout, start, job);
        WentOn(old(log), sofar, log, start, timeout, false, r);
        if r != HAL_OK { return; }
      }
      r := HAL_OK;
    }

    /** The wait of a receive loop: HAL_I2C_Mem_Read does not look for a NACK or an early STOP. */
    method AwaitByte(timeout: u32, start: u32, memory: bool) returns (r: Status)
      requires Patient(timeout) && errorCode == ERROR_NONE
      modifies this`flagReads, this`tickReads, this`state, this`mode, this`locked,
               this`errorCode, this`port, this`log
      ensures r in {HAL_OK, HAL_ERROR, HAL_TIMEOUT} && (r != HAL_OK ==> Free())
      ensures Went(old(log), log, start, timeout, !memory, r)
      ensures r == HAL_ERROR ==> errorCode == ERROR_AF && !memory
      ensures StoppedEarly(log) && |log| >= |old(log)| + 4 ==> r == HAL_TIMEOUT
      ensures r == HAL_OK ==> port == old(port) && errorCode == ERROR_NONE
                              && log != [] && Last(log) == Flagged(RXNE, true)
      ensures r == HAL_OK ==> flagReads > 0 && flag(flagReads - 1, RXNE)
    {
      ghost var turns, stops, ack;
      if memory {
        r, turns := WaitOnFlag(RXNE, false, timeout, start);
        WaitWent(old(log), turns, log, RXNE, false, false, start, timeout, false, r == HAL_OK);
      } else {
        r, turns, stops, ack := WaitOnRxne(timeout, start);
        if r != HAL_ERROR {
          WaitWent(old(log), turns, log, RXNE, false, true, start, timeout, true, r == HAL_OK);
        } else if ack == HAL_OK {
          assert turns + [Flagged(RXNE, false)] + EARLY_STOP[1..] == turns + EARLY_STOP;
          EarlyWent(old(log), turns, log, start, timeout);
        } else {
          NackWent(old(log), turns, stops, log, RXNE, start, timeout, true, ack);
          if ack == HAL_ERROR {
            NackIsNotEarly(turns + [Flagged(RXNE, false)], stops, log, start, timeout);
          }
        }
        if r != HAL_OK {
          r := if errorCode == ERROR_AF then HAL_ERROR else HAL_TIMEOUT;
        }
      }
    }

    /** The byte in RXDR goes to the buffer. */
    method GetByte(pData: array<byte>, ghost job: Job)
      requires job.total <= pData.Length && job.read
      requires job.total < TWO_TO_THE_16 && Counting(job.total) && xferCount > 0
      modifies this`port, this`log, this`pBuffPtr, this`xferCount, this`xferSize, this`rxReads, pData
      ensures pBuffPtr == old(pBuffPtr) + 1 && xferCount == old(xferCount) - 1 && xferSize == old(xferSize) - 1
      ensures log == old(log) + [Did(Rxdr(rxdr(old(rxReads))))] && rxReads == old(rxReads) + 1
      ensures pData[..] == old(pData[..])[old(pBuffPtr) := rxdr(old(rxReads))]
      ensures Midway(old(port), job, old(pData[..pBuffPtr]), old(xferSize)) ==>
                Midway(port, job, pData[..pBuffPtr], xferSize)
    {
      ghost var moved := pData[..pBuffPtr];
      var b := rxdr(rxReads);
      rxReads := rxReads + 1;
      if Midway(port, job, moved, xferSize) {
        ByteMoved(port, job, moved, xferSize, b);
      }
      Reach(Rxdr(b));
      pData[pBuffPtr] := b;
      assert pData[..pBuffPtr + 1] == moved + [b];
      CountByte(job.total);
    }

    /** One turn of the receive loop. */
    method TakeByte(addr: u16, pData: array<byte>, timeout: u32, start: u32, memory: bool, ghost job: Job)
      returns (r: Status)
      requires Patient(timeout) && job.total <= pData.Length && job.read && errorCode == ERROR_NONE
      requires job.total < TWO_TO_THE_16 && Counting(job.total) && xferCount > 0 && addr == job.addr
      modifies this, pData
      ensures r in {HAL_OK, HAL_ERROR, HAL_TIMEOUT} && (r != HAL_OK ==> Free())
      ensures Went(old(log), log, start, timeout, !memory, r)
      ensures r == HAL_ERROR ==> errorCode == ERROR_AF && !memory
      ensures r == HAL_OK ==> Counting(job.total) && xferCount == old(xferCount) - 1 && errorCode == ERROR_NONE
      ensures pData[job.total..] == old(pData[job.total..])
      ensures r == HAL_OK && Midway(old(port), job, old(pData[..pBuffPtr]), old(xferSize)) ==>
                Midway(port, job, pData[..pBuffPtr], xferSize)
    {
      r := AwaitByte(timeout, start, memory);
      if r != HAL_OK { return; }
      ghost var waited := log;
      GetByte(pData, job);
      WentTo(waited, Rxdr(rxdr(rxReads - 1)), start, timeout, !memory);
      WentOn(old(log), waited, log, start, timeout, !memory, HAL_OK);
      ghost var taken := log;
      r := ReloadIfDue(addr, timeout, start, job, pData[..pBuffPtr], !memory);
      WentOn(old(log), taken, log, start, timeout, !memory, r);
    }

    /** The receive loop of HAL_I2C_Master_Receive and HAL_I2C_Mem_Read. */
    method ReadData(addr: u16, pData: array<byte>, timeout: u32, start: u32, memory: bool, ghost job: Job)
      returns (r: Status)
      requires Patient(timeout) && job.total <= pData.Length && job.read && errorCode == ERROR_NONE
      requires job.total < TWO_TO_THE_16 && Counting(job.total) && pBuffPtr == 0 && addr == job.addr
      modifies this, pData
      ensures r in {HAL_OK, HAL_ERROR, HAL_TIMEOUT} && (r != HAL_OK ==> Free())
      ensures Went(old(log), log, start, timeout, !memory, r)
      ensures r == HAL_ERROR ==> errorCode == ERROR_AF && !memory
      ensures r == HAL_OK ==> errorCode == ERROR_NONE
      ensures pData[job.total..] == old(pData[job.total..])
      ensures r == HAL_OK && Midway(old(port), job, [], old(xferSize)) ==>
                Midway(port, job, pData[..job.total], 0)
    {
      assert pData[..0] == [];
      WentNowhere(log, start, timeout, !memory);
      while xferCount > 0
        invariant Counting(job.total) && errorCode == ERROR_NONE
        invariant Went(old(log), log, start, timeout, !memory, HAL_OK)
        invariant pData[job.total..] == old(pData[job.total..])
        invariant Midway(old(port), job, [], old(xferSize)) ==> Midway(port, job, pData[..pBuffPtr], xferSize)
        decreases xferCount
      {
        ghost var sofar := log;
        r := TakeByte(addr, pData, timeout, start, memory, job);
        WentOn(old(log), sofar, log, start, timeout, !memory, r);
        if r != HAL_OK { return; }
      }
      r := HAL_OK;
    }

    /** Waits for the STOP that AUTOEND generates, then releases the handle. */
    method Finish(timeout: u32, start: u32, ghost early: bool) returns (r: Status)
      requires Patient(timeout) && errorCode == ERROR_NONE
      modifies this
      ensures r in {HAL_OK, HAL_ERROR, HAL_TIMEOUT} && Free()
      ensures Went(old(log), log, start, timeout, early, r)
      ensures r == HAL_ERROR ==> errorCode == ERROR_AF
      ensures r == HAL_OK ==> mode == NONE && errorCode == ERROR_NONE && port == Touch(old(port), ClearStop)
                              && log != [] && Last(log) == Did(ClearStop)
    {
      r := Await(STOPF, timeout, start, early);
      if r != HAL_OK { return; }
      ghost var waited := log;
      Reach(ClearStop);
      WentTo(waited, ClearStop, start, timeout, early);
      WentOn(old(log), waited, log, start, timeout, early, HAL_OK);
      state, mode, locked := READY, NONE, false;
    }

    /** The data phase of a transmission, up to the STOP. */
    method SendJob(addr: u16, pData: array<byte>, request: StartStop, timeout: u32, start: u32, ghost job: Job)
      returns (r: Status)
      requires Patient(timeout) && job.total <= pData.Length && !job.read && errorCode == ERROR_NONE
      requires xferCount == job.total < TWO_TO_THE_16 && pBuffPtr == 0 && addr == job.addr
      requires May(log, ChunkOf(addr, job.total, request))
      modifies this
      ensures r in {HAL_OK, HAL_ERROR, HAL_TIMEOUT} && Free()
      ensures Went(old(log), log, start, timeout, false, r)
      ensures r == HAL_ERROR ==> errorCode == ERROR_AF
      ensures r == HAL_OK ==> log != [] && Last(log) == Did(ClearStop) && mode == NONE && errorCode == ERROR_NONE
      ensures var begun := Touch(old(port), ChunkOf(addr, job.total, request));
              r == HAL_OK && Midway(begun, job, [], ChunkSize(job.total)) ==>
                port == Completed(job, pData[..job.total])
    {
      NextChunk(addr, request);
      WentTo(old(log), ChunkOf(addr, job.total, request), start, timeout, false);
      ghost var begun := log;
      r := WriteData(addr, pData, timeout, start, job);
      WentOn(old(log), begun, log, start, timeout, false, r);
      if r != HAL_OK { return; }
      if Midway(port, job, pData[..job.total], 0) {
        AllMoved(port, job, pData[..job.total]);
      }
      ghost var written := log;
      r := Finish(timeout, start, false);
      WentOn(old(log), written, log, start, timeout, false, r);
    }

    /** The data phase of a reception, up to the STOP. */
    method ReceiveJob(addr: u16, pData: array<byte>, request: StartStop, timeout: u32, start: u32,
                      memory: bool, ghost job: Job)
      returns (r: Status)
      requires Patient(timeout) && job.total <= pData.Length && job.read && errorCode == ERROR_NONE
      requires xferCount == job.total < TWO_TO_THE_16 && pBuffPtr == 0 && addr == job.addr
      requires May(log, ChunkOf(addr, job.total, request))
      modifies this, pData
      ensures r in {HAL_OK, HAL_ERROR, HAL_TIMEOUT} && Free()
      ensures Went(old(log), log, start, timeout, !memory, r)
      ensures r == HAL_ERROR ==> errorCode == ERROR_AF
      ensures pData[job.total..] == old(pData[job.total..])
      ensures r == HAL_OK ==> log != [] && Last(log) == Did(ClearStop) && mode == NONE && errorCode == ERROR_NONE
      ensures var begun := Touch(old(port), ChunkOf(addr, job.total, request));
              r == HAL_OK && Midway(begun, job, [], ChunkSize(job.total)) ==>
                port == Completed(job, pData[..job.total])
    {
      NextChunk(addr, request);
      WentTo(old(log), ChunkOf(addr, job.total, request), start, timeout, !memory);
      ghost var begun := log;
      r := ReadData(addr, pData, timeout, start, memory, job);
      WentOn(old(log), begun, log, start, timeout, !memory, r);
      if r != HAL_OK { return; }
      if Midway(port, job, pData[..job.total], 0) {
        AllMoved(port, job, pData[..job.total]);
      }
      ghost var taken := log;
      r := Finish(timeout, start, !memory);
      WentOn(old(log), taken, log, start, timeout, !memory, r);
    }

    /** The common opening of the blocking calls: take the lock and wait for a free bus. */
    method Open(busy: State, mode: Mode, size: u16) returns (r: Status, start: u32)
      requires state == READY && !locked
      modifies this`locked, this`flagReads, this`tickReads, this`state, this`mode, this`errorCode,
               this`pBuffPtr, this`xferCount, this`log
      ensures r in {HAL_OK, HAL_TIMEOUT} && (r != HAL_OK ==> Free())
      ensures r == HAL_OK ==> pBuffPtr == 0 && xferCount == size && errorCode == ERROR_NONE
      ensures r == HAL_OK ==> state == busy && this.mode == mode && locked
      ensures Opened(old(log), log, start, r)
    {
      locked := true;
      start := GetTick();
      ghost var turns;
      r, turns := WaitOnFlag(BUSY, true, I2C_TIMEOUT_BUSY, start);
      BusyWait(old(log), turns, log, start, r);
      if r != HAL_OK { return; }
      state, this.mode, errorCode := busy, mode, ERROR_NONE;
      pBuffPtr, xferCount := 0, size;
    }

    /** HAL_I2C_Master_Transmit */
    method Transmit(addr: u16, pData: array<byte>, size: u16, timeout: u32) returns (r: Status)
      requires Patient(timeout) && size <= pData.Length
      modifies this
      ensures if r == HAL_BUSY then log == old(log) else Called(old(log), log, timeout, false, r)
      ensures r == HAL_BUSY <==> !old(Free())
      ensures r == HAL_BUSY ==> state == old(state) && locked == old(locked) && port == old(port)
      ensures r != HAL_BUSY ==> Free()
      ensures r == HAL_ERROR ==> errorCode == ERROR_AF
      ensures r == HAL_OK ==> mode == NONE && errorCode == ERROR_NONE
      ensures r == HAL_OK && old(port).bus == Idle ==>
                && port.bus == Idle
                && port.wire == old(port).wire + [Start(addr, false)] + Bytes(pData[..size]) + [Stop]
                && port.programmed == old(port).programmed + Plan(size)
    {
      if state != READY || locked { return HAL_BUSY; }
      var start;
      r, start := Open(BUSY_TX, MASTER, size);
      if r != HAL_OK {
        NotOpened(old(log), log, start, timeout, false);
        return;
      }
      ghost var entered := log;
      ghost var job := StartedJob(port, false, addr, size);
      if port.bus == Idle { Begun(port, false, addr, size); }
      r := SendJob(addr, pData, GenerateStartWrite, timeout, start, job);
      CallOf(old(log), entered, log, start, timeout, false, r);
    }

    /** HAL_I2C_Master_Receive */
    method Receive(addr: u16, pData: array<byte>, size: u16, timeout: u32) returns (r: Status)
      requires Patient(timeout) && size <= pData.Length
      modifies this, pData
      ensures if r == HAL_BUSY then log == old(log) else Called(old(log), log, timeout, true, r)
      ensures r == HAL_BUSY <==> !old(Free())
      ensures r == HAL_BUSY ==> state == old(state) && locked == old(locked) && port == old(port)
                                && pData[..] == old(pData[..])
      ensures r != HAL_BUSY ==> Free()
      ensures r == HAL_ERROR ==> errorCode == ERROR_AF
      ensures pData[size..] == old(pData[size..])
      ensures r == HAL_OK ==> mode == NONE && errorCode == ERROR_NONE
      ensures r == HAL_OK && old(port).bus == Idle ==>
                && port.bus == Idle
                && port.wire == old(port).wire + [Start(addr, true)] + Bytes(pData[..size]) + [Stop]
                && port.programmed == old(port).programmed + Plan(size)
    {
      if state != READY || locked { return HAL_BUSY; }
      var start;
      r, start := Open(BUSY_RX, MASTER, size);
      if r != HAL_OK {
        NotOpened(old(log), log, start, timeout, true);
        return;
      }
      ghost var entered := log;
      ghost var job := StartedJob(port, true, addr, size);
      if port.bus == Idle { Begun(port, true, addr, size); }
      r := ReceiveJob(addr, pData, GenerateStartRead, timeout, start, false, job);
      CallOf(old(log), entered, log, start, timeout, true, r);
    }

    /**
     I2C_RequestMemoryWrite (`end` is RELOAD, waiting for TCR) and I2C_RequestMemoryRead
     (`end` is neither RELOAD nor AUTOEND, waiting for TC).
     */
    method RequestMemory(addr: u16, mem: u16, addSize: byte, end: EndMode, timeout: u32, start: u32)
      returns (r: Status)
      requires Patient(timeout) && addSize in {1, 2} && end != AutoEnd && errorCode == ERROR_NONE
      requires May(log, Cr2(addr, addSize, end, GenerateStartWrite))
      modifies this`flagReads, this`tickReads, this`state, this`mode, this`locked,
               this`errorCode, this`port, this`log
      ensures r != HAL_OK ==> r in {HAL_ERROR, HAL_TIMEOUT} && Free()
      ensures Went(old(log), log, start, timeout, false, r)
      ensures r == HAL_OK ==> errorCode == ERROR_NONE
                              && log != [] && Last(log) == Flagged(if end == Reload then TCR else TC, true)
      ensures r == HAL_ERROR ==> errorCode == ERROR_AF
      ensures r == HAL_OK && old(port).bus == Idle ==>
                && port.bus == Active(addr, false, 0, end)
                && port.wire == old(port).wire + [Start(addr, false)] + Bytes(AddressBytes(mem, addSize))
                && port.programmed == old(port).programmed + [Chunk(addSize, end)]
    {
      ghost var bytes := AddressBytes(mem, addSize);
      Reach(Cr2(addr, addSize, end, GenerateStartWrite));
      WentTo(old(log), Cr2(addr, addSize, end, GenerateStartWrite), start, timeout, false);
      if addSize == 1 {
        r := SendAddressByte(mem % 256, timeout, start, old(log));
        if r != HAL_OK { return; }
        assert Bytes(bytes) == [Data(mem % 256)];
      } else {
        r := SendAddressByte(mem / 256, timeout, start, old(log));
        if r != HAL_OK { return; }
        r := SendAddressByte(mem % 256, timeout, start, old(log));
        if r != HAL_OK { return; }
        assert Bytes(bytes) == [Data(mem / 256)] + [Data(mem % 256)];
      }
      ghost var addressed := log;
      r := AwaitFlag(if end == Reload then TCR else TC, timeout, start, false);
      WentOn(old(log), addressed, log, start, timeout, false, r);
    }

    /** A byte of the memory address; `before` is the record of an earlier moment of the call. */
    method SendAddressByte(b: byte, timeout: u32, start: u32, ghost before: seq<Seen>) returns (r: Status)
      requires Patient(timeout) && errorCode == ERROR_NONE && Went(before, log, start, timeout, false, HAL_OK)
      modifies this`flagReads, this`tickReads, this`state, this`mode, this`locked,
               this`errorCode, this`port, this`log
      ensures r in {HAL_OK, HAL_ERROR, HAL_TIMEOUT} && (r != HAL_OK ==> Free())
      ensures Went(before, log, start, timeout, false, r)
      ensures r == HAL_ERROR ==> errorCode == ERROR_AF
      ensures r == HAL_OK ==> errorCode == ERROR_NONE && port == Touch(old(port), Txdr(b))
    {
      r := Await(TXIS, timeout, start, false);
      WentOn(before, old(log), log, start, timeout, false, r);
      if r != HAL_OK { return; }
      ghost var waited := log;
      Reach(Txdr(b));
      WentTo(waited, Txdr(b), start, timeout, false);
      WentOn(before, waited, log, start, timeout, false, HAL_OK);
    }

    /** HAL_I2C_Mem_Write */
    method MemWrite(addr: u16, mem: u16, addSize: byte, pData: array?<byte>, size: u16, timeout: u32)
      returns (r: Status)
      requires Patient(timeout) && addSize in {1, 2}
      requires pData != null ==> size <= pData.Length
      modifies this
      ensures if r == HAL_BUSY || pData == null || size == 0 then log == old(log)
              else Called(old(log), log, timeout, false, r)
      ensures r == HAL_BUSY <==> old(state != READY || (locked && pData != null && size != 0))
      ensures old(Free()) ==> Free()
      ensures r == HAL_ERROR ==> pData == null || size == 0 || errorCode == ERROR_AF
      ensures r == HAL_OK ==> mode == NONE && errorCode == ERROR_NONE
      ensures old(Free()) && r == HAL_OK && old(port).bus == Idle ==>
                && pData != null && size > 0 && port.bus == Idle
                && port.wire == old(port).wire + [Start(addr, false)] + Bytes(AddressBytes(mem, addSize))
                                + Bytes(pData[..size]) + [Stop]
                && port.programmed == old(port).programmed + [Chunk(addSize, Reload)] + Plan(size)
    {
      if state != READY { return HAL_BUSY; }
      if pData == null || size == 0 { return HAL_ERROR; }
      if locked { return HAL_BUSY; }
      var start;
      r, start := Open(BUSY_TX, MEM, size);
      if r != HAL_OK {
        NotOpened(old(log), log, start, timeout, false);
        return;
      }
      ghost var entered := log;
      r := RequestMemory(addr, mem, addSize, Reload, timeout, start);
      if r != HAL_OK {
        CallOf(old(log), entered, log, start, timeout, false, r);
        locked := false;
        return;
      }
      ghost var requested := log;
      ghost var job := Job(addr, false, port.wire, port.programmed, size);
      if port.bus == Active(addr, false, 0, Reload) { BegunBehind(port, addr, size); }
      r := SendJob(addr, pData, NoStartStop, timeout, start, job);
      WentOn(entered, requested, log, start, timeout, false, r);
      CallOf(old(log), entered, log, start, timeout, false, r);
    }

    /** HAL_I2C_Mem_Read */
    method MemRead(addr: u16, mem: u16, addSize: byte, pData: array?<byte>, size: u16, timeout: u32)
      returns (r: Status)
      requires Patient(timeout) && addSize in {1, 2}
      requires pData != null ==> size <= pData.Length
      modifies this, pData
      ensures if r == HAL_BUSY || pData == null || size == 0 then log == old(log)
              else Called(old(log), log, timeout, false, r)
      ensures r == HAL_BUSY <==> old(state != READY || (locked && pData != null && size != 0))
      ensures old(Free()) ==> Free()
      ensures r == HAL_ERROR ==> pData == null || size == 0 || errorCode == ERROR_AF
      ensures r == HAL_OK ==> mode == NONE && errorCode == ERROR_NONE
      ensures old(Free()) && r == HAL_OK && old(port).bus == Idle ==>
                && pData != null && size > 0 && port.bus == Idle
                && port.wire == old(port).wire + [Start(addr, false)] + Bytes(AddressBytes(mem, addSize))
                                + [Start(addr, true)] + Bytes(pData[..size]) + [Stop]
                && port.programmed == old(port).programmed + [Chunk(addSize, SoftEnd)] + Plan(size)
    {
      if state != READY { return HAL_BUSY; }
      if pData == null || size == 0 { return HAL_ERROR; }
      if locked { return HAL_BUSY; }
      var start;
      r, start := Open(BUSY_RX, MEM, size);
      if r != HAL_OK {
        NotOpened(old(log), log, start, timeout, false);
        return;
      }
      ghost var entered := log;
      r := RequestMemory(addr, mem, addSize, SoftEnd, timeout, start);
      if r != HAL_OK {
        CallOf(old(log), entered, log, start, timeout, false, r);
        locked := false;
        return;
      }
      ghost var requested := log;
      ghost var job := StartedJob(port, true, addr, size);
      if port.bus == Active(addr, false, 0, SoftEnd) { Begun(port, true, addr, size); }
      r := ReceiveJob(addr, pData, GenerateStartRead, timeout, start, true, job);
      WentOn(entered, requested, log, start, timeout, false, r);
      CallOf(old(log), entered, log, start, timeout, false, r);
    }
  }
}
