/**
 DMA-driven transfers. The length of a DMA block is computed in the stream's completion
 callback, the NBYTES of the same block in the TCR handler; in every interleaving they are the
 same, the blocks tile the buffer in order, and the restart inside the callback is accepted.
 */
module I2cDma {
  import opened Hal
  import opened Words
  import opened I2cBus
  import opened DmaModel
  import opened I2cModel

  /** The blocks that cover `remaining` bytes from `start` on. */
  function Tiles(start: nat, remaining: nat): seq<Block>
    decreases remaining
  {
    if remaining == 0 then []
    else [Block(start, ChunkSize(remaining))] + Tiles(start + ChunkSize(remaining), remaining - ChunkSize(remaining))
  }

  function EndOf(b: Block): nat {
    b.start + b.len
  }

  lemma TilesStep(start: nat, remaining: nat)
    requires remaining > 0
    ensures var n := ChunkSize(remaining);
            Tiles(start, remaining) == [Block(start, n)] + Tiles(start + n, remaining - n)
  {
  }

  /** Taking the next tile over from what is still to come. */
  lemma {:induction false} NextTile(blocks: seq<Block>, start: nat, remaining: nat, whole: seq<Block>)
    requires remaining > 0 && blocks + Tiles(start, remaining) == whole
    ensures var n := ChunkSize(remaining);
            blocks + [Block(start, n)] + Tiles(start + n, remaining - n) == whole
  {
    TilesStep(start, remaining);
  }

  /** Each tile begins where the one before ends; together they run from `start` to `end`. */
  predicate Contiguous(t: seq<Block>, start: nat, end: nat) {
    && |t| > 0 && t[0].start == start && EndOf(t[|t| - 1]) == end
    && forall i :: 0 < i < |t| ==> t[i].start == EndOf(t[i - 1])
  }

  /** The lengths of the tiles are the counts of the plan. */
  predicate SameLengths(t: seq<Block>, plan: seq<Chunk>) {
    |t| == |plan| && forall i :: 0 <= i < |t| ==> t[i].len == plan[i].nbytes
  }

  lemma {:induction false} TilesContiguous(start: nat, remaining: nat)
    requires remaining > 0
    ensures Contiguous(Tiles(start, remaining), start, start + remaining)
    decreases remaining
  {
    var n := ChunkSize(remaining);
    TilesStep(start, remaining);
    if remaining > n {
      TilesContiguous(start + n, remaining - n);
      OneMore(Block(start, n), Tiles(start + n, remaining - n), start + remaining);
    }
  }

  lemma {:induction false} TilesMatchPlan(start: nat, remaining: nat)
    ensures SameLengths(Tiles(start, remaining), Rest(remaining))
    decreases remaining
  {
    if remaining > 0 {
      var n := ChunkSize(remaining);
      TilesStep(start, remaining);
      PlanHead(remaining);
      TilesMatchPlan(start + n, remaining - n);
      var tiles, chunk := Tiles(start + n, remaining - n), Chunk(n, ChunkMode(remaining));
      OneMoreLength(Block(start, n), tiles, chunk, Rest(remaining - n));
    }
  }

  /** Tiles are contiguous, in order, cover everything, and match the plan of programmings. */
  lemma {:induction false} TilesCover(start: nat, remaining: nat)
    requires remaining > 0
    ensures Contiguous(Tiles(start, remaining), start, start + remaining)
    ensures SameLengths(Tiles(start, remaining), Plan(remaining))
  {
    TilesContiguous(start, remaining);
    TilesMatchPlan(start, remaining);
  }

  lemma OneMore(b: Block, t: seq<Block>, end: nat)
    requires Contiguous(t, EndOf(b), end)
    ensures Contiguous([b] + t, b.start, end)
  {
    var u := [b] + t;
    assert forall i :: 0 < i < |u| ==> u[i] == t[i - 1];
  }

  lemma OneMoreLength(b: Block, t: seq<Block>, c: Chunk, plan: seq<Chunk>)
    requires b.len == c.nbytes && SameLengths(t, plan)
    ensures SameLengths([b] + t, [c] + plan)
  {
  }

  /** What was asked for, and the blocks started before. */
  datatype Goal = Goal(job: Job, data: seq<byte>, mode: Mode, earlier: seq<Block>)

  /** The current block is programmed in both places; `count` bytes lie behind it. */
  predicate Together(w: World, g: Goal) {
    && w.n.ptr + w.n.size + w.n.count == g.job.total
    && w.s.blocks + Tiles(w.n.ptr + w.n.size, w.n.count) == g.earlier + Tiles(0, g.job.total)
  }

  /** The stream has been restarted for a block that the peripheral does not know yet. */
  predicate Ahead(w: World, g: Goal) {
    && w.n.count > 0 && w.n.size == ChunkSize(w.n.count)
    && w.n.ptr + w.n.count == g.job.total
    && w.s.blocks + Tiles(w.n.ptr + w.n.size, w.n.count - w.n.size) == g.earlier + Tiles(0, g.job.total)
  }

  /** Blocks and programmings so far are the first ones of the plan, the stream at most one ahead. */
  predicate InStep(w: World, g: Goal) {
    && w.s.blocks <= g.earlier + Tiles(0, g.job.total)
    && w.port.programmed <= g.job.planned + Plan(g.job.total)
    && |w.port.programmed| >= |g.job.planned| && 0 <= Lead(w, g) <= 1
  }

  /** How many blocks the stream was started for that the peripheral has not been told of. */
  function Lead(w: World, g: Goal): int {
    (|w.s.blocks| - |g.earlier|) - (|w.port.programmed| - |g.job.planned|)
  }

  predicate Running(d: Dma, at: int, left: int) {
    && d.state == BUSY && d.locked && d.error == NO_ERROR
    && (d.stream.en <==> left > 0) && !d.stream.circ && d.stream.tcie
    && d.stream.addr == at && d.stream.ndtr == left
  }

  predicate Idling(d: Dma) {
    d.state == DmaState.READY && !d.locked && !d.stream.circ && d.error == NO_ERROR
  }

  predicate BufferOk(w: World, g: Goal, at: int) {
    && |w.mem| == |g.data| && 0 <= at <= g.job.total <= |g.data|
    && (if g.job.read then w.mem[at..] == g.data[at..] else w.mem == g.data)
  }

  predicate Unfinished(w: World, g: Goal) {
    && w.calls == [] && w.h.isr == ISR_DMA && !w.h.locked && w.h.mode == g.mode
    && w.h.state == Busy(g.job.read) && !w.s.refused && 0 < g.job.total < TWO_TO_THE_16
    && !w.r.ie.txi && !w.r.ie.rxi && w.r.ie.nacki && w.r.sadd == g.job.addr
  }

  predicate FlagsOk(w: World, g: Goal) {
    && w.port.bus.Active? && !w.r.fl.af && !w.r.fl.tc
    && (w.r.fl.tcr || w.r.fl.stopf ==> LastByteOut(w))
    && (w.r.fl.txis ==> w.r.dmaEn && !g.job.read && w.port.bus.left > 0)
    && (w.r.fl.rxne ==> w.r.dmaEn && g.job.read && w.port.bus.left > 0)
    && (w.r.fl.tcr ==> w.port.bus.mode == Reload)
    && (w.r.fl.stopf ==> w.port.bus.mode == AutoEnd)
  }

  /** Where in the buffer the next byte goes. */
  function At(w: World): int
    requires w.port.bus.Active?
  {
    w.n.ptr + w.n.size - w.port.bus.left
  }

  /** A block is on its way; the stream's own count is the peripheral's. */
  predicate Streaming(w: World, g: Goal) {
    && Unfinished(w, g) && w.h.err == NO_ERRORS && FlagsOk(w, g) && w.port.bus.left <= w.n.size
    && BufferOk(w, g, At(w))
    && Midway(w.port, g.job, w.mem[..At(w)], w.port.bus.left)
    && Running(w.s.d, At(w), w.port.bus.left)
    && Together(w, g) && w.r.dmaEn && !w.r.ie.tci
    && (w.s.tcif <==> w.port.bus.left == 0)
  }

  /** The stream is restarted and waits for TCR to be served. */
  predicate Restarted(w: World, g: Goal) {
    && Unfinished(w, g) && w.h.err == NO_ERRORS
    && BufferOk(w, g, w.n.ptr) && Midway(w.port, g.job, w.mem[..w.n.ptr], 0)
    && Running(w.s.d, w.n.ptr, w.n.size)
    && Ahead(w, g) && FlagsOk(w, g) && !w.r.dmaEn && w.r.ie.tci && w.r.ie.stopi && !w.s.tcif
  }

  /** The last block has been served by the stream; only the STOP is missing. */
  predicate Drained(w: World, g: Goal) {
    && Unfinished(w, g) && w.h.err == NO_ERRORS
    && BufferOk(w, g, g.job.total) && Midway(w.port, g.job, w.mem[..g.job.total], 0)
    && Idling(w.s.d) && w.n.count == 0
    && Together(w, g) && FlagsOk(w, g) && !w.r.dmaEn && w.r.ie.tci && w.r.ie.stopi && !w.s.tcif
  }

  /** The stream of a transfer that is not going on: in the middle of a block, or anywhere it stops later. */
  predicate Parked(w: World, g: Goal) {
    && w.calls == [] && w.h.isr == ISR_DMA && !w.h.locked && w.h.mode == g.mode && !w.s.refused
    && 0 < g.job.total < TWO_TO_THE_16 && w.port.bus.Stopping? && !w.r.fl.tcr && !w.r.fl.tc
    && (w.h.err == NO_ERRORS || w.h.err == NO_ERRORS.(af := true))
    && (if w.r.dmaEn then
          && Together(w, g) && w.s.d.state == BUSY && !w.s.d.stream.circ
          && w.s.d.stream.tcie && w.s.d.error == NO_ERROR
        else !w.s.tcif && w.s.d.state == (if w.n.count > 0 then BUSY else DmaState.READY))
    && InStep(w, g) && Lead(w, g) == (if !w.r.dmaEn && w.n.count > 0 then 1 else 0)
  }

  /** Refused by the slave. */
  predicate Refused(w: World, g: Goal) {
    && Parked(w, g) && w.h.state == Busy(g.job.read) && w.port.bus.spare == 0
    && !w.r.ie.txi && !w.r.ie.rxi && w.r.ie.nacki
    && (w.h.err == NO_ERRORS ==> w.r.fl.af)
    && !w.r.fl.rxne && (w.r.fl.txis ==> w.r.fl.af)
    && (!w.r.fl.af ==> w.r.ie.stopi)
  }

  /** After a user abort, until the requested STOP has been served. */
  predicate Aborting(w: World, g: Goal) {
    && Parked(w, g) && w.h.state == ABORTING && g.mode == MASTER && w.port.bus.spare <= Bit(w.port.bus.read)
    && !w.r.ie.nacki && w.r.ie.stopi
    && (w.r.fl.rxne ==> w.port.bus.spare == 1)
  }

  /** The callback waits for the stream to confirm its abort. */
  predicate Winding(w: World, g: Goal) {
    && w.calls == [] && w.h.isr == NO_ISR && !w.s.refused && w.h.mode == NONE && !w.h.locked
    && w.port.bus == Idle && w.n.count == 0
    && (if w.h.state == ABORTING then g.mode == MASTER && (w.r.fl == NO_FLAGS || w.r.fl == NO_FLAGS.(rxne := true))
        else w.h.state == State.READY && w.r.fl == NO_FLAGS && w.h.err == NO_ERRORS.(af := true))
    && w.s.d.state == ABORT && w.s.d.cb.abort && w.s.d.stream.tcie && w.s.tcif && !w.r.dmaEn
    && InStep(w, g) && Lead(w, g) == 0
  }

  /**
   Success has been reported while the last byte of a read was still in RXDR, where the stream
   will fetch it.
   */
  predicate Early(w: World, g: Goal) {
    && w.calls == [SuccessOf(true, g.mode)] && g.job.read && 0 < g.job.total < TWO_TO_THE_16
    && w.h == Handle(State.READY, NONE, NO_ISR, NO_ERRORS, false) && !w.s.refused
    && w.r.fl == NO_FLAGS.(rxne := true) && w.r.dmaEn && !w.s.tcif && w.n.count == 0
    && BufferOk(w, g, g.job.total - 1) && w.port == Settled(g.job, w.mem[..g.job.total - 1])
    && Running(w.s.d, g.job.total - 1, 1)
    && w.s.blocks == g.earlier + Tiles(0, g.job.total) && InStep(w, g)
  }

  /** One callback has been made; a late stream interrupt can no longer start anything. */
  predicate Done(w: World, g: Goal) {
    && |w.calls| == 1 && w.calls[0] in {SuccessOf(g.job.read, g.mode), ErrorCallback, AbortCplt}
    && w.h.isr == NO_ISR && !w.s.refused && w.h.state == State.READY && w.h.mode == NONE && !w.h.locked
    && w.port.bus == Idle && w.n.count == 0
    && (w.r.fl == NO_FLAGS || (w.calls[0] == AbortCplt && w.r.fl == NO_FLAGS.(rxne := true)))
    && (w.s.tcif ==> w.calls[0] == SuccessOf(g.job.read, g.mode))
    && InStep(w, g)
    && (w.calls[0] == SuccessOf(g.job.read, g.mode) ==>
          && Delivered(w, g) && w.s.d.state == (if w.s.tcif then BUSY else DmaState.READY)
          && (w.s.tcif ==> w.s.d.stream.tcie && !w.s.d.stream.circ))
    && (w.calls[0] == ErrorCallback ==> w.h.err.af)
    && (w.calls[0] == AbortCplt ==> g.mode == MASTER)
    && (w.calls[0] != SuccessOf(g.job.read, g.mode) ==>
          w.s.d.state == (if Lead(w, g) == 1 then BUSY else DmaState.READY))
  }

  /** The last byte of a read was fetched after the STOP had been acknowledged. */
  function CompletedLate(job: Job, moved: seq<byte>): Port
    requires |moved| > 0
  {
    var n := |moved| - 1;
    Touch(Settled(job, moved[..n]), Rxdr(moved[n]))
  }

  /** Everything was moved, block by block as planned. */
  predicate Delivered(w: World, g: Goal) {
    && |w.mem| == |g.data| && 0 < g.job.total <= |g.data|
    && (|| w.port == Completed(g.job, w.mem[..g.job.total])
        || (g.job.read && w.port == CompletedLate(g.job, w.mem[..g.job.total])))
    && w.s.blocks == g.earlier + Tiles(0, g.job.total)
    && (if g.job.read then w.mem[g.job.total..] == g.data[g.job.total..] else w.mem == g.data)
  }

  predicate Inv(w: World, g: Goal) {
    || Streaming(w, g) || Restarted(w, g) || Drained(w, g)
    || Refused(w, g) || Aborting(w, g) || Winding(w, g) || Early(w, g) || Done(w, g)
  }

  // ---- starting ------------------------------------------------------------------------

  function MasterGoal(w: World, read: bool, addr: u16, size: u16): Goal {
    Goal(StartedJob(w.port, read, addr, size), w.mem, MASTER, w.s.blocks)
  }

  predicate Quiet(w: World) {
    w.calls == [] && w.r.fl == NO_FLAGS && w.r.ie == ALL_OFF && !w.r.dmaEn && !w.s.tcif && !w.s.refused
    && Idling(w.s.d)
  }

  /** What StartedDma does to a quiet configuration. */
  predicate StartedShape(w: World, v: World, g: Goal, addr: u16, request: StartStop)
    requires g.job.total < TWO_TO_THE_16
  {
    var size := g.job.total;
    && v.port == Touch(w.port, ChunkOf(addr, size, request))
    && v.h == Handle(Busy(g.job.read), g.mode, ISR_DMA, NO_ERRORS, false)
    && v.n == Counters(ChunkSize(size), size - ChunkSize(size), 0)
    && v.mem == w.mem && v.calls == [] && v.r.fl == NO_FLAGS && v.r.dmaEn
    && v.r.ie == ALL_OFF.(nacki := true) && v.r.sadd == addr
    && v.s.blocks == w.s.blocks + [Block(0, ChunkSize(size))] && !v.s.tcif && !v.s.refused
    && Running(v.s.d, 0, ChunkSize(size))
  }

  lemma StartedFields(w: World, g: Goal, addr: u16, request: StartStop)
    requires Quiet(w) && 0 < g.job.total < TWO_TO_THE_16
    ensures StartedShape(w, StartedDma(w, g.job.read, addr, g.job.total, g.mode, request), g, addr, request)
  {
  }

  lemma {:induction false} ShapeStreams(w: World, v: World, g: Goal, addr: u16, request: StartStop)
    requires 0 < g.job.total <= |w.mem| && g.job.total < TWO_TO_THE_16
    requires StartedShape(w, v, g, addr, request)
    requires Midway(v.port, g.job, [], ChunkSize(g.job.total))
    requires g.data == w.mem && g.earlier == w.s.blocks && g.job.addr == addr
    ensures Streaming(v, g)
  {
    var size := g.job.total;
    assert v.mem[..0] == [];
    NextTile(w.s.blocks, 0, size, w.s.blocks + Tiles(0, size));
  }

  lemma DmaStarts(w: World, g: Goal, addr: u16, request: StartStop)
    requires Quiet(w) && 0 < g.job.total <= |w.mem| && g.job.total < TWO_TO_THE_16
    requires Midway(Touch(w.port, ChunkOf(addr, g.job.total, request)), g.job, [], ChunkSize(g.job.total))
    requires g.data == w.mem && g.earlier == w.s.blocks && g.job.addr == addr
    ensures Streaming(StartedDma(w, g.job.read, addr, g.job.total, g.mode, request), g)
  {
    StartedFields(w, g, addr, request);
    ShapeStreams(w, StartedDma(w, g.job.read, addr, g.job.total, g.mode, request), g, addr, request);
  }

  lemma {:induction false} MasterStarts(w: World, read: bool, addr: u16, size: u16)
    requires Accepts(w) && Quiet(w) && 0 < size <= |w.mem|
    ensures Streaming(MasterDma(w, read, addr, size), MasterGoal(w, read, addr, size))
  {
    Begun(w.port, read, addr, size);
    DmaStarts(w, MasterGoal(w, read, addr, size), addr, Direction(read));
  }

  /** The data phase of a memory transfer, entered once the address bytes are through. */
  function MemGoal(w: World, read: bool, addr: u16, size: u16): Goal {
    Goal(if read then StartedJob(w.port, true, addr, size) else Job(addr, false, w.port.wire, w.port.programmed, size),
         w.mem, MEM, w.s.blocks)
  }

  lemma {:induction false} MemStarts(w: World, read: bool, addr: u16, size: u16)
    requires Quiet(w) && 0 < size <= |w.mem|
    requires w.port.bus == Active(addr, false, 0, if read then SoftEnd else Reload)
    ensures Streaming(StartedDma(w, read, addr, size, MEM, if read then GenerateStartRead else NoStartStop),
                      MemGoal(w, read, addr, size))
  {
    if read { Begun(w.port, true, addr, size); } else { BegunBehind(w.port, addr, size); }
    DmaStarts(w, MemGoal(w, read, addr, size), addr, if read then GenerateStartRead else NoStartStop);
  }

  /** Blocks and programmings of the same plan are one behind the other at most. */
  lemma {:induction false} TogetherInStep(w: World, g: Goal)
    requires Together(w, g) && g.job.total > 0
    requires w.port.programmed + Rest(w.n.count) == g.job.planned + Plan(g.job.total)
    ensures InStep(w, g)
    ensures Lead(w, g) == 0
    ensures w.n.count == 0 ==> w.s.blocks == g.earlier + Tiles(0, g.job.total)
  {
    RestAsTiles(w.n.ptr + w.n.size, w.n.count);
    RestAsTiles(0, g.job.total);
    PrefixOf(w.s.blocks, Tiles(w.n.ptr + w.n.size, w.n.count), g.earlier + Tiles(0, g.job.total));
    PrefixOf(w.port.programmed, Rest(w.n.count), g.job.planned + Plan(g.job.total));
    PlanNotLonger(w.n.count, g.job.total);
  }

  lemma {:induction false} AheadInStep(w: World, g: Goal)
    requires Ahead(w, g)
    requires w.port.programmed + Rest(w.n.count) == g.job.planned + Plan(g.job.total)
    ensures InStep(w, g) && Lead(w, g) == 1
  {
    var n := w.n.count - w.n.size;
    RestAsTiles(w.n.ptr + w.n.size, n);
    RestAsTiles(0, g.job.total);
    PlanStep([], w.n.count);
    assert |Rest(w.n.count)| == 1 + |Rest(n)|;
    PrefixOf(w.s.blocks, Tiles(w.n.ptr + w.n.size, n), g.earlier + Tiles(0, g.job.total));
    PrefixOf(w.port.programmed, Rest(w.n.count), g.job.planned + Plan(g.job.total));
    PlanNotLonger(w.n.count, g.job.total);
  }

  lemma PrefixOf<T>(a: seq<T>, b: seq<T>, c: seq<T>)
    requires a + b == c
    ensures a <= c && |a| == |c| - |b|
  {
  }

  lemma {:induction false} RestAsTiles(start: nat, remaining: nat)
    ensures |Tiles(start, remaining)| == |Rest(remaining)|
  {
    TilesMatchPlan(start, remaining);
  }

  lemma {:induction false} PlanNotLonger(n: nat, total: nat)
    requires n <= total
    ensures |Rest(n)| <= |Plan(total)|
    decreases total
  {
    if n > 0 {
      PlanShape(n);
      PlanShape(total);
    }
  }

  // ---- steps ---------------------------------------------------------------------------

  lemma StreamingRaises(w: World, g: Goal, s: Step)
    requires Streaming(w, g) && Raises(s)
    ensures Streaming(Next(w, s), g) || Refused(Next(w, s), g)
  {
    if s == RaiseNack { StreamingNack(w, g); } else { StreamingWaits(w, g, s); }
  }

  lemma StreamingNack(w: World, g: Goal)
    requires Streaming(w, g)
    ensures Streaming(Next(w, RaiseNack), g) || Refused(Next(w, RaiseNack), g)
  {
    TogetherInStep(w, g);
  }

  lemma StreamingWaits(w: World, g: Goal, s: Step)
    requires Streaming(w, g) && Raises(s) && s != RaiseNack
    ensures Streaming(Next(w, s), g)
  {
  }

  /** What serving one request changes. */
  predicate MovedShape(w: World, v: World, b: byte)
    requires w.port.bus.Active?
  {
    && v.h == w.h && v.n == w.n && v.calls == w.calls && v.s.blocks == w.s.blocks && v.s.refused == w.s.refused
    && v.r == w.r.(fl := w.r.fl.(txis := false, rxne := false))
    && v.port == Touch(w.port, MoveByte(w.port.bus.read, b))
    && Running(v.s.d, At(w) + 1, w.port.bus.left - 1)
    && (v.s.tcif <==> w.port.bus.left == 1)
  }

  lemma MovedFields(w: World, g: Goal, b: byte)
    requires Streaming(w, g) && (w.r.fl.txis || w.r.fl.rxne)
    requires b == if g.job.read then w.r.rxdr else w.mem[At(w)]
    ensures MovedShape(w, DmaMove(w), b)
    ensures DmaMove(w).mem == if g.job.read then w.mem[At(w) := b] else w.mem
  {
  }

  lemma ShapeMoves(w: World, v: World, g: Goal, b: byte)
    requires Streaming(w, g) && (w.r.fl.txis || w.r.fl.rxne)
    requires b == if g.job.read then w.r.rxdr else w.mem[At(w)]
    requires MovedShape(w, v, b)
    requires v.mem == if g.job.read then w.mem[At(w) := b] else w.mem
    ensures Streaming(v, g)
  {
    ByteMoved(w.port, g.job, w.mem[..At(w)], w.port.bus.left, b);
    assert v.mem[..At(w) + 1] == w.mem[..At(w)] + [b];
  }

  lemma StreamingMoves(w: World, g: Goal)
    requires Streaming(w, g)
    ensures Streaming(DmaMove(w), g)
  {
    if w.r.fl.txis || w.r.fl.rxne {
      var b := if g.job.read then w.r.rxdr else w.mem[At(w)];
      MovedFields(w, g, b);
      ShapeMoves(w, DmaMove(w), g, b);
    }
  }

  /** The restart is accepted: the stream went ready and unlocked before the callback ran. */
  lemma RestartFields(w: World, g: Goal)
    requires Streaming(w, g) && w.s.tcif && w.n.count > 0
    ensures var v := DmaIrq(w);
            && v.h == w.h && v.port == w.port && v.mem == w.mem && v.calls == w.calls
            && v.n == Counters(ChunkSize(w.n.count), w.n.count, w.n.ptr + w.n.size)
            && v.r == w.r.(dmaEn := false, ie := w.r.ie.(tci := true, stopi := true))
            && !v.s.tcif && !v.s.refused && Running(v.s.d, v.n.ptr, v.n.size)
            && v.s.blocks == w.s.blocks + [Block(v.n.ptr, v.n.size)]
  {
  }

  lemma StreamingRestarts(w: World, v: World, g: Goal)
    requires Streaming(w, g) && w.s.tcif && w.n.count > 0
    requires v.h == w.h && v.port == w.port && v.mem == w.mem && v.calls == w.calls
    requires v.n == Counters(ChunkSize(w.n.count), w.n.count, w.n.ptr + w.n.size)
    requires v.r == w.r.(dmaEn := false, ie := w.r.ie.(tci := true, stopi := true))
    requires !v.s.tcif && !v.s.refused && Running(v.s.d, v.n.ptr, v.n.size)
    requires v.s.blocks == w.s.blocks + [Block(v.n.ptr, v.n.size)]
    ensures Restarted(v, g)
  {
    NextTile(w.s.blocks, w.n.ptr + w.n.size, w.n.count, g.earlier + Tiles(0, g.job.total));
  }

  lemma StreamingFinishes(w: World, g: Goal)
    requires Streaming(w, g)
    ensures Streaming(DmaIrq(w), g) || Restarted(DmaIrq(w), g) || Drained(DmaIrq(w), g)
  {
    if w.s.tcif && w.n.count > 0 {
      RestartFields(w, g);
      StreamingRestarts(w, DmaIrq(w), g);
    }
  }

  /** A STOP served before the stream's own interrupt, or even before its last move. */
  lemma StreamingServes(w: World, g: Goal)
    requires Streaming(w, g)
    ensures Streaming(EventIrq(w), g) || Early(EventIrq(w), g) || Done(EventIrq(w), g)
  {
    if w.r.fl.stopf && w.r.ie.stopi {
      if w.port.bus.left == 0 { StreamingStops(w, g); } else { StreamingStopsEarly(w, g); }
    }
  }

  lemma StreamingStops(w: World, g: Goal)
    requires Streaming(w, g) && w.r.fl.stopf && w.r.ie.stopi && w.port.bus.left == 0
    ensures Done(EventIrq(w), g)
  {
    TogetherInStep(w, g);
    AllMoved(w.port, g.job, w.mem[..g.job.total]);
  }

  /** What the handler does with a STOP in a transfer without errors. */
  lemma StopFields(w: World, g: Goal)
    requires Streaming(w, g) && w.r.fl.stopf && w.r.ie.stopi
    ensures var v := EventIrq(w);
            && v.calls == [SuccessOf(g.job.read, g.mode)] && v.mem == w.mem && v.s == w.s && v.n == w.n
            && v.h == Handle(State.READY, NONE, NO_ISR, NO_ERRORS, false) && v.port == Touch(w.port, ClearStop)
            && v.r.fl == w.r.fl.(stopf := false, txis := false) && v.r.dmaEn
  {
  }

  lemma StreamingStopsEarly(w: World, g: Goal)
    requires Streaming(w, g) && w.r.fl.stopf && w.r.ie.stopi && w.port.bus.left > 0
    ensures Early(EventIrq(w), g)
  {
    TogetherInStep(w, g);
    StopFields(w, g);
    AllButLastMoved(w.port, g.job, w.mem[..g.job.total - 1]);
  }

  lemma EarlyFields(w: World, g: Goal)
    requires Early(w, g)
    ensures var v := DmaMove(w);
            && v.mem == w.mem[g.job.total - 1 := w.r.rxdr] && v.port == Touch(w.port, Rxdr(w.r.rxdr))
            && v.h == w.h && v.calls == w.calls && v.n == w.n && v.r.fl == NO_FLAGS
            && v.s == w.s.(d := v.s.d, tcif := true)
            && v.s.d.state == BUSY && v.s.d.stream.tcie && !v.s.d.stream.circ
  {
  }

  /** The byte lands where the others end. */
  lemma LateByte(mem: seq<byte>, data: seq<byte>, n: nat, b: byte)
    requires |mem| == |data| && 0 < n <= |mem| && mem[n - 1..] == data[n - 1..]
    ensures var m := mem[n - 1 := b];
            m[..n][..n - 1] == mem[..n - 1] && m[..n][n - 1] == b && m[n..] == data[n..]
  {
    assert mem[n - 1..][1..] == mem[n..] && data[n - 1..][1..] == data[n..];
  }

  lemma EarlyDelivers(w: World, v: World, g: Goal)
    requires Early(w, g)
    requires v.mem == w.mem[g.job.total - 1 := w.r.rxdr] && v.port == Touch(w.port, Rxdr(w.r.rxdr))
    requires v.s.blocks == w.s.blocks
    ensures Delivered(v, g)
  {
    LateByte(w.mem, g.data, g.job.total, w.r.rxdr);
  }

  lemma EarlyMoves(w: World, g: Goal)
    requires Early(w, g)
    ensures Done(DmaMove(w), g)
  {
    EarlyFields(w, g);
    EarlyDelivers(w, DmaMove(w), g);
  }

  lemma EarlyWaits(w: World, g: Goal, s: Step)
    requires Early(w, g) && s != MoveByDma
    ensures Next(w, s) == w
  {
  }

  lemma RestartedRaises(w: World, g: Goal, s: Step)
    requires Restarted(w, g) && Raises(s)
    ensures Restarted(Next(w, s), g) || Refused(Next(w, s), g)
  {
    if s == RaiseNack { RestartedNack(w, g); } else { RestartedWaits(w, g, s); }
  }

  lemma RestartedNack(w: World, g: Goal)
    requires Restarted(w, g)
    ensures Restarted(Next(w, RaiseNack), g) || Refused(Next(w, RaiseNack), g)
  {
    AheadInStep(w, g);
  }

  lemma RestartedWaits(w: World, g: Goal, s: Step)
    requires Restarted(w, g) && Raises(s) && s != RaiseNack
    ensures Restarted(Next(w, s), g)
  {
  }

  lemma ReloadFields(w: World, g: Goal)
    requires Restarted(w, g) && w.r.fl.tcr
    ensures var v := EventIrq(w);
            && v.h == w.h && v.mem == w.mem && v.calls == w.calls && v.s == w.s
            && v.port == Touch(w.port, ChunkOf(w.r.sadd, w.n.count, NoStartStop))
            && v.n == w.n.(count := w.n.count - w.n.size)
            && v.r.fl == w.r.fl.(tcr := false, tc := false) && v.r.dmaEn && v.r.ie == w.r.ie.(tci := false)
            && v.r.sadd == w.r.sadd
  {
  }

  /** The TCR handler programs exactly the block that the stream was restarted for. */
  lemma RestartedServes(w: World, g: Goal)
    requires Restarted(w, g)
    ensures Restarted(EventIrq(w), g) || Streaming(EventIrq(w), g)
  {
    if w.r.fl.tcr {
      ReloadFields(w, g);
      RestartedReloads(w, EventIrq(w), g);
    }
  }

  lemma RestartedReloads(w: World, v: World, g: Goal)
    requires Restarted(w, g)
    requires v.h == w.h && v.mem == w.mem && v.calls == w.calls && v.s == w.s
    requires v.port == Touch(w.port, ChunkOf(w.r.sadd, w.n.count, NoStartStop))
    requires v.n == w.n.(count := w.n.count - w.n.size)
    requires v.r.fl == w.r.fl.(tcr := false, tc := false) && v.r.dmaEn && v.r.ie == w.r.ie.(tci := false)
    requires v.r.sadd == w.r.sadd
    ensures Streaming(v, g)
  {
    Reloaded(w.port, g.job, w.mem[..w.n.ptr]);
    assert v.port.bus == Active(g.job.addr, g.job.read, v.n.size, if v.n.count > 0 then Reload else AutoEnd);
    assert At(v) == w.n.ptr;
    assert Together(v, g);
  }

  lemma DrainedRaises(w: World, g: Goal, s: Step)
    requires Drained(w, g) && Raises(s)
    ensures Drained(Next(w, s), g) || Refused(Next(w, s), g)
  {
    TogetherInStep(w, g);
  }

  lemma DrainedServes(w: World, g: Goal)
    requires Drained(w, g)
    ensures Drained(EventIrq(w), g) || Done(EventIrq(w), g)
  {
    TogetherInStep(w, g);
    if w.r.fl.stopf {
      AllMoved(w.port, g.job, w.mem[..g.job.total]);
    }
  }

  lemma RefusedRaises(w: World, g: Goal, s: Step)
    requires Refused(w, g) && Raises(s)
    ensures Refused(Next(w, s), g)
  {
  }

  lemma RefusedServes(w: World, g: Goal)
    requires Refused(w, g)
    ensures Refused(EventIrq(w), g) || Winding(EventIrq(w), g) || Done(EventIrq(w), g)
  {
  }

  /** A block that was complete when the transfer stopped is still followed by a restart. */
  lemma {:induction false} ParkedFinishes(w: World, g: Goal)
    requires Parked(w, g)
    ensures var v := DmaIrq(w);
            && Parked(v, g) && v.h == w.h && v.port == w.port && v.r.fl == w.r.fl
            && v.r.ie.nacki == w.r.ie.nacki && v.r.ie.txi == w.r.ie.txi && v.r.ie.rxi == w.r.ie.rxi
            && (w.r.ie.stopi ==> v.r.ie.stopi)
  {
    if w.s.tcif && w.n.count > 0 {
      NextTile(w.s.blocks, w.n.ptr + w.n.size, w.n.count, g.earlier + Tiles(0, g.job.total));
      var v := DmaIrq(w);
      var rest := Tiles(v.n.ptr + v.n.size, v.n.count - v.n.size);
      PrefixOf(v.s.blocks, rest, g.earlier + Tiles(0, g.job.total));
    }
  }

  lemma RefusedFinishes(w: World, g: Goal)
    requires Refused(w, g)
    ensures Refused(DmaIrq(w), g)
  {
    ParkedFinishes(w, g);
  }

  // ---- steps of an aborting transfer -----------------------------------------------------

  lemma AbortingFinishes(w: World, g: Goal)
    requires Aborting(w, g)
    ensures Aborting(DmaIrq(w), g)
  {
    ParkedFinishes(w, g);
  }

  lemma AbortingRaises(w: World, g: Goal, s: Step)
    requires Aborting(w, g) && Raises(s)
    ensures Aborting(Next(w, s), g)
  {
  }

  lemma AbortingMoves(w: World, g: Goal)
    requires Aborting(w, g)
    ensures Aborting(DmaMove(w), g)
  {
  }

  lemma AbortingServes(w: World, g: Goal)
    requires Aborting(w, g)
    ensures Aborting(EventIrq(w), g) || Winding(EventIrq(w), g) || Done(EventIrq(w), g)
  {
  }

  lemma AbortAgain(w: World, g: Goal)
    requires Aborting(w, g)
    ensures Aborting(MasterAbort(w), g)
  {
  }

  lemma RefusedAborts(w: World, g: Goal)
    requires Refused(w, g)
    ensures Refused(MasterAbort(w), g) || Aborting(MasterAbort(w), g)
  {
  }

  lemma StreamingAborts(w: World, g: Goal)
    requires Streaming(w, g)
    ensures Streaming(MasterAbort(w), g) || Aborting(MasterAbort(w), g)
  {
    TogetherInStep(w, g);
  }

  lemma RestartedAborts(w: World, g: Goal)
    requires Restarted(w, g)
    ensures Restarted(MasterAbort(w), g) || Aborting(MasterAbort(w), g)
  {
    AheadInStep(w, g);
  }

  lemma DrainedAborts(w: World, g: Goal)
    requires Drained(w, g)
    ensures Drained(MasterAbort(w), g) || Aborting(MasterAbort(w), g)
  {
    TogetherInStep(w, g);
  }

  lemma AbortKeeps(w: World, g: Goal)
    requires Inv(w, g)
    ensures Inv(MasterAbort(w), g)
  {
    if Streaming(w, g) { StreamingAborts(w, g); }
    else if Restarted(w, g) { RestartedAborts(w, g); }
    else if Drained(w, g) { DrainedAborts(w, g); }
    else if Refused(w, g) { RefusedAborts(w, g); }
    else if Aborting(w, g) { AbortAgain(w, g); }
  }

  lemma WindingEnds(w: World, g: Goal)
    requires Winding(w, g)
    ensures Done(DmaIrq(w), g)
  {
  }

  lemma WindingWaits(w: World, g: Goal, s: Step)
    requires Winding(w, g) && s != ServeDmaIrq
    ensures Next(w, s) == w
  {
  }

  lemma DoneStays(w: World, g: Goal, s: Step)
    requires Done(w, g)
    ensures Done(Next(w, s), g) && Next(w, s).calls == w.calls
  {
  }

  // ---- the stream's interrupt handler ----------------------------------------------------

  const TRANSFER_COMPLETE := IrqFlags(false, false, false, false, true)

  /** What the completion callback does to the stream: restart it, unless this was the last block. */
  function CallbackOps(w: World): seq<Op> {
    if w.n.count == 0 then [] else [StartIt(w.n.ptr + w.n.size, ChunkSize(w.n.count))]
  }

  lemma CompletionIrq(d: Dma, b: Behaviour)
    requires d.stream.tcie && d.state == BUSY && d.error == NO_ERROR && d.cb.cplt
    requires DoAll(Finished(d), b.cplt).error == NO_ERROR
    ensures Irq(d, TRANSFER_COMPLETE, b) == DoAll(Finished(d), b.cplt)
  {
    assert IrqErrors(d, TRANSFER_COMPLETE) == d;
    assert IrqHalf(d, TRANSFER_COMPLETE, b.half) == d;
    assert Finished(d).cb.cplt;
    assert IrqComplete(d, b) == DoAll(Finished(d), b.cplt);
  }

  lemma {:induction false} CallbackDone(d: Dma, w: World)
    ensures DoAll(d, CallbackOps(w))
         == if w.n.count == 0 then d else DoStartIt(d, w.n.ptr + w.n.size, ChunkSize(w.n.count)).0
  {
    if w.n.count > 0 {
      var op := CallbackOps(w)[0];
      assert CallbackOps(w)[1..] == [];
      assert DoAll(Do(d, op).0, []) == Do(d, op).0;
    }
  }

  lemma StepOnStream(w: World)
    requires w.s.tcif && w.s.d.stream.tcie && w.s.d.state != ABORT
    ensures DmaIrq(w).s.d
         == if w.n.count == 0 then Finished(w.s.d)
            else DoStartIt(Finished(w.s.d), w.n.ptr + w.n.size, ChunkSize(w.n.count)).0
  {
  }

  /** The stream of the handle after an abort was confirmed: I2C_DMAAbort clears its abort callback. */
  function AbortConfirmed(d: Dma): Dma {
    if d.cb.abort then d.(cb := d.cb.(abort := false)) else d
  }

  lemma AbortOnStream(w: World)
    requires w.s.tcif && w.s.d.stream.tcie && w.s.d.state == ABORT
    ensures DmaIrq(w).s.d == AbortConfirmed(Aborted(w.s.d))
  {
  }

  lemma {:induction false} AbortIrq(d: Dma, b: Behaviour)
    requires d.stream.tcie && d.state == ABORT && b.abort == []
    ensures Irq(d, TRANSFER_COMPLETE, b) == Aborted(d)
  {
    assert IrqErrors(d, TRANSFER_COMPLETE) == d;
    assert IrqHalf(d, TRANSFER_COMPLETE, b.half) == d;
  }

  /**
   The step above is the DMA driver's interrupt handler on a transfer-complete flag, with the
   callbacks of this driver: the completion callback restarts the stream, and the abort callback,
   which makes no DMA call, clears itself.
   */
  lemma {:induction false} DmaIrqIsTheHandler(w: World, b: Behaviour)
    requires w.s.tcif && w.s.d.stream.tcie
    requires w.s.d.state == BUSY ==> w.s.d.error == NO_ERROR && w.s.d.cb.cplt
    requires w.s.d.state == BUSY || w.s.d.state == ABORT
    requires b.cplt == CallbackOps(w) && b.abort == []
    ensures var d := Irq(w.s.d, TRANSFER_COMPLETE, b);
            DmaIrq(w).s.d == if w.s.d.state == ABORT then AbortConfirmed(d) else d
  {
    if w.s.d.state == ABORT {
      AbortOnStream(w);
      AbortIrq(w.s.d, b);
    } else {
      CallbackDone(Finished(w.s.d), w);
      StepOnStream(w);
      CompletionIrq(w.s.d, b);
    }
  }

  // ---- every run -----------------------------------------------------------------------

  lemma {:induction false} InvStep(w: World, g: Goal, s: Step)
    requires Inv(w, g)
    ensures Inv(Next(w, s), g)
  {
    if Done(w, g) {
      DoneStays(w, g, s);
    } else if Early(w, g) {
      if s == MoveByDma { EarlyMoves(w, g); } else { EarlyWaits(w, g, s); }
    } else if Winding(w, g) {
      if s == ServeDmaIrq { WindingEnds(w, g); } else { WindingWaits(w, g, s); }
    } else {
      match s
      case ServeEvent => ServeKeeps(w, g);
      case ServeDmaIrq =>
        if Streaming(w, g) { StreamingFinishes(w, g); }
        else if Refused(w, g) { RefusedFinishes(w, g); }
        else if Aborting(w, g) { AbortingFinishes(w, g); }
      case MoveByDma =>
        if Streaming(w, g) { StreamingMoves(w, g); }
        else if Aborting(w, g) { AbortingMoves(w, g); }
      case UserAbort => AbortKeeps(w, g);
      case _ => RaiseKeeps(w, g, s);
    }
  }

  lemma {:induction false} ServeKeeps(w: World, g: Goal)
    requires Streaming(w, g) || Restarted(w, g) || Drained(w, g) || Refused(w, g) || Aborting(w, g)
    ensures Inv(EventIrq(w), g)
  {
    if Streaming(w, g) { StreamingServes(w, g); }
    else if Restarted(w, g) { RestartedServes(w, g); }
    else if Drained(w, g) { DrainedServes(w, g); }
    else if Refused(w, g) { RefusedServes(w, g); }
    else { AbortingServes(w, g); }
  }

  lemma {:induction false} RaiseKeeps(w: World, g: Goal, s: Step)
    requires Streaming(w, g) || Restarted(w, g) || Drained(w, g) || Refused(w, g) || Aborting(w, g)
    requires Raises(s)
    ensures Inv(Next(w, s), g)
  {
    if Streaming(w, g) { StreamingRaises(w, g, s); }
    else if Restarted(w, g) { RestartedRaises(w, g, s); }
    else if Drained(w, g) { DrainedRaises(w, g, s); }
    else if Refused(w, g) { RefusedRaises(w, g, s); }
    else { AbortingRaises(w, g, s); }
  }

  lemma {:induction false} InvAlways(w: World, g: Goal, steps: seq<Step>)
    requires Inv(w, g)
    ensures Inv(Play(w, steps), g)
  {
    if steps != [] {
      var n := |steps| - 1;
      InvAlways(w, g, steps[..n]);
      InvStep(Play(w, steps[..n]), g, steps[n]);
    }
  }

  lemma {:induction false} InvInStep(w: World, g: Goal)
    requires Inv(w, g)
    ensures InStep(w, g)
  {
    if Streaming(w, g) || Drained(w, g) {
      TogetherInStep(w, g);
    } else if Restarted(w, g) {
      AheadInStep(w, g);
    }
  }

  /** The callbacks that a transfer installs, on a stream without an error while it runs. */
  predicate Handled(d: Dma) {
    d.cb.cplt && !d.cb.half && d.cb.error && (d.state == BUSY ==> d.error == NO_ERROR)
  }

  lemma HandledAfterError(w: World, code: Errors)
    requires Handled(w.s.d)
    ensures Handled(ItError(w, code).s.d)
  {
  }

  lemma HandledAfterStop(w: World, af: bool)
    requires Handled(w.s.d)
    ensures Handled(MasterCplt(w, af).s.d)
  {
    var v := CpltReset(w, af);
    HandledAfterError(v, v.h.err);
  }

  lemma HandledAfterIt(w: World)
    requires Handled(w.s.d)
    ensures Handled(IsrIt(w).s.d)
  {
    var v := w.(h := w.h.(locked := true));
    HandledAfterError(v, NO_ERRORS.(size := true));
    HandledAfterStop(ItData(v, w.r.fl, w.r.ie), w.r.fl.af);
  }

  lemma HandledAfterServing(w: World)
    requires Handled(w.s.d)
    ensures Handled(EventIrq(w).s.d)
  {
    HandledAfterIt(w);
    var v := w.(h := w.h.(locked := true));
    HandledAfterError(v.(r := v.r.(ie := v.r.ie.(tci := false))), NO_ERRORS.(size := true));
    HandledAfterStop(v, w.r.fl.af);
  }

  lemma HandledAfterDma(w: World)
    requires Handled(w.s.d)
    ensures Handled(DmaIrq(w).s.d) && Handled(DmaMove(w).s.d)
  {
  }

  lemma {:induction false} HandledAlways(w: World, steps: seq<Step>)
    requires Handled(w.s.d)
    ensures Handled(Play(w, steps).s.d)
  {
    if steps != [] {
      var n := |steps| - 1;
      HandledAlways(w, steps[..n]);
      HandledAfterServing(Play(w, steps[..n]));
      HandledAfterDma(Play(w, steps[..n]));
    }
  }

  /**
   So in every run of a DMA transfer: whenever the interrupt of the stream is pending, its step is the
   DMA driver's handler with the callbacks that the transfer has installed.
   */
  lemma {:induction false} IrqIsTheHandlerInRuns(w: World, read: bool, addr: u16, size: u16, steps: seq<Step>,
                                                 b: Behaviour)
    requires Accepts(w) && Quiet(w) && 0 < size <= |w.mem|
    requires var v := Play(MasterDma(w, read, addr, size), steps);
             v.s.tcif && v.s.d.stream.tcie && b.cplt == CallbackOps(v) && b.abort == []
    ensures var v := Play(MasterDma(w, read, addr, size), steps);
            var d := Irq(v.s.d, TRANSFER_COMPLETE, b);
            DmaIrq(v).s.d == if v.s.d.state == ABORT then AbortConfirmed(d) else d
  {
    var u, g := MasterDma(w, read, addr, size), MasterGoal(w, read, addr, size);
    MasterStarts(w, read, addr, size);
    InvAlways(u, g, steps);
    HandledAlways(u, steps);
    DmaIrqIsTheHandler(Play(u, steps), b);
  }
}
