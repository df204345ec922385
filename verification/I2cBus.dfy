/**
 The master side of the I2C peripheral as a ghost model: what the writes to its CR2 and data
 registers put on the bus (UM10204, sections 3.1.4 and 3.1.6). NBYTES counts down on each data
 byte; with AUTOEND the peripheral sends the STOP itself once the count is zero, with RELOAD
 it waits for a new count, with neither it waits for a repeated START.
 */
module I2cBus {
  import opened Words

  const MAX_NBYTE_SIZE := 255

  datatype EndMode = Reload | AutoEnd | SoftEnd

  datatype StartStop = NoStartStop | GenerateStop | GenerateStartRead | GenerateStartWrite

  /** A software access that the peripheral reacts to. */
  datatype Access =
    | Cr2(addr: u16, nbytes: byte, mode: EndMode, request: StartStop)
    | Txdr(b: byte)
    | Rxdr(b: byte)
    | ClearStop

  /** What an observer sees on the wires. */
  datatype Symbol = Start(addr: u16, read: bool) | Data(b: byte) | Stop

  /**
   `Stopping`: a STOP is on its way after a NACK or a software request. `Settling`: the transfer
   is over and its STOP acknowledged, but its last byte has not been read out of RXDR.
   */
  datatype Bus =
    | Idle
    | Active(addr: u16, read: bool, left: nat, mode: EndMode)
    | Stopping(read: bool, spare: nat)
    | Settling
    | Broken

  function Drive(bus: Bus, a: Access): Bus {
    match a
    case Cr2(addr, n, mode, request) =>
      (match request
       case NoStartStop =>
         if bus.Active? && bus.left == 0 && bus.mode == Reload && bus.addr == addr
         then Active(addr, bus.read, n, mode) else Broken
       case GenerateStop =>
         if bus.Active? then Stopping(bus.read, if bus.read then n else 0)
         else bus
       case _ =>
         if bus == Idle || (bus.Active? && bus.left == 0 && bus.mode == SoftEnd)
         then Active(addr, request == GenerateStartRead, n, mode) else Broken)
    case Txdr(_) =>
      if bus.Active? && !bus.read && bus.left > 0 then bus.(left := bus.left - 1) else Broken
    case Rxdr(_) =>
      if bus.Active? && bus.read && bus.left > 0 then bus.(left := bus.left - 1)
      else if bus.Stopping? && bus.spare > 0 then bus.(spare := bus.spare - 1)
      else if bus.Settling? then Idle
      else Broken
    case ClearStop =>
      if bus.Stopping? || (bus.Active? && bus.left == 0 && bus.mode == AutoEnd) then Idle
      else if bus.Active? && bus.read && bus.left == 1 && bus.mode == AutoEnd then Settling
      else Broken
  }

  /** A NACK makes the peripheral stop by itself. */
  function Nacked(bus: Bus): Bus {
    if bus.Active? then Stopping(bus.read, 0) else bus
  }

  /** The symbols that an access adds to the wire. */
  function Emit(a: Access): seq<Symbol> {
    match a
    case Cr2(addr, _, _, GenerateStartRead) => [Start(addr, true)]
    case Cr2(addr, _, _, GenerateStartWrite) => [Start(addr, false)]
    case Cr2(_, _, _, _) => []
    case Txdr(b) => [Data(b)]
    case Rxdr(b) => [Data(b)]
    case ClearStop => [Stop]
  }

  function Bytes(bs: seq<byte>): (r: seq<Symbol>)
    ensures |r| == |bs|
  {
    seq(|bs|, i requires 0 <= i < |bs| => Data(bs[i]))
  }

  lemma BytesSnoc(bs: seq<byte>, b: byte)
    ensures Bytes(bs + [b]) == Bytes(bs) + [Data(b)]
  {
  }

  /** The count and end mode to program when `remaining` bytes are still to be moved. */
  function ChunkSize(remaining: nat): (n: byte)
    ensures n <= remaining && (remaining > 0 ==> n > 0)
  {
    if remaining > MAX_NBYTE_SIZE then MAX_NBYTE_SIZE else remaining
  }

  function ChunkMode(remaining: nat): EndMode {
    if remaining > MAX_NBYTE_SIZE then Reload else AutoEnd
  }

  datatype Chunk = Chunk(nbytes: byte, mode: EndMode)

  /** The programmings that move `size` bytes. */
  function Plan(size: nat): seq<Chunk> {
    if size <= MAX_NBYTE_SIZE then [Chunk(size, AutoEnd)]
    else [Chunk(MAX_NBYTE_SIZE, Reload)] + Plan(size - MAX_NBYTE_SIZE)
  }

  function TotalBytes(chunks: seq<Chunk>): nat {
    if chunks == [] then 0 else chunks[0].nbytes as nat + TotalBytes(chunks[1..])
  }

  /**
   The plan has ceil(size / 255) programmings: full ones with RELOAD, then one of 1 to 255
   bytes with AUTOEND; together they are exactly the buffer.
   */
  lemma {:induction false} PlanShape(size: nat)
    requires size > 0
    ensures var plan := Plan(size);
            && |plan| == (size + 254) / 255
            && (forall i :: 0 <= i < |plan| - 1 ==> plan[i] == Chunk(255, Reload))
            && 1 <= plan[|plan| - 1].nbytes <= 255 && plan[|plan| - 1].mode == AutoEnd
            && TotalBytes(plan) == size
  {
    if size > MAX_NBYTE_SIZE {
      PlanShape(size - MAX_NBYTE_SIZE);
      var rest := Plan(size - MAX_NBYTE_SIZE);
      assert Plan(size)[1..] == rest;
    } else {
      assert Plan(size)[1..] == [];
    }
  }

  /** The peripheral as software sees it: the bus, the wire so far, and what was programmed. */
  datatype Port = Port(bus: Bus, wire: seq<Symbol>, programmed: seq<Chunk>)

  function Touch(p: Port, a: Access): Port {
    Port(Drive(p.bus, a), p.wire + Emit(a),
         if a.Cr2? && a.request != GenerateStop then p.programmed + [Chunk(a.nbytes, a.mode)] else p.programmed)
  }

  /** Programming the next chunk of `remaining` bytes. */
  function ChunkOf(addr: u16, remaining: nat, request: StartStop): Access {
    Cr2(addr, ChunkSize(remaining), ChunkMode(remaining), request)
  }

  function MoveByte(read: bool, b: byte): Access {
    if read then Rxdr(b) else Txdr(b)
  }

  /** The programmings still to come when `remaining` bytes lie beyond the current chunk. */
  function Rest(remaining: nat): seq<Chunk> {
    if remaining == 0 then [] else Plan(remaining)
  }

  /** A transfer of `total` bytes: its slave and direction, and the wire and programmings before it. */
  datatype Job = Job(addr: u16, read: bool, head: seq<Symbol>, planned: seq<Chunk>, total: nat)

  /** In the middle of `job` the bytes `moved` have passed and `size` are left of the current chunk. */
  predicate Midway(p: Port, job: Job, moved: seq<byte>, size: nat) {
    && |moved| + size <= job.total
    && p.bus == Active(job.addr, job.read, size, if job.total - |moved| > size then Reload else AutoEnd)
    && p.wire == job.head + Bytes(moved)
    && p.programmed + Rest(job.total - |moved| - size) == job.planned + Plan(job.total)
  }

  /** The job that a START on an idle bus, or a repeated one, begins. */
  function StartedJob(p: Port, read: bool, addr: u16, total: nat): Job {
    Job(addr, read, p.wire + [Start(addr, read)], p.programmed, total)
  }

  lemma Begun(p: Port, read: bool, addr: u16, total: nat)
    requires p.bus == Idle || (p.bus.Active? && p.bus.left == 0 && p.bus.mode == SoftEnd)
    ensures var request := if read then GenerateStartRead else GenerateStartWrite;
            Midway(Touch(p, ChunkOf(addr, total, request)), StartedJob(p, read, addr, total), [], ChunkSize(total))
  {
    var request := if read then GenerateStartRead else GenerateStartWrite;
    var q := Touch(p, ChunkOf(addr, total, request));
    assert q.bus == Active(addr, read, ChunkSize(total), ChunkMode(total));
    assert q.wire == p.wire + [Start(addr, read)] + Bytes([]);
    PlanStep(p.programmed, total);
  }

  /** Programming the data phase behind the memory address, without a new START. */
  lemma BegunBehind(p: Port, addr: u16, total: nat)
    requires p.bus == Active(addr, false, 0, Reload) && total > 0
    ensures Midway(Touch(p, ChunkOf(addr, total, NoStartStop)), Job(addr, false, p.wire, p.programmed, total),
                   [], ChunkSize(total))
  {
    assert Bytes([]) == [];
    PlanStep(p.programmed, total);
  }

  lemma {:induction false} PlanStep(before: seq<Chunk>, remaining: nat)
    ensures before + [Chunk(ChunkSize(remaining), ChunkMode(remaining))] + Rest(remaining - ChunkSize(remaining))
            == before + Plan(remaining)
  {
    PlanHead(remaining);
  }

  lemma {:induction false} PlanHead(remaining: nat)
    ensures Plan(remaining)
            == [Chunk(ChunkSize(remaining), ChunkMode(remaining))] + Rest(remaining - ChunkSize(remaining))
  {
  }

  lemma ByteMoved(p: Port, job: Job, moved: seq<byte>, size: nat, b: byte)
    requires Midway(p, job, moved, size) && size > 0
    ensures Midway(Touch(p, MoveByte(job.read, b)), job, moved + [b], size - 1)
  {
    BytesSnoc(moved, b);
  }

  lemma Reloaded(p: Port, job: Job, moved: seq<byte>)
    requires Midway(p, job, moved, 0) && |moved| < job.total
    ensures Midway(Touch(p, ChunkOf(job.addr, job.total - |moved|, NoStartStop)), job, moved,
                   ChunkSize(job.total - |moved|))
  {
    PlanStep(p.programmed, job.total - |moved|);
  }

  /** The peripheral once the job is complete: the bytes, one STOP, and the planned chunks. */
  function Completed(job: Job, moved: seq<byte>): Port {
    Port(Idle, job.head + Bytes(moved) + [Stop], job.planned + Plan(job.total))
  }

  lemma AllMoved(p: Port, job: Job, moved: seq<byte>)
    requires Midway(p, job, moved, 0) && |moved| == job.total
    ensures Touch(p, ClearStop) == Completed(job, moved)
  {
    assert p.programmed + [] == p.programmed;
  }

  /** The STOP acknowledged too early: the last byte of a read is still in RXDR. */
  function Settled(job: Job, moved: seq<byte>): Port {
    Port(Settling, job.head + Bytes(moved) + [Stop], job.planned + Plan(job.total))
  }

  lemma AllButLastMoved(p: Port, job: Job, moved: seq<byte>)
    requires Midway(p, job, moved, 1) && |moved| + 1 == job.total && job.read
    ensures Touch(p, ClearStop) == Settled(job, moved)
  {
    assert p.programmed + [] == p.programmed;
  }
}
