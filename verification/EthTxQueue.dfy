/**
 The transmit ring as a queue. The copy loop of the interface layer, the hand-over loop of the
 driver and an in-order DMA take turns step by step; in every interleaving the descriptors that
 the DMA owns are one arc that ends just before TxDesc, and the frames leave whole and in order.
 */
module EthTxQueue {
  import opened Hal
  import opened Sequences
  import opened Words
  import opened EthFrames
  import opened EthRing
  import opened EthTx

  // ---- segments by index ---------------------------------------------------------------

  /** Segment `i` as the driver computes it: by division and from the index alone. */
  function SegmentOf(frame: Frame, i: nat): Segment
    requires i < BufCount(|frame|)
  {
    Segment(i == 0, i == BufCount(|frame|) - 1, Chunk(frame, i))
  }

  function Chunk(frame: Frame, i: nat): (c: seq<byte>)
    requires i < BufCount(|frame|)
    ensures |c| == SegmentSize(|frame|, i) <= ETH_TX_BUF_SIZE
  {
    Reach(|frame|, i);
    frame[i * ETH_TX_BUF_SIZE..i * ETH_TX_BUF_SIZE + SegmentSize(|frame|, i)]
  }

  lemma Reach(length: nat, i: nat)
    requires i < BufCount(length)
    ensures i * ETH_TX_BUF_SIZE + SegmentSize(length, i) <= length && SegmentSize(length, i) <= ETH_TX_BUF_SIZE
    ensures i == BufCount(length) - 1 ==> i * ETH_TX_BUF_SIZE + SegmentSize(length, i) == length
    ensures i < BufCount(length) - 1 ==> SegmentSize(length, i) == ETH_TX_BUF_SIZE
  {
    if length > 0 { CountCovers(length); }
  }

  lemma CountStep(length: nat)
    requires length > ETH_TX_BUF_SIZE
    ensures BufCount(length) == 1 + BufCount(length - ETH_TX_BUF_SIZE)
  {
    CountCovers(length);
    CountCovers(length - ETH_TX_BUF_SIZE);
  }

  lemma ChunkOfRest(frame: Frame, i: nat)
    requires |frame| > ETH_TX_BUF_SIZE && 0 < i < BufCount(|frame|)
    ensures i - 1 < BufCount(|frame| - ETH_TX_BUF_SIZE)
    ensures Chunk(frame, i) == Chunk(frame[ETH_TX_BUF_SIZE..], i - 1)
  {
    CountStep(|frame|);
    Reach(|frame|, i);
    Reach(|frame| - ETH_TX_BUF_SIZE, i - 1);
    var rest, from, size := frame[ETH_TX_BUF_SIZE..], (i - 1) * ETH_TX_BUF_SIZE, SegmentSize(|frame|, i);
    assert SegmentSize(|rest|, i - 1) == size && i * ETH_TX_BUF_SIZE == ETH_TX_BUF_SIZE + from;
    SliceOfRest(frame, ETH_TX_BUF_SIZE, from, from + size);
  }

  lemma SliceOfRest(s: seq<byte>, at: nat, from: nat, to: nat)
    requires from <= to && at + to <= |s|
    ensures s[at..][from..to] == s[at + from..at + to]
  {
  }

  /** The driver's arithmetic cuts a frame as `Cut` does. */
  lemma {:induction false} CutByIndex(frame: Frame, first: bool, i: nat)
    requires i < BufCount(|frame|)
    ensures |Cut(frame, first)| == BufCount(|frame|)
    ensures Cut(frame, first)[i] == SegmentOf(frame, i).(fs := first && i == 0)
    decreases |frame|
  {
    Reach(|frame|, i);
    if |frame| <= ETH_TX_BUF_SIZE {
      assert Chunk(frame, 0) == frame;
    } else {
      var rest := frame[ETH_TX_BUF_SIZE..];
      CountStep(|frame|);
      if i > 0 {
        ChunkOfRest(frame, i);
        CutByIndex(rest, false, i - 1);
      } else {
        assert Chunk(frame, 0) == frame[..ETH_TX_BUF_SIZE];
        CutByIndex(rest, false, 0);
      }
    }
  }

  // ---- the machine ---------------------------------------------------------------------

  /** What the CPU is doing: nothing, copying chunk `i` into descriptor `at`, handing segment `i` over. */
  datatype Cpu =
    | Resting
    | Copying(frame: Frame, i: nat, at: nat)
    | Handing(frame: Frame, i: nat)

  /** Descriptors and their buffers, and where the CPU and the DMA are. */
  datatype Ring = Ring(d: seq<Desc>, bufs: seq<seq<byte>>, tx: nat, dma: nat)

  /** `suspended`: the DMA met a descriptor it does not own and waits for a poll demand. */
  datatype World = World(r: Ring, cpu: Cpu, suspended: bool, sent: seq<Segment>, accepted: seq<Frame>)

  datatype Step = Output(frame: Frame) | CopyChunk | HandSegment | DmaStep

  predicate ValidRing(r: Ring) {
    && Linked(r.d) && |r.bufs| == |r.d| && r.tx < |r.d| && r.dma < |r.d|
    && forall i :: 0 <= i < |r.bufs| ==> |r.bufs[i]| == ETH_TX_BUF_SIZE
  }

  predicate ValidCpu(r: Ring, c: Cpu) {
    match c
    case Resting => true
    case Copying(frame, i, at) => i < BufCount(|frame|) && at < |r.d|
    case Handing(frame, i) => |frame| > 0 && i < BufCount(|frame|)
  }

  predicate Valid(w: World) {
    ValidRing(w.r) && ValidCpu(w.r, w.cpu)
  }

  /** low_level_output enters: the first chunk goes to TxDesc's buffer. */
  function Enter(w: World, frame: Frame): World {
    if w.cpu.Resting? then w.(cpu := Copying(frame, 0, w.r.tx)) else w
  }

  /** One chunk is copied if its buffer is free; after the last, HAL_ETH_TransmitFrame is entered. */
  function Copy(w: World): World
    requires Valid(w) && w.cpu.Copying?
  {
    var Copying(frame, i, at) := w.cpu;
    if w.r.d[at].own then w.(cpu := Resting)
    else
      var v := w.(r := w.r.(bufs := w.r.bufs[at := Overlay(w.r.bufs[at], Chunk(frame, i))]));
      if i + 1 < BufCount(|frame|) then v.(cpu := Copying(frame, i + 1, Follow(w.r.d, at, 1)))
      else if |frame| == 0 || w.r.d[w.r.tx].own then v.(cpu := Resting)
      else v.(cpu := Handing(frame, 0), accepted := w.accepted + [frame])
  }

  /** One pass of the hand-over loop; after the last, a suspended DMA is resumed. */
  function Hand(w: World): World
    requires Valid(w) && w.cpu.Handing?
  {
    var Handing(frame, i) := w.cpu;
    var tx := w.r.tx;
    var v := w.(r := w.r.(d := w.r.d[tx := Handed(w.r.d[tx], |frame|, i)], tx := Follow(w.r.d, tx, 1)));
    if i + 1 < BufCount(|frame|) then v.(cpu := Handing(frame, i + 1))
    else v.(cpu := Resting, suspended := false)
  }

  function Content(r: Ring, i: nat): Segment
    requires |r.bufs| == |r.d| && i < |r.d|
  {
    Segment(r.d[i].fs, r.d[i].ls, r.bufs[i][..if r.d[i].size <= |r.bufs[i]| then r.d[i].size else |r.bufs[i]|])
  }

  /** The DMA sends the descriptor it has reached, if that is its own, and gives it back. */
  function Send(w: World): World
    requires Valid(w)
  {
    var i := w.r.dma;
    if w.suspended then w
    else if !w.r.d[i].own then w.(suspended := true)
    else w.(r := w.r.(d := w.r.d[i := w.r.d[i].(own := false)], dma := Follow(w.r.d, i, 1)),
            sent := w.sent + [Content(w.r, i)])
  }

  function Next(w: World, s: Step): World
    requires Valid(w)
  {
    match s
    case Output(frame) => Enter(w, frame)
    case CopyChunk => if w.cpu.Copying? then Copy(w) else w
    case HandSegment => if w.cpu.Handing? then Hand(w) else w
    case DmaStep => Send(w)
  }

  lemma NextValid(w: World, s: Step)
    requires Valid(w)
    ensures Valid(Next(w, s))
  {
    var v := Next(w, s);
    assert |v.r.d| == |w.r.d|;
    forall i | 0 <= i < |v.r.d| ensures LinkedAt(v.r.d, i) {
      assert LinkedAt(w.r.d, i);
    }
  }

  function Play(w: World, steps: seq<Step>): (v: World)
    requires Valid(w)
    ensures Valid(v)
  {
    if steps == [] then w
    else
      var u := Play(w, steps[..|steps| - 1]);
      NextValid(u, steps[|steps| - 1]);
      Next(u, steps[|steps| - 1])
  }

  // ---- the arc that the DMA owns -------------------------------------------------------

  /** `k` descriptors from the DMA's position on are its own, and the last of them is just before TxDesc. */
  predicate OwnsArc(d: seq<Desc>, dma: nat, tx: nat, k: nat)
    requires dma < |d|
  {
    && k <= |d| && At(|d|, dma, k) == tx
    && forall i :: 0 <= i < |d| ==> (d[i].own <==> Dist(|d|, dma, i) < k)
  }

  /** The arc carries the segments `q`, oldest first. */
  predicate Arc(r: Ring, q: seq<Segment>)
    requires ValidRing(r)
  {
    && OwnsArc(r.d, r.dma, r.tx, |q|)
    && forall j :: 0 <= j < |q| ==> q[j] == Content(r, At(|r.d|, r.dma, j))
  }

  lemma ArcCopy(r: Ring, q: seq<Segment>, at: nat, buf: seq<byte>)
    requires ValidRing(r) && Arc(r, q) && at < |r.d| && !r.d[at].own && |buf| == ETH_TX_BUF_SIZE
    ensures Arc(r.(bufs := r.bufs[at := buf]), q)
  {
    var v := r.(bufs := r.bufs[at := buf]);
    forall j | 0 <= j < |q| ensures q[j] == Content(v, At(|v.d|, v.dma, j)) {
      var i := At(|r.d|, r.dma, j);
      assert Dist(|r.d|, r.dma, i) == j && r.d[i].own;
    }
  }

  function HandedRing(r: Ring, e: Desc): Ring
    requires r.tx < |r.d|
  {
    r.(d := r.d[r.tx := e], tx := At(|r.d|, r.tx, 1))
  }

  lemma ArcHand(r: Ring, q: seq<Segment>, e: Desc, s: Segment)
    requires ValidRing(r) && Arc(r, q) && |q| < |r.d|
    requires e.own && e.next == r.d[r.tx].next && ValidRing(HandedRing(r, e)) && Content(HandedRing(r, e), r.tx) == s
    ensures Arc(HandedRing(r, e), q + [s])
  {
    var v := HandedRing(r, e);
    assert Dist(|r.d|, r.dma, r.tx) == |q|;
    forall j | 0 <= j < |q| ensures q[j] == Content(v, At(|v.d|, v.dma, j)) {
      assert Dist(|r.d|, r.dma, At(|r.d|, r.dma, j)) == j;
    }
  }

  function SentRing(r: Ring): Ring
    requires r.dma < |r.d|
  {
    r.(d := r.d[r.dma := r.d[r.dma].(own := false)], dma := At(|r.d|, r.dma, 1))
  }

  lemma ArcSend(r: Ring, q: seq<Segment>)
    requires ValidRing(r) && Arc(r, q) && |q| > 0 && ValidRing(SentRing(r))
    ensures Arc(SentRing(r), q[1..]) && Content(r, r.dma) == q[0]
  {
    var v, n := SentRing(r), |r.d|;
    assert At(n, r.dma, 0) == r.dma;
    forall j | 0 <= j < |q| - 1 ensures q[1..][j] == Content(v, At(n, v.dma, j)) {
      assert At(n, v.dma, j) == At(n, r.dma, j + 1) != r.dma;
    }
  }

  // ---- the invariant -------------------------------------------------------------------

  /** All segments that have been given to the DMA so far. */
  function Due(w: World): seq<Segment>
    requires w.cpu.Handing? ==> w.accepted != [] && w.cpu.i <= |Cut(w.cpu.frame, true)|
  {
    if w.cpu.Handing? then Segments(w.accepted[..|w.accepted| - 1]) + Cut(w.cpu.frame, true)[..w.cpu.i]
    else Segments(w.accepted)
  }

  /** Chunks `from..to` of the frame lie in the buffers from TxDesc on. */
  predicate Stored(r: Ring, frame: Frame, from: nat, to: nat)
    requires ValidRing(r) && to <= BufCount(|frame|) && to - from <= |r.d|
  {
    forall m :: from <= m < to ==> StoredAt(r.bufs[At(|r.d|, r.tx, m - from)], Chunk(frame, m))
  }

  /** What the CPU is about to do fits the free part of the ring; `k` descriptors are not free. */
  predicate CpuFits(w: World, k: nat)
    requires Valid(w) && k <= |w.r.d|
  {
    match w.cpu
    case Resting => true
    case Copying(frame, i, at) =>
      BufCount(|frame|) <= |w.r.d| && k + i <= |w.r.d| && at == At(|w.r.d|, w.r.tx, i) && Stored(w.r, frame, 0, i)
    case Handing(frame, i) =>
      k + BufCount(|frame|) - i <= |w.r.d| && Stored(w.r, frame, i, BufCount(|frame|))
  }

  predicate HandingLast(w: World) {
    w.cpu.Handing? ==>
      && w.accepted != [] && w.accepted[|w.accepted| - 1] == w.cpu.frame
      && w.cpu.i < BufCount(|w.cpu.frame|) == |Cut(w.cpu.frame, true)|
  }

  predicate Inv(w: World) {
    && Valid(w) && HandingLast(w)
    && w.sent <= Due(w) && Arc(w.r, Queue(w)) && CpuFits(w, |Queue(w)|)
    && (w.suspended && !w.cpu.Handing? ==> Queue(w) == [])
  }

  /** The segments given to the DMA and not yet sent. */
  function Queue(w: World): seq<Segment>
    requires HandingLast(w) && w.sent <= Due(w)
  {
    Due(w)[|w.sent|..]
  }

  lemma FreeFromTx(r: Ring, q: seq<Segment>, i: nat)
    requires ValidRing(r) && Arc(r, q) && i < |r.d|
    ensures r.d[At(|r.d|, r.tx, i)].own <==> |q| + i >= |r.d|
  {
    var n := |r.d|;
    assert Dist(n, r.dma, At(n, r.tx, i)) == if |q| + i < n then |q| + i else |q| + i - n;
  }

  /** The copy of one more chunk into the free buffer after the chunks copied before. */
  lemma StoredMore(r: Ring, frame: Frame, i: nat)
    requires ValidRing(r) && i < BufCount(|frame|) && i < |r.d| && Stored(r, frame, 0, i)
    ensures var at := At(|r.d|, r.tx, i);
            var v := r.(bufs := r.bufs[at := Overlay(r.bufs[at], Chunk(frame, i))]);
            ValidRing(v) && Stored(v, frame, 0, i + 1)
  {
    var at := At(|r.d|, r.tx, i);
    var v := r.(bufs := r.bufs[at := Overlay(r.bufs[at], Chunk(frame, i))]);
    forall m | 0 <= m < i + 1 ensures StoredAt(v.bufs[At(|v.d|, v.tx, m)], Chunk(frame, m)) {
      if m < i { assert StoredAt(r.bufs[At(|r.d|, r.tx, m - 0)], Chunk(frame, m)); }
    }
  }

  lemma {:induction false} CopyKeeps(w: World)
    requires Inv(w) && w.cpu.Copying?
    ensures Inv(Copy(w))
  {
    var Copying(frame, i, at) := w.cpu;
    var r, q := w.r, Queue(w);
    FreeFromTx(r, q, 0);
    if !r.d[at].own {
      FreeFromTx(r, q, i);
      var v := r.(bufs := r.bufs[at := Overlay(r.bufs[at], Chunk(frame, i))]);
      StoredMore(r, frame, i);
      ArcCopy(r, q, at, Overlay(r.bufs[at], Chunk(frame, i)));
      OneLink(r.d, at);
      CopyResult(w, Copy(w), v);
    }
  }

  lemma {:induction false} CopyResult(w: World, u: World, v: Ring)
    requires Inv(w) && w.cpu.Copying? && ValidRing(v) && Arc(v, Queue(w))
    requires v.d == w.r.d && v.tx == w.r.tx && |Queue(w)| + w.cpu.i < |v.d|
    requires Stored(v, w.cpu.frame, 0, w.cpu.i + 1)
    requires u.r == v && u.suspended == w.suspended && u.sent == w.sent
    requires if w.cpu.i + 1 < BufCount(|w.cpu.frame|) then
               u.accepted == w.accepted && u.cpu == Copying(w.cpu.frame, w.cpu.i + 1, At(|v.d|, w.cpu.at, 1))
             else if u.cpu.Resting? then u.accepted == w.accepted
             else |w.cpu.frame| > 0 && u.accepted == w.accepted + [w.cpu.frame] && u.cpu == Handing(w.cpu.frame, 0)
    ensures Inv(u)
  {
    if u.cpu.Handing? {
      CutByIndex(w.cpu.frame, true, 0);
      assert u.accepted[..|u.accepted| - 1] == w.accepted;
      assert Due(u) == Due(w);
    }
  }

  /** What the loop wrote is what the DMA will read. */
  lemma HandedContent(r: Ring, frame: Frame, i: nat)
    requires ValidRing(r) && i < BufCount(|frame|) && StoredAt(r.bufs[r.tx], Chunk(frame, i))
    ensures var v := HandedRing(r, Handed(r.d[r.tx], |frame|, i));
            ValidRing(v) && Content(v, r.tx) == SegmentOf(frame, i)
  {
    Relinked(r.d, r.tx, Handed(r.d[r.tx], |frame|, i));
  }

  lemma {:induction false} HandKeeps(w: World)
    requires Inv(w) && w.cpu.Handing?
    ensures Inv(Hand(w))
  {
    var Handing(frame, i) := w.cpu;
    var r, q := w.r, Queue(w);
    var e := Handed(r.d[r.tx], |frame|, i);
    assert At(|r.d|, r.tx, i - i) == r.tx;
    assert StoredAt(r.bufs[r.tx], Chunk(frame, i));
    HandedContent(r, frame, i);
    ArcHand(r, q, e, SegmentOf(frame, i));
    OneLink(r.d, r.tx);
    StoredLater(r, HandedRing(r, e), frame, i);
    HandResult(w, Hand(w), HandedRing(r, e));
  }

  lemma StoredLater(r: Ring, v: Ring, frame: Frame, i: nat)
    requires ValidRing(r) && i < BufCount(|frame|) && BufCount(|frame|) - i <= |r.d|
    requires Stored(r, frame, i, BufCount(|frame|))
    requires ValidRing(v) && v.bufs == r.bufs && v.tx == At(|r.d|, r.tx, 1)
    ensures Stored(v, frame, i + 1, BufCount(|frame|))
  {
    forall m | i + 1 <= m < BufCount(|frame|)
      ensures StoredAt(v.bufs[At(|v.d|, v.tx, m - (i + 1))], Chunk(frame, m))
    {
      assert StoredAt(r.bufs[At(|r.d|, r.tx, m - i)], Chunk(frame, m));
    }
  }

  lemma {:induction false} HandResult(w: World, u: World, v: Ring)
    requires Inv(w) && w.cpu.Handing? && ValidRing(v) && |v.d| == |w.r.d|
    requires Arc(v, Queue(w) + [SegmentOf(w.cpu.frame, w.cpu.i)])
    requires Stored(v, w.cpu.frame, w.cpu.i + 1, BufCount(|w.cpu.frame|))
    requires u.r == v && u.sent == w.sent && u.accepted == w.accepted
    requires if w.cpu.i + 1 < BufCount(|w.cpu.frame|) then u.cpu == Handing(w.cpu.frame, w.cpu.i + 1)
             else u.cpu.Resting? && !u.suspended
    ensures Inv(u)
  {
    var Handing(frame, i) := w.cpu;
    var c, s := Cut(frame, true), SegmentOf(frame, i);
    CutByIndex(frame, true, i);
    assert c[..i + 1] == c[..i] + [s];
    if i + 1 == |c| {
      assert c[..i + 1] == c;
    }
    assert Due(u) == Due(w) + [s];
    assert Queue(u) == Queue(w) + [s];
  }

  lemma {:induction false} SendKeeps(w: World)
    requires Inv(w)
    ensures Inv(Send(w))
    ensures !w.suspended && Queue(w) != [] ==>
              Queue(Send(w)) == Queue(w)[1..] && Send(w).(r := w.r, sent := w.sent) == w
  {
    var r, q := w.r, Queue(w);
    assert Dist(|r.d|, r.dma, r.dma) == 0;
    if !w.suspended && r.d[r.dma].own {
      Relinked(r.d, r.dma, r.d[r.dma].(own := false));
      ArcSend(r, q);
      SendResult(w, Send(w));
    }
  }

  lemma {:induction false} SendResult(w: World, u: World)
    requires Inv(w) && Queue(w) != [] && ValidRing(u.r)
    requires u.r == SentRing(w.r) && Arc(u.r, Queue(w)[1..]) && u.sent == w.sent + [Queue(w)[0]]
    requires u.(r := w.r, sent := w.sent) == w
    ensures Inv(u) && Queue(u) == Queue(w)[1..]
  {
    assert Due(u) == Due(w);
    OneTaken(w.sent, Due(w));
    assert Queue(u) == Queue(w)[1..];
    match u.cpu
    case Resting =>
    case Copying(frame, i, at) => assert Stored(w.r, frame, 0, i) && Stored(u.r, frame, 0, i);
    case Handing(frame, i) => assert Stored(u.r, frame, i, BufCount(|frame|));
  }

  lemma OneTaken(sent: seq<Segment>, due: seq<Segment>)
    requires sent <= due && |sent| < |due|
    ensures sent + [due[|sent|..][0]] <= due
    ensures due[|sent| + 1..] == due[|sent|..][1..]
  {
  }

  // ---- every run -----------------------------------------------------------------------

  /** Frames that could fit the ring if it were empty. */
  predicate Fits(steps: seq<Step>, count: nat) {
    forall i :: 0 <= i < |steps| && steps[i].Output? ==> BufCount(|steps[i].frame|) <= count
  }

  /** After HAL_ETH_DMATxDescListInit, before the first frame. */
  predicate Fresh(w: World) {
    && Valid(w) && Initialised(w.r.d) && w.r.tx == w.r.dma == 0
    && w.cpu == Resting && w.sent == [] && w.accepted == []
  }

  lemma {:induction false} EnterKeeps(w: World, frame: Frame)
    requires Inv(w) && BufCount(|frame|) <= |w.r.d|
    ensures Inv(Enter(w, frame))
  {
    assert Due(Enter(w, frame)) == Due(w);
  }

  lemma SameCount(w: World, s: Step)
    requires Valid(w)
    ensures |Next(w, s).r.d| == |w.r.d|
  {
  }

  lemma {:induction false} InvStep(w: World, s: Step)
    requires Inv(w) && (s.Output? ==> BufCount(|s.frame|) <= |w.r.d|)
    ensures Inv(Next(w, s))
  {
    match s
    case Output(frame) => EnterKeeps(w, frame);
    case CopyChunk => if w.cpu.Copying? { CopyKeeps(w); }
    case HandSegment => if w.cpu.Handing? { HandKeeps(w); }
    case DmaStep => SendKeeps(w);
  }

  lemma {:induction false} InvAlways(w: World, steps: seq<Step>)
    requires Fresh(w) && Fits(steps, |w.r.d|)
    ensures Inv(Play(w, steps)) && |Play(w, steps).r.d| == |w.r.d|
  {
    if steps != [] {
      InvAlways(w, steps[..|steps| - 1]);
      InvStep(Play(w, steps[..|steps| - 1]), steps[|steps| - 1]);
      SameCount(Play(w, steps[..|steps| - 1]), steps[|steps| - 1]);
    }
  }

  /** In every interleaving the descriptors of the DMA are one arc that ends just before TxDesc. */
  lemma {:induction false} OwnedArcEndsAtTxDesc(w: World, steps: seq<Step>)
    requires Fresh(w) && Fits(steps, |w.r.d|)
    ensures var v := Play(w, steps);
            && HandingLast(v) && v.sent <= Due(v)
            && OwnsArc(v.r.d, v.r.dma, v.r.tx, |Queue(v)|)
            && forall j :: 0 <= j < |Queue(v)| ==> Queue(v)[j] == Content(v.r, At(|v.r.d|, v.r.dma, j))
  {
    InvAlways(w, steps);
  }

  /** What has left so far is, frame by frame and byte by byte, the beginning of what was accepted. */
  lemma {:induction false} FramesLeaveInOrder(w: World, steps: seq<Step>)
    requires Fresh(w) && Fits(steps, |w.r.d|)
    ensures var v := Play(w, steps);
            && Receive(v.sent).frames <= v.accepted
            && (v.cpu.Resting? && (forall i :: 0 <= i < |v.r.d| ==> !v.r.d[i].own)
                ==> Receive(v.sent) == Received(v.accepted, []))
  {
    InvAlways(w, steps);
    SentIsPrefix(Play(w, steps));
  }

  lemma {:induction false} SentIsPrefix(v: World)
    requires Inv(v)
    ensures Receive(v.sent).frames <= v.accepted
    ensures v.cpu.Resting? && !v.r.d[v.r.dma].own ==> Receive(v.sent) == Received(v.accepted, [])
  {
    DueIsPrefix(v);
    PrefixReceived(v.sent, v.accepted);
    AllSent(v);
  }

  lemma {:induction false} PrefixReceived(sent: seq<Segment>, frames: seq<Frame>)
    requires sent <= Segments(frames)
    ensures Receive(sent).frames <= frames
    ensures sent == Segments(frames) ==> Receive(sent) == Received(frames, [])
  {
    var rest := Segments(frames)[|sent|..];
    ReceivePrefix(sent, rest);
    assert sent + rest == Segments(frames);
    RoundTrip(frames);
  }

  lemma {:induction false} DueIsPrefix(v: World)
    requires HandingLast(v) && v.sent <= Due(v)
    ensures v.sent <= Segments(v.accepted)
  {
    if v.cpu.Handing? {
      var c := Cut(v.cpu.frame, true);
      var front := Segments(v.accepted[..|v.accepted| - 1]);
      assert c == c[..v.cpu.i] + c[v.cpu.i..];
      Assoc(front, c[..v.cpu.i], c[v.cpu.i..]);
      assert Segments(v.accepted) == front + c;
    }
  }

  lemma {:induction false} AllSent(v: World)
    requires Inv(v)
    ensures v.cpu.Resting? && !v.r.d[v.r.dma].own ==> v.sent == Segments(v.accepted)
  {
    assert Dist(|v.r.d|, v.r.dma, v.r.dma) == 0;
  }

  function Drain(n: nat): seq<Step> {
    if n == 0 then [] else Drain(n - 1) + [DmaStep]
  }

  /** The DMA is never left suspended with work to do: on its own it sends every accepted frame. */
  lemma {:induction false} NothingIsStranded(w: World, steps: seq<Step>)
    requires Fresh(w) && Fits(steps, |w.r.d|) && Play(w, steps).cpu.Resting?
    ensures HandingLast(Play(w, steps)) && Play(w, steps).sent <= Due(Play(w, steps))
    ensures Receive(Play(Play(w, steps), Drain(|Queue(Play(w, steps))|)).sent)
         == Received(Play(w, steps).accepted, [])
  {
    InvAlways(w, steps);
    var v := Play(w, steps);
    var n := |Queue(v)|;
    Drained(v, n);
    SentIsPrefix(Play(v, Drain(n)));
  }

  lemma {:induction false} Drained(v: World, n: nat)
    requires Inv(v) && v.cpu.Resting? && n <= |Queue(v)|
    ensures var u := Play(v, Drain(n));
            Inv(u) && u.(r := v.r, sent := v.sent) == v && Queue(u) == Queue(v)[n..]
            && (n == |Queue(v)| ==> !u.r.d[u.r.dma].own)
  {
    if n > 0 {
      Drained(v, n - 1);
      assert Drain(n)[..|Drain(n)| - 1] == Drain(n - 1);
      SendKeeps(Play(v, Drain(n - 1)));
    }
    var u := Play(v, Drain(n));
    assert Dist(|u.r.d|, u.r.dma, u.r.dma) == 0;
  }

  // ---- HAL_ETH_TransmitFrame on its own ------------------------------------------------

  /** The steps of the hand-over loop do together what the driver's function does. */
  lemma {:induction false} LoopIsHandOver(w: World, i: nat, steps: seq<Step>)
    requires Valid(w) && w.cpu.Handing? && w.cpu.i == 0 && i <= BufCount(|w.cpu.frame|)
    requires |steps| == i && forall k :: 0 <= k < i ==> steps[k] == HandSegment
    ensures var v := Play(w, steps);
            && (v.r.d, v.r.tx) == HandOver(w.r.d, w.r.tx, |w.cpu.frame|, i)
            && v.cpu == (if i < BufCount(|w.cpu.frame|) then Handing(w.cpu.frame, i) else Resting)
  {
    if i > 0 {
      LoopIsHandOver(w, i - 1, steps[..i - 1]);
      var u := Play(w, steps[..i - 1]);
      OneLink(u.r.d, u.r.tx);
      assert LinkedAt(u.r.d, u.r.tx);
    }
  }

  function Hands(n: nat): seq<Step> {
    seq(n, _ => HandSegment)
  }

  lemma {:induction false} LastHandResumes(w: World, n: nat)
    requires Valid(w) && w.cpu.Handing? && w.cpu.i == 0 && n == BufCount(|w.cpu.frame|)
    ensures !Play(w, Hands(n)).suspended
  {
    assert Hands(n)[..n - 1] == Hands(n - 1);
    LoopIsHandOver(w, n - 1, Hands(n - 1));
  }

  /**
   The last chunk has been copied: HAL_ETH_TransmitFrame is called, with the DMA's TBUS flag up iff it
   is suspended. The hand-over is entered iff the call returns HAL_OK, and its passes leave ring,
   TxDesc and TBUS as the call does; otherwise nothing happens.
   */
  lemma {:induction false} OutputIsTransmit(w: World)
    requires Valid(w) && w.cpu.Copying? && w.cpu.i + 1 == BufCount(|w.cpu.frame|) && !w.r.d[w.cpu.at].own
    ensures var frame, v := w.cpu.frame, Next(w, CopyChunk);
            var (k, e, status) := Transmit(Handle(READY, false, w.r.tx, w.suspended), w.r.d, |frame|);
            if status == HAL_OK then
              var u := Play(v, Hands(BufCount(|frame|)));
              && v.cpu == Handing(frame, 0) && v.accepted == w.accepted + [frame]
              && u.r.d == e && u.r.tx == k.tx && u.suspended == k.tbus == false && u.cpu == Resting
            else
              v.cpu == Resting && v.accepted == w.accepted && v.r.d == e == w.r.d && v.r.tx == w.r.tx
  {
    var frame, v := w.cpu.frame, Next(w, CopyChunk);
    NextValid(w, CopyChunk);
    if |frame| > 0 && !w.r.d[w.r.tx].own {
      LoopIsHandOver(v, BufCount(|frame|), Hands(BufCount(|frame|)));
      LastHandResumes(v, BufCount(|frame|));
    }
  }

  /** Pass `i` of the hand-over loop writes a descriptor that is the DMA's. */
  predicate Overwrites(d: seq<Desc>, tx: nat, length: nat, i: nat)
    requires Linked(d) && tx < |d| && i < BufCount(length)
  {
    var (e, t) := HandOver(d, tx, length, i);
    e[t].own
  }

  /**
   The driver looks at the first descriptor only. Some pass of its loop writes a descriptor that
   the DMA owns iff the frame has more segments than there are free descriptors; if it has not,
   the arc grows by its segments. A frame start that the DMA was to read next is lost with it.
   */
  lemma {:induction false} OverwritesIffTooLong(d: seq<Desc>, dma: nat, tx: nat, k: nat, length: nat)
    requires Linked(d) && dma < |d| && OwnsArc(d, dma, tx, k) && k < |d| && length > 0
    ensures (exists i: nat :: i < BufCount(length) && Overwrites(d, tx, length, i)) <==> BufCount(length) > |d| - k
    ensures var (e, t) := HandOver(d, tx, length, BufCount(length));
            && (BufCount(length) <= |d| - k ==> OwnsArc(e, dma, t, k + BufCount(length)))
            && ((k > 0 ==> d[dma].fs) ==> (e[dma].fs <==> BufCount(length) <= |d| - k))
  {
    var n := BufCount(length);
    if n <= |d| - k {
      HandOverShape(d, tx, length, n);
      ArcGrows(d, HandOver(d, tx, length, n).0, dma, tx, k, length);
      forall i: nat | i < n ensures !Overwrites(d, tx, length, i) { PassWrites(d, dma, tx, k, length, i); }
    } else {
      PassWrites(d, dma, tx, k, length, |d| - k);
      StartIsLost(d, dma, tx, k, length, n);
    }
  }

  lemma {:induction false} PassWrites(d: seq<Desc>, dma: nat, tx: nat, k: nat, length: nat, i: nat)
    requires Linked(d) && dma < |d| && OwnsArc(d, dma, tx, k) && k < |d|
    requires i < BufCount(length) && i <= |d| - k
    ensures Overwrites(d, tx, length, i) <==> i == |d| - k
  {
    HandOverShape(d, tx, length, i);
    var t := At(|d|, tx, i);
    assert Dist(|d|, tx, t) == if i < |d| then i else 0;
    assert Dist(|d|, dma, t) == if k + i < |d| then k + i else k + i - |d|;
  }

  lemma ArcGrows(d: seq<Desc>, e: seq<Desc>, dma: nat, tx: nat, k: nat, length: nat)
    requires dma < |d| == |e| && tx < |d| && OwnsArc(d, dma, tx, k) && k < |d|
    requires k + BufCount(length) <= |d| && HandedOver(d, e, tx, length, BufCount(length))
    ensures OwnsArc(e, dma, At(|d|, tx, BufCount(length)), k + BufCount(length))
    ensures (k > 0 ==> d[dma].fs) ==> e[dma].fs
  {
  }

  lemma {:induction false} StartIsLost(d: seq<Desc>, dma: nat, tx: nat, k: nat, length: nat, i: nat)
    requires Linked(d) && dma < |d| && OwnsArc(d, dma, tx, k) && k < |d|
    requires |d| - k < i <= BufCount(length)
    ensures !HandOver(d, tx, length, i).0[dma].fs
  {
    if i == |d| - k + 1 {
      HandOverShape(d, tx, length, i - 1);
    } else {
      StartIsLost(d, dma, tx, k, length, i - 1);
    }
  }

  // ---- what is accepted ----------------------------------------------------------------

  /** The `m` descriptors from `at` on are the CPU's. */
  predicate FreeRun(d: seq<Desc>, at: nat, m: nat)
    requires Linked(d) && at < |d|
    decreases m
  {
    m == 0 || (!d[at].own && FreeRun(d, Follow(d, at, 1), m - 1))
  }

  /** The DMA only gives descriptors back. */
  lemma {:induction false} FreeRunKept(d: seq<Desc>, e: seq<Desc>, at: nat, m: nat)
    requires Linked(d) && Linked(e) && |e| == |d| && at < |d| && FreeRun(d, at, m)
    requires forall j :: 0 <= j < |d| ==> e[j].own ==> d[j].own
    ensures FreeRun(e, at, m)
    decreases m
  {
    if m > 0 {
      OneLink(d, at);
      OneLink(e, at);
      FreeRunKept(d, e, Follow(d, at, 1), m - 1);
    }
  }

  /** After `c` of its chunks have been copied the frame will be accepted, or has been. */
  predicate Entering(w: World, frame: Frame, c: nat, before: seq<Frame>)
    requires Valid(w)
  {
    var n := BufCount(|frame|);
    if c >= n then w.cpu == Handing(frame, 0) && w.accepted == before + [frame]
    else
      && w.cpu.Copying? && w.cpu.frame == frame && w.cpu.i == c && w.accepted == before
      && FreeRun(w.r.d, w.cpu.at, n - c) && !w.r.d[w.r.tx].own
  }

  /** It has been given up, or will be. */
  predicate Doomed(w: World, frame: Frame, c: nat, before: seq<Frame>)
    requires Valid(w)
  {
    && w.accepted == before
    && (|| w.cpu.Resting?
        || (w.cpu.Copying? && w.cpu.frame == frame && w.cpu.i == c
            && (frame == [] || !FreeRun(w.r.d, w.cpu.at, BufCount(|frame|) - c))))
  }

  lemma {:induction false} EnteringGoesOn(w: World, frame: Frame, c: nat, before: seq<Frame>, s: Step)
    requires Valid(w) && |frame| > 0 && Entering(w, frame, c, before) && s in {CopyChunk, DmaStep}
    ensures Valid(Next(w, s)) && Entering(Next(w, s), frame, if s == CopyChunk then c + 1 else c, before)
  {
    NextValid(w, s);
    if s == DmaStep && w.cpu.Copying? {
      FreeRunKept(w.r.d, Next(w, s).r.d, w.cpu.at, BufCount(|frame|) - c);
    }
  }

  lemma {:induction false} DoomedGoesOn(w: World, frame: Frame, c: nat, before: seq<Frame>)
    requires Valid(w) && Doomed(w, frame, c, before)
    ensures Valid(Next(w, CopyChunk)) && Doomed(Next(w, CopyChunk), frame, c + 1, before)
  {
    if w.cpu.Copying? {
      var next := Follow(w.r.d, w.cpu.at, 1);
      assert FreeRun(w.r.d, next, 0);
      assert c + 1 == BufCount(|frame|) && frame != [] ==> w.r.d[w.cpu.at].own;
    }
    NextValid(w, CopyChunk);
  }

  function Copies(steps: seq<Step>): nat {
    if steps == [] then 0
    else Copies(steps[..|steps| - 1]) + if steps[|steps| - 1] == CopyChunk then 1 else 0
  }

  /** The CPU copies, and the DMA may go on sending. */
  predicate WhileCopying(steps: seq<Step>) {
    forall i :: 0 <= i < |steps| ==> steps[i] == CopyChunk || steps[i] == DmaStep
  }

  lemma {:induction false} PlayMore(w: World, first: Step, steps: seq<Step>)
    requires Valid(w)
    ensures Play(w, [first]) == Next(w, first)
    ensures steps != [] ==>
              var u := Play(w, [first] + steps[..|steps| - 1]);
              Play(w, [first] + steps) == Next(u, steps[|steps| - 1])
  {
    assert [first][..0] == [] && Play(w, []) == w;
    if steps != [] {
      var all := [first] + steps;
      assert all[..|all| - 1] == [first] + steps[..|steps| - 1];
    }
  }

  /**
   A frame that finds its descriptors free is accepted, however the DMA comes in between: exactly when
   the last of its chunks has been copied, and then it is being handed over.
   */
  lemma {:induction false} RoomAccepts(w: World, frame: Frame, steps: seq<Step>)
    requires Valid(w) && w.cpu.Resting? && |frame| > 0 && FreeRun(w.r.d, w.r.tx, BufCount(|frame|))
    requires WhileCopying(steps)
    ensures Entering(Play(w, [Output(frame)] + steps), frame, Copies(steps), w.accepted)
  {
    PlayMore(w, Output(frame), steps);
    if steps == [] {
      assert [Output(frame)] + steps == [Output(frame)];
    } else {
      var n := |steps| - 1;
      RoomAccepts(w, frame, steps[..n]);
      EnteringGoesOn(Play(w, [Output(frame)] + steps[..n]), frame, Copies(steps[..n]), w.accepted, steps[n]);
    }
  }

  function CopyAll(c: nat): (s: seq<Step>)
    ensures |s| == c
  {
    seq(c, _ => CopyChunk)
  }

  lemma {:induction false} NoRoomRefuses(w: World, frame: Frame, c: nat)
    requires Valid(w) && w.cpu.Resting? && (frame == [] || !FreeRun(w.r.d, w.r.tx, BufCount(|frame|)))
    ensures Doomed(Play(w, [Output(frame)] + CopyAll(c)), frame, c, w.accepted)
  {
    PlayMore(w, Output(frame), CopyAll(c));
    if c == 0 {
      assert [Output(frame)] + CopyAll(c) == [Output(frame)];
    } else {
      NoRoomRefuses(w, frame, c - 1);
      assert CopyAll(c)[..c - 1] == CopyAll(c - 1);
      DoomedGoesOn(Play(w, [Output(frame)] + CopyAll(c - 1)), frame, c - 1, w.accepted);
    }
  }

  lemma {:induction false} CopiesAll(c: nat)
    ensures Copies(CopyAll(c)) == c
  {
    if c > 0 {
      CopiesAll(c - 1);
      assert CopyAll(c)[..c - 1] == CopyAll(c - 1);
    }
  }

  /** An undisturbed call accepts its frame iff that is not empty and its descriptors are all free. */
  lemma {:induction false} AcceptedIff(w: World, frame: Frame)
    requires Valid(w) && w.cpu.Resting?
    ensures var v := Play(w, [Output(frame)] + CopyAll(BufCount(|frame|)));
            if frame != [] && FreeRun(w.r.d, w.r.tx, BufCount(|frame|))
            then v.cpu == Handing(frame, 0) && v.accepted == w.accepted + [frame]
            else v.cpu.Resting? && v.accepted == w.accepted
  {
    var n := BufCount(|frame|);
    if frame != [] && FreeRun(w.r.d, w.r.tx, n) {
      CopiesAll(n);
      RoomAccepts(w, frame, CopyAll(n));
    } else {
      NoRoomRefuses(w, frame, n);
    }
  }
}
