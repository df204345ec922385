/**
 The receive ring as a queue: an in-order DMA, the passes of the driver's scan, and the copy and
 release loops of the interface layer take turns step by step. Every frame is delivered once,
 whole and in order.
 */
module EthRxQueue {
  import opened Sequences
  import opened Words
  import opened EthFrames
  import opened EthRing
  import opened EthRx

  const CRC_SIZE: nat := 4

  /** The frame-length field of a descriptor has 14 bits. */
  const FL_RANGE: nat := 0x4000

  /** What the DMA writes into one descriptor; `fl` is the length of the whole frame, CRC included. */
  datatype Piece = Piece(s: Segment, fl: nat)

  function Pieces(x: Frame): (p: seq<Piece>)
    ensures |p| == |Cut(x, true)| > 0
  {
    seq(|Cut(x, true)|, j requires 0 <= j < |Cut(x, true)| => Piece(Cut(x, true)[j], |x|))
  }

  function Stream(line: seq<Frame>): seq<Piece> {
    if line == [] then [] else Pieces(line[0]) + Stream(line[1..])
  }

  /** The ring has a descriptor for each segment of the frame. */
  predicate Fits(x: Frame, count: nat) {
    |Cut(x, true)| <= count
  }

  /** Frames as the MAC passes them on: those that fit the ring have a CRC and suit the length field. */
  predicate WellFormed(line: seq<Frame>, count: nat) {
    forall i :: 0 <= i < |line| ==> HasLength(line[i], count)
  }

  predicate HasLength(x: Frame, count: nat) {
    Fits(x, count) ==> CRC_SIZE <= |x| < FL_RANGE
  }

  /** The first `n` frames fit the ring. */
  predicate AllFit(line: seq<Frame>, n: nat, count: nat)
    requires n <= |line|
  {
    forall i :: 0 <= i < n ==> Fits(line[i], count)
  }

  /** The frame without its CRC. */
  function Payload(x: Frame): Frame {
    if |x| >= CRC_SIZE then x[..|x| - CRC_SIZE] else []
  }

  function Payloads(line: seq<Frame>): (r: seq<Frame>)
    ensures |r| == |line|
  {
    seq(|line|, i requires 0 <= i < |line| => Payload(line[i]))
  }

  // ---- the machine ---------------------------------------------------------------------

  datatype Ring = Ring(d: seq<Desc>, bufs: seq<seq<byte>>, dma: nat)

  /** The CPU looks for frames, or gives `left` descriptors from `at` on back to the DMA. */
  datatype Cpu = Scanning | Releasing(at: nat, left: nat)

  /** `line`: the frames that will ever arrive; `written`: how many of their pieces have. */
  datatype World = World(r: Ring, c: Cursor, cpu: Cpu, line: seq<Frame>, written: nat, out: seq<Frame>)

  datatype Step = Arrive | Look | Release

  predicate ValidRing(r: Ring) {
    && Linked(r.d) && |r.bufs| == |r.d| < TWO_TO_THE_32 && r.dma < |r.d|
    && forall i :: 0 <= i < |r.bufs| ==> |r.bufs[i]| == ETH_MAX_PACKET_SIZE
  }

  ghost predicate Ready(w: World) {
    && ValidRing(w.r) && EthRx.Valid(w.c, w.r.d) && w.written <= |Stream(w.line)|
    && (w.cpu.Releasing? ==> w.cpu.at < |w.r.d|)
  }

  /** low_level_input copies `len` bytes, buffer after buffer. */
  function Gather(r: Ring, at: nat, len: nat): (x: seq<byte>)
    requires ValidRing(r) && at < |r.d|
    ensures |x| == len
    decreases len
  {
    if len <= ETH_MAX_PACKET_SIZE then r.bufs[at][..len]
    else
      assert LinkedAt(r.d, at);
      r.bufs[at] + Gather(r, r.d[at].next, len - ETH_MAX_PACKET_SIZE)
  }

  function Written(e: Desc, p: Piece): Desc {
    e.(own := false, fs := p.s.fs, ls := p.s.ls, size := p.fl)
  }

  function Filled(r: Ring, p: Piece): Ring
    requires ValidRing(r) && |p.s.data| <= ETH_MAX_PACKET_SIZE
  {
    Ring(r.d[r.dma := Written(r.d[r.dma], p)], r.bufs[r.dma := Overlay(r.bufs[r.dma], p.s.data)], At(|r.d|, r.dma, 1))
  }

  /** The DMA writes the next piece if it owns a descriptor for it; else the piece waits. */
  function Arrived(w: World): World
    requires Ready(w)
  {
    if w.written == |Stream(w.line)| || !w.r.d[w.r.dma].own then w
    else
      StreamPieces(w.line, w.written);
      w.(r := Filled(w.r, Stream(w.line)[w.written]), written := w.written + 1)
  }

  /** One pass of the scan. On success the frame is copied out, and its descriptors are released next. */
  function Looked(w: World): World
    requires Ready(w)
  {
    if w.cpu != Scanning then w
    else
      var (b, found) := Pass(w.c, w.r.d, 0);
      if found == Complete && b.info.fs.To? then
        w.(c := b, cpu := Releasing(b.info.fs.index, b.info.segCount),
           out := w.out + [Gather(w.r, b.info.fs.index, Wrap16(b.info.length))])
      else w.(c := b)
  }

  /** One pass of the release loop; after the last, SegCount is cleared. */
  function Released(w: World): World
    requires Ready(w)
  {
    if w.cpu == Scanning then w
    else if w.cpu.left == 0 then w.(cpu := Scanning, c := w.c.(info := w.c.info.(segCount := 0)))
    else
      var at := w.cpu.at;
      w.(r := w.r.(d := w.r.d[at := w.r.d[at].(own := true)]),
         cpu := Releasing(At(|w.r.d|, at, 1), w.cpu.left - 1))
  }

  function Next(w: World, s: Step): World
    requires Ready(w)
  {
    match s
    case Arrive => Arrived(w)
    case Look => Looked(w)
    case Release => Released(w)
  }

  lemma {:induction false} StreamPieces(line: seq<Frame>, i: nat)
    requires i < |Stream(line)|
    ensures |Stream(line)[i].s.data| <= ETH_MAX_PACKET_SIZE
  {
    var p := Pieces(line[0]);
    if i < |p| {
      CutShape(line[0], true, i);
    } else {
      StreamPieces(line[1..], i - |p|);
    }
  }

  lemma {:induction false} NextReady(w: World, s: Step)
    requires Ready(w)
    ensures Ready(Next(w, s))
  {
    match s
    case Arrive =>
      if w.written < |Stream(w.line)| && w.r.d[w.r.dma].own {
        Relinked(w.r.d, w.r.dma, Written(w.r.d[w.r.dma], Stream(w.line)[w.written]));
        StreamPieces(w.line, w.written);
      }
    case Look =>
    case Release =>
      if w.cpu.Releasing? {
        Relinked(w.r.d, w.cpu.at, w.r.d[w.cpu.at].(own := true));
      }
  }

  ghost function Play(w: World, steps: seq<Step>): (v: World)
    requires Ready(w)
    ensures Ready(v)
  {
    if steps == [] then w
    else
      var u := Play(w, steps[..|steps| - 1]);
      NextReady(u, steps[|steps| - 1]);
      Next(u, steps[|steps| - 1])
  }

  // ---- the arc that the CPU owns -------------------------------------------------------

  /** `k` descriptors from `base` on belong to the CPU; the DMA writes just after them. */
  predicate CpuArc(d: seq<Desc>, dma: nat, base: nat, k: nat)
    requires base < |d|
  {
    && k <= |d| && At(|d|, base, k) == dma
    && forall i :: 0 <= i < |d| ==> (!d[i].own <==> Dist(|d|, base, i) < k)
  }

  predicate Holds(r: Ring, i: nat, p: Piece)
    requires ValidRing(r) && i < |r.d|
  {
    && (r.d[i].fs <==> p.s.fs) && (r.d[i].ls <==> p.s.ls) && r.d[i].size == p.fl
    && StoredAt(r.bufs[i], p.s.data)
  }

  /** The arc from `base` on: `off` descriptors to be released, then those with the pieces `q`. */
  predicate RxArc(r: Ring, base: nat, off: nat, q: seq<Piece>)
    requires ValidRing(r) && base < |r.d|
  {
    && CpuArc(r.d, r.dma, base, off + |q|)
    && forall j :: 0 <= j < |q| ==> Holds(r, At(|r.d|, base, off + j), q[j])
  }

  lemma ArcArrive(r: Ring, base: nat, off: nat, q: seq<Piece>, p: Piece)
    requires ValidRing(r) && base < |r.d| && RxArc(r, base, off, q) && r.d[r.dma].own
    requires |p.s.data| <= ETH_MAX_PACKET_SIZE && ValidRing(Filled(r, p))
    ensures RxArc(Filled(r, p), base, off, q + [p])
  {
    var v, n := Filled(r, p), |r.d|;
    assert off + |q| < n && Dist(n, base, r.dma) == off + |q|;
    forall j | 0 <= j < |q| + 1 ensures Holds(v, At(n, base, off + j), (q + [p])[j]) {
      assert Dist(n, base, At(n, base, off + j)) == off + j;
      if j < |q| { assert Holds(r, At(n, base, off + j), q[j]); }
    }
  }

  function Freed(r: Ring, i: nat): Ring
    requires i < |r.d|
  {
    r.(d := r.d[i := r.d[i].(own := true)])
  }

  lemma ArcRelease(r: Ring, base: nat, off: nat, q: seq<Piece>)
    requires ValidRing(r) && base < |r.d| && RxArc(r, base, off, q) && off > 0 && ValidRing(Freed(r, base))
    ensures RxArc(Freed(r, base), At(|r.d|, base, 1), off - 1, q)
  {
    var v, n := Freed(r, base), |r.d|;
    var next := At(n, base, 1);
    forall j | 0 <= j < |q| ensures Holds(v, At(n, next, off - 1 + j), q[j]) {
      assert At(n, next, off - 1 + j) == At(n, base, off + j) != base;
      assert Holds(r, At(n, base, off + j), q[j]);
    }
  }

  /** The first `m` pieces have been dealt with and wait for their release. */
  lemma ArcDone(r: Ring, base: nat, q: seq<Piece>, m: nat)
    requires ValidRing(r) && base < |r.d| && RxArc(r, base, 0, q) && m <= |q|
    ensures RxArc(r, base, m, q[m..])
  {
    forall j | 0 <= j < |q| - m ensures Holds(r, At(|r.d|, base, m + j), q[m..][j]) {
      assert Holds(r, At(|r.d|, base, 0 + (m + j)), q[m + j]);
    }
  }

  // ---- what the copy loop collects -----------------------------------------------------

  /** The buffers from `at` on hold the segments `c`. */
  predicate Laid(r: Ring, at: nat, c: seq<Segment>)
    requires ValidRing(r) && at < |r.d| && |c| <= |r.d|
  {
    forall j :: 0 <= j < |c| ==> StoredAt(r.bufs[At(|r.d|, at, j)], c[j].data)
  }

  lemma LaidRest(r: Ring, at: nat, c: seq<Segment>)
    requires ValidRing(r) && at < |r.d| && 0 < |c| <= |r.d| && Laid(r, at, c)
    ensures Laid(r, At(|r.d|, at, 1), c[1..])
  {
    var n := |r.d|;
    forall j | 0 <= j < |c| - 1 ensures StoredAt(r.bufs[At(n, At(n, at, 1), j)], c[1..][j].data) {
      assert At(n, At(n, at, 1), j) == At(n, at, j + 1);
      assert StoredAt(r.bufs[At(n, at, j + 1)], c[j + 1].data);
    }
  }

  lemma {:induction false} GatherIsFrame(r: Ring, at: nat, x: Frame, first: bool, len: nat)
    requires ValidRing(r) && at < |r.d| && len <= |x|
    requires |Cut(x, first)| <= |r.d| && Laid(r, at, Cut(x, first))
    ensures Gather(r, at, len) == x[..len]
    decreases |x|
  {
    var c, n := Cut(x, first), ETH_MAX_PACKET_SIZE;
    assert At(|r.d|, at, 0) == at && StoredAt(r.bufs[at], c[0].data);
    if len <= n {
      assert x[..len] == c[0].data[..len];
      assert r.bufs[at][..len] == r.bufs[at][..|c[0].data|][..len];
    } else {
      LaidRest(r, at, c);
      assert LinkedAt(r.d, at) && c[1..] == Cut(x[n..], false);
      GatherIsFrame(r, At(|r.d|, at, 1), x[n..], false, len - n);
      assert r.bufs[at] == x[..n];
      assert x[..n] + x[n..][..len - n] == x[..len];
    }
  }

  // ---- the stream ----------------------------------------------------------------------

  lemma {:induction false} StreamSplit(line: seq<Frame>, f: nat)
    requires f <= |line|
    ensures Stream(line) == Stream(line[..f]) + Stream(line[f..])
  {
    if f == 0 {
      assert line[f..] == line;
    } else {
      StreamSplit(line[1..], f - 1);
      assert line[..f][1..] == line[1..][..f - 1] && line[1..][f - 1..] == line[f..];
      Assoc(Pieces(line[0]), Stream(line[..f][1..]), Stream(line[f..]));
    }
  }

  lemma {:induction false} StreamOne(line: seq<Frame>, f: nat)
    requires f < |line|
    ensures Stream(line[f..]) == Pieces(line[f]) + Stream(line[f + 1..])
    ensures |Stream(line[..f + 1])| == |Stream(line[..f])| + |Pieces(line[f])|
  {
    assert line[f..][0] == line[f] && line[f..][1..] == line[f + 1..];
    StreamSplit(line, f);
    StreamSplit(line, f + 1);
  }

  /** How many pieces belong to the frames delivered so far. */
  function Consumed(w: World): nat
    requires |w.out| <= |w.line|
  {
    |Stream(w.line[..|w.out|])|
  }

  /** The pieces that the DMA has written for frames not yet delivered. */
  function Pending(w: World): seq<Piece>
    requires |w.out| <= |w.line| && Consumed(w) <= w.written <= |Stream(w.line)|
  {
    Stream(w.line)[Consumed(w)..w.written]
  }

  lemma {:induction false} PendingBelongs(w: World, j: nat)
    requires |w.out| <= |w.line| && Consumed(w) <= w.written <= |Stream(w.line)| && j < |Pending(w)|
    ensures |w.out| < |w.line|
    ensures j < |Pieces(w.line[|w.out|])| ==> Pending(w)[j] == Pieces(w.line[|w.out|])[j]
  {
    var f := |w.out|;
    StreamSplit(w.line, f);
    if f < |w.line| {
      StreamOne(w.line, f);
    }
  }

  // ---- the invariant -------------------------------------------------------------------

  function Base(w: World): nat {
    match w.cpu
    case Releasing(at, left) => at
    case Scanning => if w.c.info.segCount > 0 && w.c.info.fs.To? then w.c.info.fs.index else w.c.rx
  }

  function Off(w: World): nat {
    if w.cpu.Releasing? then w.cpu.left else 0
  }

  predicate ScanOk(c: Cursor, d: seq<Desc>, base: nat, q: seq<Piece>)
    requires base < |d|
  {
    && Inside(c, d, base, c.info.segCount) && c.info.segCount <= |q|
    && forall j :: 0 <= j < c.info.segCount ==> !q[j].s.ls
  }

  ghost predicate Inv(w: World) {
    && Ready(w) && WellFormed(w.line, |w.r.d|) && Base(w) < |w.r.d|
    && |w.out| <= |w.line| && Consumed(w) <= w.written && AllFit(w.line, |w.out|, |w.r.d|)
    && w.out == Payloads(w.line[..|w.out|])
    && RxArc(w.r, Base(w), Off(w), Pending(w))
    && (if w.cpu.Releasing? then w.c.rx == At(|w.r.d|, Base(w), Off(w))
        else ScanOk(w.c, w.r.d, Base(w), Pending(w)))
  }

  lemma {:induction false} ArriveKeeps(w: World)
    requires Inv(w)
    ensures Inv(Arrived(w))
  {
    NextReady(w, Arrive);
    if w.written < |Stream(w.line)| && w.r.d[w.r.dma].own {
      var p := Stream(w.line)[w.written];
      StreamPieces(w.line, w.written);
      ArcArrive(w.r, Base(w), Off(w), Pending(w), p);
      ArriveResult(w, Arrived(w), p);
    }
  }

  lemma {:induction false} ArriveResult(w: World, v: World, p: Piece)
    requires Inv(w) && w.written < |Stream(w.line)| && p == Stream(w.line)[w.written]
    requires Ready(v) && v == w.(r := v.r, written := w.written + 1) && |v.r.d| == |w.r.d|
    requires RxArc(v.r, Base(w), Off(w), Pending(w) + [p])
    ensures Inv(v)
  {
    assert Pending(v) == Pending(w) + [p];
    assert w.cpu.Scanning? ==> ScanOk(w.c, w.r.d, Base(w), Pending(w));
  }

  lemma {:induction false} ReleaseKeeps(w: World)
    requires Inv(w)
    ensures Inv(Released(w))
  {
    NextReady(w, Release);
    if w.cpu.Releasing? && w.cpu.left > 0 {
      ArcRelease(w.r, Base(w), Off(w), Pending(w));
      ReleaseResult(w, Released(w));
    } else if w.cpu.Releasing? {
      ReleaseEnds(w, Released(w));
    }
  }

  lemma {:induction false} ReleaseResult(w: World, v: World)
    requires Inv(w) && w.cpu.Releasing? && w.cpu.left > 0 && Ready(v) && |v.r.d| == |w.r.d|
    requires v == w.(r := v.r, cpu := Releasing(At(|w.r.d|, w.cpu.at, 1), w.cpu.left - 1))
    requires RxArc(v.r, Base(v), Off(v), Pending(w))
    ensures Inv(v)
  {
    assert Pending(v) == Pending(w);
  }

  lemma {:induction false} ReleaseEnds(w: World, v: World)
    requires Inv(w) && w.cpu.Releasing? && w.cpu.left == 0 && Ready(v)
    requires v == w.(cpu := Scanning, c := w.c.(info := w.c.info.(segCount := 0)))
    ensures Inv(v)
  {
    assert Pending(v) == Pending(w) && Base(v) == w.c.rx == Base(w);
  }

  /** The frame that is next to be delivered. */
  function Awaited(w: World): Frame
    requires |w.out| < |w.line|
  {
    w.line[|w.out|]
  }

  /** A descriptor of the CPU under the scan belongs to the frame that is next to be delivered. */
  lemma {:induction false} Awaiting(w: World)
    requires Inv(w) && w.cpu == Scanning && !w.r.d[w.c.rx].own
    ensures |w.out| < |w.line|
    ensures w.c.info.segCount < |w.r.d| ==>
              w.c.info.segCount < |Pending(w)| && w.c.rx == At(|w.r.d|, Base(w), w.c.info.segCount)
    ensures w.c.info.segCount >= |w.r.d| ==> w.c.rx == Base(w) && |Pending(w)| == w.c.info.segCount == |w.r.d|
  {
    var s, n, base := w.c.info.segCount, |w.r.d|, Base(w);
    assert Dist(n, base, w.c.rx) == if s < n then s else 0;
    PendingBelongs(w, 0);
  }

  /** Segment `s` of the awaited frame lies in its place. */
  lemma {:induction false} SegmentLies(w: World, s: nat)
    requires Inv(w) && w.cpu == Scanning && |w.out| < |w.line|
    requires s < |Pending(w)| && s < |Pieces(Awaited(w))|
    ensures Pending(w)[s] == Pieces(Awaited(w))[s]
    ensures var e, m := w.r.d[At(|w.r.d|, Base(w), s)], |Pieces(Awaited(w))|;
            IsSegment(e, s, m) && e.size == |Awaited(w)| && (Pending(w)[s].s.ls <==> s == m - 1)
  {
    var n, base := |w.r.d|, Base(w);
    PendingBelongs(w, s);
    CutShape(Awaited(w), true, s);
    assert Holds(w.r, At(n, base, 0 + s), Pending(w)[s]);
    assert Dist(n, base, At(n, base, s)) == s;
  }

  /** A scan inside a frame has not passed its last segment. */
  lemma {:induction false} BeforeLast(w: World)
    requires Inv(w) && w.cpu == Scanning && |w.out| < |w.line|
    ensures w.c.info.segCount < |Pieces(Awaited(w))|
  {
    var m := |Pieces(Awaited(w))|;
    if m <= w.c.info.segCount {
      SegmentLies(w, m - 1);
    }
  }

  lemma {:induction false} LookKeeps(w: World)
    requires Inv(w)
    ensures Inv(Looked(w))
  {
    NextReady(w, Look);
    if w.cpu == Scanning && !w.r.d[w.c.rx].own {
      Awaiting(w);
      BeforeLast(w);
      if Fits(Awaited(w), |w.r.d|) { LookInFrame(w); } else { LookInLongFrame(w); }
    }
  }

  lemma {:induction false} LookInFrame(w: World)
    requires Inv(w) && w.cpu == Scanning && !w.r.d[w.c.rx].own && |w.out| < |w.line|
    requires Fits(Awaited(w), |w.r.d|) && Ready(Looked(w))
    ensures Inv(Looked(w))
  {
    Awaiting(w);
    BeforeLast(w);
    var s, m, base := w.c.info.segCount, |Pieces(Awaited(w))|, Base(w);
    SegmentLies(w, s);
    PassInside(w.c, w.r.d, 0, base, m, s);
    if s == m - 1 {
      Delivers(w, Pass(w.c, w.r.d, 0).0);
    } else {
      LooksOn(w, Looked(w));
    }
  }

  /** In a frame longer than the ring the scan goes round, and finds no last segment. */
  lemma {:induction false} LookInLongFrame(w: World)
    requires Inv(w) && w.cpu == Scanning && !w.r.d[w.c.rx].own && |w.out| < |w.line|
    requires !Fits(Awaited(w), |w.r.d|) && Ready(Looked(w))
    ensures Inv(Looked(w)) && Looked(w).out == w.out
  {
    Awaiting(w);
    var s, base := w.c.info.segCount, Base(w);
    if s < |w.r.d| {
      SegmentLies(w, s);
      PassOn(w.c, w.r.d, 0, base, s);
      LooksOn(w, Looked(w));
    } else {
      SegmentLies(w, 0);
      LooksAgain(w, Looked(w));
    }
  }

  lemma {:induction false} LooksAgain(w: World, v: World)
    requires Inv(w) && w.cpu == Scanning && Ready(v) && v == w.(c := v.c)
    requires v.c.info.segCount == 1 <= |Pending(w)| && Inside(v.c, w.r.d, Base(w), 1)
    requires !Pending(w)[0].s.ls
    ensures Inv(v)
  {
  }

  lemma {:induction false} LooksOn(w: World, v: World)
    requires Inv(w) && w.cpu == Scanning && Ready(v) && v == w.(c := v.c)
    requires v.c.info.segCount == w.c.info.segCount + 1 <= |Pending(w)|
    requires Inside(v.c, w.r.d, Base(w), v.c.info.segCount)
    requires !Pending(w)[w.c.info.segCount].s.ls
    ensures Inv(v)
  {
  }

  /** The last segment: what is copied out is the frame without its CRC. */
  lemma {:induction false} FrameCopied(w: World)
    requires Inv(w) && w.cpu == Scanning && |w.out| < |w.line|
    requires |Pieces(Awaited(w))| <= |Pending(w)|
    ensures var x := Awaited(w); CRC_SIZE <= |x| < FL_RANGE && Gather(w.r, Base(w), |x| - CRC_SIZE) == Payload(x)
  {
    var x, base := Awaited(w), Base(w);
    assert Fits(x, |w.r.d|) && HasLength(w.line[|w.out|], |w.r.d|);
    forall j | 0 <= j < |Cut(x, true)| ensures StoredAt(w.r.bufs[At(|w.r.d|, base, j)], Cut(x, true)[j].data) {
      PendingBelongs(w, j);
      assert Holds(w.r, At(|w.r.d|, base, 0 + j), Pending(w)[j]);
    }
    GatherIsFrame(w.r, base, x, true, |x| - CRC_SIZE);
  }

  lemma {:induction false} Delivers(w: World, b: Cursor)
    requires Inv(w) && w.cpu == Scanning && |w.out| < |w.line|
    requires var x, s := w.line[|w.out|], w.c.info.segCount;
             && s == |Pieces(x)| - 1 && s < |Pending(w)| && |Pieces(x)| <= |w.r.d|
             && w.r.d[At(|w.r.d|, Base(w), s)].size == |x|
             && Delimits(b, w.r.d, Base(w), |Pieces(x)|)
    requires Looked(w) == w.(c := b, cpu := Releasing(b.info.fs.index, b.info.segCount),
                             out := w.out + [Gather(w.r, Base(w), Wrap16(b.info.length))])
    requires Ready(Looked(w))
    ensures Inv(Looked(w))
  {
    var x := Awaited(w);
    FrameCopied(w);
    assert Wrap16(b.info.length) == |x| - CRC_SIZE;
    ArcDone(w.r, Base(w), Pending(w), |Pieces(x)|);
    DeliverResult(w, Looked(w), x);
  }

  lemma {:induction false} DeliverResult(w: World, v: World, x: Frame)
    requires Inv(w) && w.cpu == Scanning && |w.out| < |w.line| && x == Awaited(w)
    requires |Pieces(x)| <= |Pending(w)| && |Pieces(x)| <= |w.r.d|
    requires Ready(v) && v == w.(c := v.c, cpu := v.cpu, out := w.out + [Payload(x)])
    requires v.cpu == Releasing(Base(w), |Pieces(x)|) && v.c.rx == At(|w.r.d|, Base(w), |Pieces(x)|)
    requires RxArc(w.r, Base(w), |Pieces(x)|, Pending(w)[|Pieces(x)|..])
    ensures Inv(v)
  {
    StreamOne(w.line, |w.out|);
    assert Pending(v) == Pending(w)[|Pieces(x)|..];
    PayloadsGrow(w.line, |w.out|);
  }

  lemma PayloadsGrow(line: seq<Frame>, f: nat)
    requires f < |line|
    ensures Payloads(line[..f + 1]) == Payloads(line[..f]) + [Payload(line[f])]
  {
  }

  // ---- every run -----------------------------------------------------------------------

  /** After HAL_ETH_DMARxDescListInit, before the first frame. */
  ghost predicate Fresh(w: World) {
    && Ready(w) && (forall i :: 0 <= i < |w.r.d| ==> w.r.d[i].own)
    && w.r.dma == w.c.rx == 0 && w.c.info.segCount == 0
    && w.cpu == Scanning && w.written == 0 && w.out == []
  }

  lemma {:induction false} FreshKeeps(w: World)
    requires Fresh(w) && WellFormed(w.line, |w.r.d|)
    ensures Inv(w)
  {
    assert w.line[..0] == [];
  }

  lemma {:induction false} InvAlways(w: World, steps: seq<Step>)
    requires Fresh(w) && WellFormed(w.line, |w.r.d|)
    ensures Inv(Play(w, steps)) && Play(w, steps).line == w.line && |Play(w, steps).r.d| == |w.r.d|
  {
    if steps == [] {
      FreshKeeps(w);
    } else {
      InvAlways(w, steps[..|steps| - 1]);
      InvStep(Play(w, steps[..|steps| - 1]), steps[|steps| - 1]);
    }
  }

  lemma {:induction false} InvStep(w: World, s: Step)
    requires Inv(w)
    ensures Inv(Next(w, s)) && Next(w, s).line == w.line && |Next(w, s).r.d| == |w.r.d|
  {
    match s
    case Arrive => ArriveKeeps(w);
    case Look => LookKeeps(w);
    case Release => ReleaseKeeps(w);
  }

  /**
   In every interleaving of DMA, scan and release, the frames delivered are the frames that
   arrived, from the first on, each whole and without its CRC. They all fit the ring.
   */
  lemma {:induction false} FramesArriveInOrder(w: World, steps: seq<Step>)
    requires Fresh(w) && WellFormed(w.line, |w.r.d|)
    ensures var v := Play(w, steps);
            |v.out| <= |w.line| && v.out == Payloads(w.line[..|v.out|]) && AllFit(w.line, |v.out|, |w.r.d|)
  {
    InvAlways(w, steps);
  }

  /** Whatever is done, a frame of more segments than the ring has descriptors ends all reception. */
  lemma {:induction false} LongFrameStopsReception(w: World, steps: seq<Step>, f: nat)
    requires Fresh(w) && WellFormed(w.line, |w.r.d|) && f < |w.line| && !Fits(w.line[f], |w.r.d|)
    ensures |Play(w, steps).out| <= f
  {
    FramesArriveInOrder(w, steps);
  }

  /** Once the scan has caught up with the last frame, all frames have been delivered. */
  lemma {:induction false} NothingIsLost(w: World, steps: seq<Step>)
    requires Fresh(w) && WellFormed(w.line, |w.r.d|)
    requires var v := Play(w, steps); v.cpu == Scanning && v.written == |Stream(w.line)| && v.r.d[v.c.rx].own
    ensures Play(w, steps).out == Payloads(w.line)
  {
    InvAlways(w, steps);
    var v := Play(w, steps);
    CaughtUp(v);
    assert w.line[..|v.out|] == w.line;
  }

  lemma {:induction false} AtOwn(v: World)
    requires Inv(v) && v.cpu == Scanning && v.r.d[v.c.rx].own
    ensures v.c.info.segCount == |Pending(v)| < |v.r.d|
  {
    var s, n, base := v.c.info.segCount, |v.r.d|, Base(v);
    assert Dist(n, base, v.c.rx) == if s < n then s else 0;
  }

  lemma {:induction false} CaughtUp(v: World)
    requires Inv(v) && v.cpu == Scanning && v.written == |Stream(v.line)| && v.r.d[v.c.rx].own
    ensures |v.out| == |v.line|
  {
    AtOwn(v);
    if |v.out| < |v.line| {
      StreamSplit(v.line, |v.out|);
      StreamOne(v.line, |v.out|);
      BeforeLast(v);
    }
  }

  // ---- progress ------------------------------------------------------------------------

  /** How many pieces the scan has passed. */
  function Scanned(w: World): nat
    requires |w.out| <= |w.line|
  {
    Consumed(w) + if w.cpu == Scanning then w.c.info.segCount else 0
  }

  /** A product that proofs know by TimesLess only. */
  function Times(a: nat, b: int): int {
    a * b
  }

  lemma TimesLess(a: nat, b: int)
    ensures Times(a, b - 1) == Times(a, b) - a
    ensures b >= 0 ==> Times(a, b) >= 0
  {
  }

  /** How many steps are left at most. */
  ghost function Measure(w: World): int
    requires |w.out| <= |w.line|
  {
    |Stream(w.line)| - w.written + Times(|w.r.d| + 2, |Stream(w.line)| - Scanned(w))
    + if w.cpu.Releasing? then w.cpu.left + 1 else 0
  }

  lemma {:induction false} MeasureIsNatural(w: World)
    requires Inv(w)
    ensures Measure(w) >= 0
  {
    TimesLess(|w.r.d| + 2, |Stream(w.line)| - Scanned(w));
  }

  /** A pass over a descriptor of the CPU counts for more than all it may leave to release. */
  lemma {:induction false} LookCounts(w: World)
    requires Inv(w) && AllFit(w.line, |w.line|, |w.r.d|) && w.cpu == Scanning && !w.r.d[w.c.rx].own
    ensures |Looked(w).out| <= |w.line| && Looked(w) != w
    ensures Measure(Looked(w)) < Measure(w)
  {
    Awaiting(w);
    BeforeLast(w);
    var s, m, base := w.c.info.segCount, |Pieces(Awaited(w))|, Base(w);
    assert Fits(w.line[|w.out|], |w.r.d|);
    SegmentLies(w, s);
    PassInside(w.c, w.r.d, 0, base, m, s);
    StreamOne(w.line, |w.out|);
    TimesLess(|w.r.d| + 2, |Stream(w.line)| - Scanned(w));
    LookFields(w, Looked(w), s, m);
  }

  lemma {:induction false} LookFields(w: World, v: World, s: nat, m: nat)
    requires |w.out| < |w.line| && w.cpu == Scanning && w.c.info.segCount == s < m <= |w.r.d|
    requires m == |Pieces(Awaited(w))| && |Stream(w.line[..|w.out| + 1])| == Consumed(w) + m
    requires v == w.(c := v.c, cpu := v.cpu, out := v.out)
    requires if s == m - 1 then |v.out| == |w.out| + 1 && v.cpu.Releasing? && v.cpu.left == m
             else v.out == w.out && v.cpu == Scanning && v.c.info.segCount == s + 1
    requires var t := |Stream(w.line)| - Scanned(w); Times(|w.r.d| + 2, t - 1) == Times(|w.r.d| + 2, t) - (|w.r.d| + 2)
    ensures |v.out| <= |w.line| && v != w && Measure(v) < Measure(w)
  {
    assert Scanned(v) == Scanned(w) + 1;
  }

  /** Every step that changes anything uses up the measure. */
  lemma {:induction false} EveryStepCounts(w: World, s: Step)
    requires Inv(w) && AllFit(w.line, |w.line|, |w.r.d|) && Next(w, s) != w
    ensures |Next(w, s).out| <= |w.line| && Measure(Next(w, s)) < Measure(w)
  {
    match s
    case Arrive =>
      assert Scanned(Arrived(w)) == Scanned(w) && |Arrived(w).r.d| == |w.r.d|;
    case Look => LookCounts(w);
    case Release =>
      assert Scanned(Released(w)) == Scanned(w) && |Released(w).r.d| == |w.r.d|;
  }

  /** Nothing is left to do for the DMA, the scan or the release loop. */
  ghost predicate AtRest(w: World)
    requires Ready(w)
  {
    forall s: Step :: Next(w, s) == w
  }

  lemma {:induction false} RestIsEnd(v: World)
    requires Inv(v) && AllFit(v.line, |v.line|, |v.r.d|) && AtRest(v)
    ensures |v.out| == |v.line|
  {
    assert Next(v, Arrive) == v && Next(v, Look) == v && Next(v, Release) == v;
    assert v.cpu == Scanning;
    if !v.r.d[v.c.rx].own { LookCounts(v); }
    AtOwn(v);
    var q := |Pending(v)|;
    assert Dist(|v.r.d|, Base(v), v.r.dma) == q;
    CaughtUp(v);
  }

  predicate Effective(w: World, v: World) {
    v != w
  }

  ghost predicate AllEffective(w: World, steps: seq<Step>)
    requires Ready(w)
  {
    forall i: nat :: i < |steps| ==> Effective(Play(w, steps[..i]), Play(w, steps[..i + 1]))
  }

  lemma {:induction false} UsesUp(w: World, steps: seq<Step>)
    requires Fresh(w) && WellFormed(w.line, |w.r.d|) && AllFit(w.line, |w.line|, |w.r.d|) && AllEffective(w, steps)
    ensures |Play(w, steps).out| <= |Play(w, steps).line| && Measure(Play(w, steps)) + |steps| <= Measure(w)
  {
    InvAlways(w, steps);
    if steps != [] {
      var n := |steps| - 1;
      var front := steps[..n];
      forall i: nat | i < n ensures Effective(Play(w, front[..i]), Play(w, front[..i + 1])) {
        assert front[..i] == steps[..i] && front[..i + 1] == steps[..i + 1];
        assert Effective(Play(w, steps[..i]), Play(w, steps[..i + 1]));
      }
      UsesUp(w, front);
      InvAlways(w, front);
      assert Effective(Play(w, steps[..n]), Play(w, steps[..n + 1])) && steps[..n + 1] == steps;
      EveryStepCounts(Play(w, front), steps[n]);
    }
  }

  /**
   If all frames fit the ring they all arrive: however the three take turns, steps that change
   something run out, and they can run out only when every frame has been delivered.
   */
  lemma {:induction false} AllArriveIfTheyFit(w: World, steps: seq<Step>)
    requires Fresh(w) && WellFormed(w.line, |w.r.d|) && AllFit(w.line, |w.line|, |w.r.d|)
    ensures AllEffective(w, steps) ==> |steps| <= Measure(w)
    ensures AtRest(Play(w, steps)) ==> Play(w, steps).out == Payloads(w.line)
  {
    InvAlways(w, steps);
    var v := Play(w, steps);
    if AllEffective(w, steps) {
      UsesUp(w, steps);
      MeasureIsNatural(v);
    }
    if AtRest(v) {
      RestIsEnd(v);
      assert w.line[..|v.out|] == w.line;
    }
  }

  /** Where the receive watchdog of the MAC cuts a frame. */
  const WATCHDOG_LIMIT := 2048

  lemma {:induction false} ShortFrameFits(x: Frame, first: bool)
    requires |x| <= WATCHDOG_LIMIT
    ensures |Cut(x, first)| <= 2
  {
  }

  /** With the watchdog enabled every frame fits a ring of two descriptors or more, and all arrive. */
  lemma {:induction false} AllArriveUnderWatchdog(w: World, steps: seq<Step>)
    requires Fresh(w) && WellFormed(w.line, |w.r.d|) && |w.r.d| >= 2
    requires forall i :: 0 <= i < |w.line| ==> |w.line[i]| <= WATCHDOG_LIMIT
    ensures AllEffective(w, steps) ==> |steps| <= Measure(w)
    ensures AtRest(Play(w, steps)) ==> Play(w, steps).out == Payloads(w.line)
  {
    forall i | 0 <= i < |w.line| ensures Fits(w.line[i], |w.r.d|) { ShortFrameFits(w.line[i], true); }
    AllArriveIfTheyFit(w, steps);
  }
}
