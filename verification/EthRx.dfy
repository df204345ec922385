/**
 The receive side of the Ethernet driver: reassembly of frames by single step and by a bounded
 scan over the descriptors that the DMA has given back.
 */
module EthRx {
  import opened Hal
  import opened Words
  import opened EthRing

  const ETH_RXBUFNB: nat := 5

  datatype State = READY | BUSY

  /** A descriptor pointer; the handle starts with null ones. */
  datatype Pointer = Null | To(index: nat)

  /** RxFrameInfos */
  datatype Info = Info(fs: Pointer, ls: Pointer, segCount: u32, length: u32, buffer: nat)

  /** RxDesc and RxFrameInfos: all that survives from one call to the next. */
  datatype Cursor = Cursor(rx: nat, info: Info)

  datatype Found = Owned | Partial | Complete

  predicate Valid(c: Cursor, d: seq<Desc>) {
    Linked(d) && c.rx < |d| && (c.info.fs.To? ==> c.info.fs.index < |d|)
  }

  function NextOf(c: Cursor, d: seq<Desc>): (i: nat)
    requires Valid(c, d)
    ensures i == At(|d|, c.rx, 1)
  {
    assert LinkedAt(d, c.rx);
    d[c.rx].next
  }

  /** The last segment of a frame; `atNull` is the word that a null FSRxDesc would yield as buffer address. */
  function Last(c: Cursor, d: seq<Desc>, atNull: nat): Cursor
    requires Valid(c, d)
  {
    var n := Wrap32(c.info.segCount + 1);
    var first := if n == 1 then To(c.rx) else c.info.fs;
    Cursor(NextOf(c, d),
           Info(first, To(c.rx), n, Wrap32(d[c.rx].size - 4), if first.To? then d[first.index].buffer else atNull))
  }

  function Counted(c: Cursor, d: seq<Desc>): Cursor
    requires Valid(c, d)
  {
    Cursor(NextOf(c, d), c.info.(segCount := Wrap32(c.info.segCount + 1)))
  }

  /** What HAL_ETH_GetReceivedFrame does with RxDesc. */
  function Single(c: Cursor, d: seq<Desc>, atNull: nat): (r: (Cursor, Found))
    requires Valid(c, d)
    ensures Valid(r.0, d)
  {
    var e := d[c.rx];
    if e.own then (c, Owned)
    else if e.ls then (Last(c, d, atNull), Complete)
    else if e.fs then (Cursor(NextOf(c, d), c.info.(fs := To(c.rx), ls := Null, segCount := 1)), Partial)
    else (Counted(c, d), Partial)
  }

  /** One pass of the loop of HAL_ETH_GetReceivedFrame_IT: other tests, and LSRxDesc is left alone. */
  function Pass(c: Cursor, d: seq<Desc>, atNull: nat): (r: (Cursor, Found))
    requires Valid(c, d)
    ensures Valid(r.0, d)
  {
    var e := d[c.rx];
    if e.own then (c, Owned)
    else if e.fs && !e.ls then (Cursor(NextOf(c, d), c.info.(fs := To(c.rx), segCount := 1)), Partial)
    else if !e.ls && !e.fs then (Counted(c, d), Partial)
    else (Last(c, d, atNull), Complete)
  }

  /** Single steps until one does not find a partial frame, at most `n`. */
  function Iterate(c: Cursor, d: seq<Desc>, atNull: nat, n: nat): (r: (Cursor, Found))
    requires Valid(c, d)
    ensures Valid(r.0, d)
    decreases n
  {
    if n == 0 then (c, Partial)
    else
      var (b, found) := Single(c, d, atNull);
      if found != Partial then (b, found) else Iterate(b, d, atNull, n - 1)
  }

  /** The loop of HAL_ETH_GetReceivedFrame_IT with `n` passes left. */
  function Scan(c: Cursor, d: seq<Desc>, atNull: nat, n: nat): (r: (Cursor, Found))
    requires Valid(c, d)
    ensures Valid(r.0, d)
    decreases n
  {
    if n == 0 then (c, Partial)
    else
      var (b, found) := Pass(c, d, atNull);
      if found != Partial then (b, found) else Scan(b, d, atNull, n - 1)
  }

  // ---- scan and single step agree ------------------------------------------------------

  /** Equal but for LSRxDesc. */
  predicate Agree(a: Cursor, b: Cursor) {
    a.rx == b.rx && a.info == b.info.(ls := a.info.ls)
  }

  lemma PassAgrees(a: Cursor, b: Cursor, d: seq<Desc>, atNull: nat)
    requires Valid(a, d) && Valid(b, d) && Agree(a, b)
    ensures var (p, foundP) := Pass(a, d, atNull);
            var (s, foundS) := Single(b, d, atNull);
            foundP == foundS && Agree(p, s) && (foundP == Complete ==> p == s)
  {
  }

  /**
   The scan finds what single steps find: same RxDesc, SegCount and FSRxDesc, and on success the
   same LSRxDesc, length and buffer.
   */
  lemma {:induction false} ScanRefinesSingleStep(a: Cursor, b: Cursor, d: seq<Desc>, atNull: nat, n: nat)
    requires Valid(a, d) && Valid(b, d) && Agree(a, b)
    ensures var (p, foundP) := Scan(a, d, atNull, n);
            var (s, foundS) := Iterate(b, d, atNull, n);
            foundP == foundS && Agree(p, s) && (foundP == Complete ==> p == s)
    decreases n
  {
    if n > 0 {
      PassAgrees(a, b, d, atNull);
      if Pass(a, d, atNull).1 == Partial {
        ScanRefinesSingleStep(Pass(a, d, atNull).0, Single(b, d, atNull).0, d, atNull, n - 1);
      }
    }
  }

  /** They do not agree on LSRxDesc: a first segment clears it by single step and not in the scan. */
  lemma {:induction false} OnlySingleStepClearsLast(c: Cursor, d: seq<Desc>, atNull: nat)
    requires Valid(c, d) && !d[c.rx].own && d[c.rx].fs && !d[c.rx].ls && c.info.ls != Null
    ensures Scan(c, d, atNull, 1).0.info.ls == c.info.ls
    ensures Iterate(c, d, atNull, 1).0.info.ls == Null
  {
    assert Scan(Pass(c, d, atNull).0, d, atNull, 0).0 == Pass(c, d, atNull).0;
    assert Iterate(Single(c, d, atNull).0, d, atNull, 0).0 == Single(c, d, atNull).0;
  }

  // ---- frames --------------------------------------------------------------------------

  /** Descriptor `i` is segment `j` of a frame of `n` segments that the DMA has completed. */
  predicate IsSegment(e: Desc, j: nat, n: nat) {
    !e.own && (e.fs <==> j == 0) && (e.ls <==> j == n - 1)
  }

  /** FS, middle*, LS: a whole frame of `n` descriptors from `start` on. */
  predicate FrameAt(d: seq<Desc>, start: nat, n: nat)
    requires start < |d|
  {
    0 < n <= |d| && forall j :: 0 <= j < n ==> IsSegment(d[At(|d|, start, j)], j, n)
  }

  /** After `j` segments of the frame, all but the last. */
  predicate Inside(c: Cursor, d: seq<Desc>, start: nat, j: nat)
    requires start < |d|
  {
    j <= |d| && c.rx == At(|d|, start, j) && c.info.segCount == j && (j > 0 ==> c.info.fs == To(start))
  }

  /** The frame is delimited: FSRxDesc, LSRxDesc, SegCount, length and buffer are its own. */
  predicate Delimits(c: Cursor, d: seq<Desc>, start: nat, n: nat)
    requires start < |d| < TWO_TO_THE_32 && 0 < n <= |d|
  {
    var last := At(|d|, start, n - 1);
    c == Cursor(At(|d|, start, n), Info(To(start), To(last), n, Wrap32(d[last].size - 4), d[start].buffer))
  }

  lemma PassInside(c: Cursor, d: seq<Desc>, atNull: nat, start: nat, n: nat, j: nat)
    requires Valid(c, d) && start < |d| < TWO_TO_THE_32 && 0 < n <= |d| && j < n && Inside(c, d, start, j)
    requires IsSegment(d[c.rx], j, n)
    ensures var (b, found) := Pass(c, d, atNull);
            if j == n - 1 then found == Complete && Delimits(b, d, start, n)
            else found == Partial && Inside(b, d, start, j + 1)
  {
  }

  /** A segment that is not the last: one descriptor further inside. */
  lemma PassOn(c: Cursor, d: seq<Desc>, atNull: nat, start: nat, j: nat)
    requires Valid(c, d) && start < |d| < TWO_TO_THE_32 && j < |d| && Inside(c, d, start, j)
    requires !d[c.rx].own && !d[c.rx].ls && (d[c.rx].fs <==> j == 0)
    ensures var (b, found) := Pass(c, d, atNull); found == Partial && Inside(b, d, start, j + 1)
  {
  }

  /**
   From inside a frame, with enough passes, the scan succeeds and delimits exactly that frame;
   with fewer it stops further inside, where the next call goes on.
   */
  lemma {:induction false} ScanDelimitsFrame(c: Cursor, d: seq<Desc>, atNull: nat, start: nat, n: nat, j: nat, m: nat)
    requires Valid(c, d) && start < |d| < TWO_TO_THE_32 && FrameAt(d, start, n) && j < n && Inside(c, d, start, j)
    ensures var (b, found) := Scan(c, d, atNull, m);
            if j + m >= n then found == Complete && Delimits(b, d, start, n)
            else found == Partial && Inside(b, d, start, j + m)
    decreases m
  {
    if m > 0 {
      assert IsSegment(d[At(|d|, start, j)], j, n);
      PassInside(c, d, atNull, start, n, j);
      if j < n - 1 {
        ScanDelimitsFrame(Pass(c, d, atNull).0, d, atNull, start, n, j + 1, m - 1);
      }
    }
  }

  /** Starting from SegCount = 0 on a whole frame, whatever else the handle remembers. */
  lemma {:induction false} WholeFrameIsFound(c: Cursor, d: seq<Desc>, atNull: nat, n: nat)
    requires Valid(c, d) && |d| < TWO_TO_THE_32 && c.info.segCount == 0
    requires FrameAt(d, c.rx, n) && n <= ETH_RXBUFNB
    ensures Scan(c, d, atNull, ETH_RXBUFNB).1 == Complete
    ensures Delimits(Scan(c, d, atNull, ETH_RXBUFNB).0, d, c.rx, n)
  {
    ScanDelimitsFrame(c, d, atNull, c.rx, n, 0, ETH_RXBUFNB);
  }

  lemma {:induction false} FollowNext(d: seq<Desc>, i: nat, k: nat)
    requires Linked(d) && i < |d|
    ensures Follow(d, Follow(d, i, 1), k) == Follow(d, i, k + 1)
  {
    if k > 0 { FollowNext(d, i, k - 1); }
  }

  /** With no last segment in sight the scan gives up after its bound, however often that leads round the ring. */
  lemma {:induction false} ScanIsBounded(c: Cursor, d: seq<Desc>, atNull: nat, m: nat)
    requires Valid(c, d)
    requires forall j: nat :: j < m ==> var e := d[Follow(d, c.rx, j)]; !e.own && !e.ls
    ensures var (b, found) := Scan(c, d, atNull, m); found == Partial && b.rx == Follow(d, c.rx, m)
    decreases m
  {
    if m > 0 {
      var b := Pass(c, d, atNull).0;
      OneLink(d, c.rx);
      assert Follow(d, c.rx, 0) == c.rx && b.rx == Follow(d, c.rx, 1);
      forall j: nat | j < m - 1 ensures var e := d[Follow(d, b.rx, j)]; !e.own && !e.ls {
        FollowNext(d, c.rx, j);
      }
      ScanIsBounded(b, d, atNull, m - 1);
      FollowNext(d, c.rx, m - 1);
    }
  }

  // ---- the driver ----------------------------------------------------------------------

  datatype Handle = Handle(state: State, locked: bool)

  class EthHandle {
    var h: Handle
    var c: Cursor
    const descs: array<Desc>

    predicate Ok()
      reads this, descs
    {
      Valid(c, descs[..])
    }

    constructor (count: nat)
      ensures h == Handle(READY, false) && c == Cursor(0, Info(Null, Null, 0, 0, 0))
      ensures fresh(descs) && descs.Length == count
    {
      descs := new Desc[count](_ => Desc(false, false, false, 0, 0, 0));
      h := Handle(READY, false);
      c := Cursor(0, Info(Null, Null, 0, 0, 0));
    }

    /** HAL_ETH_DMARxDescListInit: the whole ring belongs to the DMA. */
    method DescListInit() returns (status: Status)
      modifies this`h, this`c, descs
      ensures old(h.locked) ==> status == HAL_BUSY && h == old(h) && c == old(c) && descs[..] == old(descs[..])
      ensures !old(h.locked) ==>
                && status == HAL_OK && h == Handle(READY, false) && c == old(c).(rx := 0)
                && (descs.Length > 0 ==> Linked(descs[..]))
                && forall k :: 0 <= k < descs.Length ==>
                     var e := descs[k]; e.own && !e.fs && !e.ls && e.size == 0 && e.buffer == k
    {
      if h.locked { return HAL_BUSY; }
      h := Handle(BUSY, true);
      c := c.(rx := 0);
      var i := 0;
      while i < descs.Length
        invariant 0 <= i <= descs.Length && h == Handle(BUSY, true) && c == old(c).(rx := 0)
        invariant forall k :: 0 <= k < i ==>
                    var e := descs[k];
                    e.own && !e.fs && !e.ls && e.size == 0 && e.buffer == k && e.next == At(descs.Length, k, 1)
      {
        var e := descs[i].(own := true, fs := false, ls := false, size := 0, buffer := i);
        descs[i] := if i < descs.Length - 1 then e.(next := i + 1) else e.(next := 0);
        i := i + 1;
      }
      h := Handle(READY, false);
      assert forall k :: 0 <= k < descs.Length ==> LinkedAt(descs[..], k);
      return HAL_OK;
    }

    /** The code that both receive calls share: the frame is complete. */
    method TakeLast(atNull: nat)
      requires Ok()
      modifies this`c
      ensures c == Last(old(c), descs[..], atNull)
    {
      assert LinkedAt(descs[..], c.rx);
      c := c.(info := c.info.(segCount := Wrap32(c.info.segCount + 1), ls := To(c.rx)));
      if c.info.segCount == 1 {
        c := c.(info := c.info.(fs := To(c.rx)));
      }
      c := c.(info := c.info.(length := Wrap32(descs[c.rx].size - 4)));
      c := c.(info := c.info.(buffer := if c.info.fs.To? then descs[c.info.fs.index].buffer else atNull));
      c := c.(rx := descs[c.rx].next);
    }

    /** HAL_ETH_GetReceivedFrame */
    method GetReceivedFrame(atNull: nat) returns (status: Status)
      requires Ok()
      modifies this`h, this`c
      ensures Ok()
      ensures old(h.locked) ==> status == HAL_BUSY && h == old(h) && c == old(c)
      ensures !old(h.locked) ==>
                && h == Handle(READY, false)
                && c == Single(old(c), descs[..], atNull).0
                && (status == if Single(old(c), descs[..], atNull).1 == Complete then HAL_OK else HAL_ERROR)
    {
      if h.locked { return HAL_BUSY; }
      h := Handle(BUSY, true);
      ghost var was, d := c, descs[..];
      assert LinkedAt(d, c.rx);
      if !descs[c.rx].own {
        if descs[c.rx].ls {
          TakeLast(atNull);
          h := Handle(READY, false);
          assert c == Single(was, d, atNull).0;
          return HAL_OK;
        } else if descs[c.rx].fs {
          c := c.(info := c.info.(fs := To(c.rx), ls := Null, segCount := 1));
          c := c.(rx := descs[c.rx].next);
        } else {
          c := c.(info := c.info.(segCount := Wrap32(c.info.segCount + 1)));
          c := c.(rx := descs[c.rx].next);
        }
      }
      assert c == Single(was, d, atNull).0;
      h := Handle(READY, false);
      return HAL_ERROR;
    }

    /** HAL_ETH_GetReceivedFrame_IT */
    method GetReceivedFrameIT(atNull: nat) returns (status: Status)
      requires Ok()
      modifies this`h, this`c
      ensures Ok()
      ensures old(h.locked) ==> status == HAL_BUSY && h == old(h) && c == old(c)
      ensures !old(h.locked) ==>
                && h == Handle(READY, false)
                && c == Scan(old(c), descs[..], atNull, ETH_RXBUFNB).0
                && (status == if Scan(old(c), descs[..], atNull, ETH_RXBUFNB).1 == Complete then HAL_OK else HAL_ERROR)
    {
      if h.locked { return HAL_BUSY; }
      h := Handle(BUSY, true);
      ghost var d, goal := descs[..], Scan(c, descs[..], atNull, ETH_RXBUFNB);
      var scanned := 0;
      while !descs[c.rx].own && scanned < ETH_RXBUFNB
        invariant Ok() && 0 <= scanned <= ETH_RXBUFNB && h == Handle(BUSY, true)
        invariant goal == Scan(c, d, atNull, ETH_RXBUFNB - scanned)
      {
        assert LinkedAt(d, c.rx);
        ghost var was := c;
        scanned := scanned + 1;
        if descs[c.rx].fs && !descs[c.rx].ls {
          c := c.(info := c.info.(fs := To(c.rx), segCount := 1));
          c := c.(rx := descs[c.rx].next);
        } else if !descs[c.rx].ls && !descs[c.rx].fs {
          c := c.(info := c.info.(segCount := Wrap32(c.info.segCount + 1)));
          c := c.(rx := descs[c.rx].next);
        } else {
          TakeLast(atNull);
          assert goal == (Last(was, d, atNull), Complete) && Pass(was, d, atNull) == goal;
          h := Handle(READY, false);
          return HAL_OK;
        }
        assert (c, Partial) == Pass(was, d, atNull);
      }
      h := Handle(READY, false);
      return HAL_ERROR;
    }
  }
}
