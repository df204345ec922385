/**
 The transmit side of the Ethernet driver: the descriptors that the CPU fills and hands to the DMA
 by their OWN bit, and the frame cut into segments on the way.
 */
module EthTx {
  import opened Hal
  import opened Words
  import opened EthFrames
  import opened EthRing

  const ETH_TX_BUF_SIZE: nat := ETH_MAX_PACKET_SIZE

  /** TBS1, the 13-bit size field of a descriptor, keeps a size modulo this. */
  const TBS1_RANGE: nat := 0x2000

  datatype State = READY | BUSY | BUSY_TX

  // ---- one frame, cut into segments ----------------------------------------------------

  function BufCount(length: nat): nat {
    if length > ETH_TX_BUF_SIZE then
      length / ETH_TX_BUF_SIZE + if length % ETH_TX_BUF_SIZE != 0 then 1 else 0
    else 1
  }

  function SegmentSize(length: nat, i: nat): nat
    requires i < BufCount(length)
  {
    (if i == BufCount(length) - 1 then length - i * ETH_TX_BUF_SIZE else ETH_TX_BUF_SIZE) % TBS1_RANGE
  }

  /** Descriptor `e` after segment `i` of the frame has been put into it and given to the DMA. */
  function Handed(e: Desc, length: nat, i: nat): Desc
    requires i < BufCount(length)
  {
    e.(own := true, fs := i == 0, ls := i == BufCount(length) - 1, size := SegmentSize(length, i))
  }

  /** The ring after the first `i` segments have been handed over. */
  function HandOver(d: seq<Desc>, tx: nat, length: nat, i: nat): (r: (seq<Desc>, nat))
    requires Linked(d) && tx < |d| && i <= BufCount(length)
    ensures |r.0| == |d| && Linked(r.0) && r.1 < |d|
  {
    if i == 0 then (d, tx)
    else
      var (e, t) := HandOver(d, tx, length, i - 1);
      var f := e[t := Handed(e[t], length, i - 1)];
      Relinked(e, t, Handed(e[t], length, i - 1));
      assert LinkedAt(e, t);
      (f, e[t].next)
  }

  /** As long as the ring is not lapped, segment `i` is in the i-th descriptor and no other is touched. */
  predicate HandedOver(d: seq<Desc>, e: seq<Desc>, tx: nat, length: nat, i: nat)
    requires tx < |d| == |e| && i <= BufCount(length)
  {
    forall k :: 0 <= k < |d| ==>
      e[k] == if Dist(|d|, tx, k) < i then Handed(d[k], length, Dist(|d|, tx, k)) else d[k]
  }

  lemma {:induction false} HandOverShape(d: seq<Desc>, tx: nat, length: nat, i: nat)
    requires Linked(d) && tx < |d| && i <= BufCount(length) && i <= |d|
    ensures var (e, t) := HandOver(d, tx, length, i); t == At(|d|, tx, i) && HandedOver(d, e, tx, length, i)
  {
    if i > 0 {
      HandOverShape(d, tx, length, i - 1);
      var (e, t) := HandOver(d, tx, length, i - 1);
      assert LinkedAt(e, t);
      assert Dist(|d|, tx, t) == i - 1;
    }
  }

  function SumOfSizes(length: nat, i: nat): nat
    requires i <= BufCount(length)
  {
    if i == 0 then 0 else SumOfSizes(length, i - 1) + SegmentSize(length, i - 1)
  }

  /** Before the last segment every segment is full; with it the sizes add up to the frame. */
  lemma {:induction false} SizesAddUp(length: nat, i: nat)
    requires length > 0 && i <= BufCount(length)
    ensures SumOfSizes(length, i) == if i == BufCount(length) then length else i * ETH_TX_BUF_SIZE
    ensures i < BufCount(length) ==> i * ETH_TX_BUF_SIZE < length
  {
    CountCovers(length);
    if i > 0 {
      SizesAddUp(length, i - 1);
    }
  }

  lemma CountCovers(length: nat)
    requires length > 0
    ensures var n := BufCount(length); (n - 1) * ETH_TX_BUF_SIZE < length <= n * ETH_TX_BUF_SIZE
  {
  }

  /**
   A frame that finds enough free descriptors: FS on the first of them only, LS on the last only,
   sizes that sum to the frame, and TxDesc moved on by as many.
   */
  lemma {:induction false} LongFrame(d: seq<Desc>, tx: nat, length: nat)
    requires Linked(d) && tx < |d| && length > 0 && BufCount(length) <= |d|
    ensures var n := BufCount(length);
            var (e, t) := HandOver(d, tx, length, n);
            && t == At(|d|, tx, n) && SumOfSizes(length, n) == length
            && (forall i :: 0 <= i < n ==>
                  var x := e[At(|d|, tx, i)];
                  x.own && (x.fs <==> i == 0) && (x.ls <==> i == n - 1) && x.size == SegmentSize(length, i))
            && (forall k :: 0 <= k < |d| && Dist(|d|, tx, k) >= n ==> e[k] == d[k])
  {
    var n := BufCount(length);
    var (e, t) := HandOver(d, tx, length, n);
    HandOverShape(d, tx, length, n);
    SizesAddUp(length, n);
    forall i | 0 <= i < n
      ensures var x := e[At(|d|, tx, i)];
              x.own && (x.fs <==> i == 0) && (x.ls <==> i == n - 1) && x.size == SegmentSize(length, i)
    {
      assert Dist(|d|, tx, At(|d|, tx, i)) == i;
    }
  }

  // ---- the driver ----------------------------------------------------------------------

  /** The handle: `tx` is the index of TxDesc; `tbus` is the DMA's transmit-buffer-unavailable flag. */
  datatype Handle = Handle(state: State, locked: bool, tx: nat, tbus: bool)

  /** The descriptor list as HAL_ETH_DMATxDescListInit leaves it. */
  predicate Initialised(d: seq<Desc>) {
    && Linked(d)
    && forall i :: 0 <= i < |d| ==> !d[i].own && !d[i].fs && !d[i].ls && d[i].buffer == i
  }

  /** HAL_ETH_TransmitFrame */
  function Transmit(h: Handle, d: seq<Desc>, length: nat): (Handle, seq<Desc>, Status)
    requires Linked(d) && h.tx < |d|
  {
    if h.locked then (h, d, HAL_BUSY)
    else if length == 0 then (h.(state := READY), d, HAL_ERROR)
    else if d[h.tx].own then (h.(state := BUSY_TX), d, HAL_ERROR)
    else
      var (e, t) := HandOver(d, h.tx, length, BufCount(length));
      (Handle(READY, false, t, false), e, HAL_OK)
  }

  /** The frame lies in the descriptors from `tx` on: how many, and what each of them says. */
  predicate Carries(d: seq<Desc>, tx: nat, length: nat)
    requires tx < |d|
  {
    var n := (length + 1523) / 1524;
    && n <= |d|
    && forall i :: 0 <= i < n ==>
         var x := d[At(|d|, tx, i)];
         && x.own && (x.fs <==> i == 0) && (x.ls <==> i == n - 1)
         && x.size == if i < n - 1 then 1524 else length - 1524 * i
  }

  lemma SegmentsOf(length: nat)
    requires length > 0
    ensures BufCount(length) == (length + 1523) / 1524
  {
  }

  lemma SizesOf(length: nat, i: nat)
    requires length > 0 && i < BufCount(length)
    ensures SegmentSize(length, i) == if i < BufCount(length) - 1 then 1524 else length - 1524 * i
  {
    CountCovers(length);
  }

  lemma {:induction false} LongFrameCarries(d: seq<Desc>, tx: nat, length: nat)
    requires Linked(d) && tx < |d| && length > 0 && BufCount(length) <= |d|
    ensures var (e, t) := HandOver(d, tx, length, BufCount(length));
            && Carries(e, tx, length) && t == At(|d|, tx, BufCount(length))
            && forall k :: 0 <= k < |d| && Dist(|d|, tx, k) >= BufCount(length) ==> e[k] == d[k]
  {
    LongFrame(d, tx, length);
    SegmentsOf(length);
    forall i | 0 <= i < BufCount(length)
      ensures SegmentSize(length, i) == if i < BufCount(length) - 1 then 1524 else length - 1524 * i
    {
      SizesOf(length, i);
    }
  }

  /**
   What a call comes to: busy iff locked; an error, with the ring as it was, iff there is nothing to
   send or TxDesc is the DMA's; otherwise, if the ring is long enough, the frame in the descriptors
   from TxDesc on, the others as they were, TxDesc behind it and the DMA resumed.
   */
  lemma {:induction false} TransmitOutcome(h: Handle, d: seq<Desc>, length: nat)
    requires Linked(d) && h.tx < |d|
    ensures var (k, e, status) := Transmit(h, d, length);
            && (status == HAL_BUSY <==> h.locked)
            && (status == HAL_ERROR <==> !h.locked && (length == 0 || d[h.tx].own))
            && status in {HAL_OK, HAL_BUSY, HAL_ERROR} && |e| == |d|
            && (status != HAL_OK ==> e == d && k == h.(state := k.state))
            && (status == HAL_BUSY ==> k == h)
            && (status == HAL_ERROR ==> k.state == if length == 0 then READY else BUSY_TX)
            && (status == HAL_OK ==> k.state == READY && !k.locked && !k.tbus)
            && (status == HAL_OK && length <= 1524 * |d| ==>
                  var n := (length + 1523) / 1524;
                  && Carries(e, h.tx, length) && k.tx == At(|d|, h.tx, n)
                  && forall j :: 0 <= j < |d| && Dist(|d|, h.tx, j) >= n ==> e[j] == d[j])
  {
    if !h.locked && length > 0 && !d[h.tx].own && length <= 1524 * |d| {
      SegmentsOf(length);
      LongFrameCarries(d, h.tx, length);
    }
  }

  class EthHandle {
    var h: Handle
    const descs: array<Desc>

    predicate Valid()
      reads this, descs
    {
      h.tx < descs.Length && Linked(descs[..])
    }

    constructor (count: nat)
      ensures h == Handle(READY, false, 0, false) && fresh(descs) && descs.Length == count
    {
      descs := new Desc[count](_ => Desc(false, false, false, 0, 0, 0));
      h := Handle(READY, false, 0, false);
    }

    /** HAL_ETH_DMATxDescListInit */
    method DescListInit() returns (status: Status)
      modifies this`h, descs
      ensures old(h.locked) ==> status == HAL_BUSY && h == old(h) && descs[..] == old(descs[..])
      ensures !old(h.locked) ==>
                && status == HAL_OK && h == old(h).(state := READY, tx := 0)
                && (descs.Length > 0 ==> Valid() && Initialised(descs[..]))
    {
      if h.locked { return HAL_BUSY; }
      h := h.(locked := true, state := BUSY, tx := 0);
      var i := 0;
      while i < descs.Length
        invariant 0 <= i <= descs.Length && h == old(h).(locked := true, state := BUSY, tx := 0)
        invariant forall k :: 0 <= k < i ==>
                    && !descs[k].own && !descs[k].fs && !descs[k].ls && descs[k].buffer == k
                    && descs[k].next == At(descs.Length, k, 1)
      {
        var e := descs[i].(own := false, fs := false, ls := false, buffer := i);
        descs[i] := if i < descs.Length - 1 then e.(next := i + 1) else e.(next := 0);
        i := i + 1;
      }
      h := h.(locked := false, state := READY);
      assert forall k :: 0 <= k < descs.Length ==> LinkedAt(descs[..], k);
      return HAL_OK;
    }

    /** The descriptors from TxDesc on get the segments of a frame, and are given to the DMA. */
    method GiveToDma(length: nat)
      requires Valid()
      modifies this`h, descs
      ensures Valid() && h == old(h).(tx := h.tx)
      ensures (descs[..], h.tx) == HandOver(old(descs[..]), old(h.tx), length, BufCount(length))
    {
      ghost var d, tx := descs[..], h.tx;
      var bufcount := 1;
      if length > ETH_TX_BUF_SIZE {
        bufcount := length / ETH_TX_BUF_SIZE;
        if length % ETH_TX_BUF_SIZE != 0 {
          bufcount := bufcount + 1;
        }
      }
      assert bufcount == BufCount(length);
      if bufcount == 1 {
        assert LinkedAt(d, tx) && HandOver(d, tx, length, 0) == (d, tx);
        descs[h.tx] := descs[h.tx].(fs := true, ls := true);
        descs[h.tx] := descs[h.tx].(size := length % TBS1_RANGE);
        descs[h.tx] := descs[h.tx].(own := true);
        h := h.(tx := descs[h.tx].next);
        assert descs[..] == d[tx := Handed(d[tx], length, 0)];
        assert (descs[..], h.tx) == HandOver(d, tx, length, 1);
      } else {
        var i := 0;
        while i < bufcount
          invariant 0 <= i <= bufcount
          invariant (descs[..], h.tx) == HandOver(d, tx, length, i)
          invariant h == old(h).(tx := h.tx)
        {
          ghost var e, t := descs[..], h.tx;
          assert LinkedAt(e, t);
          descs[h.tx] := descs[h.tx].(fs := false, ls := false);
          if i == 0 {
            descs[h.tx] := descs[h.tx].(fs := true);
          }
          descs[h.tx] := descs[h.tx].(size := ETH_TX_BUF_SIZE % TBS1_RANGE);
          if i == bufcount - 1 {
            var size := length - (bufcount - 1) * ETH_TX_BUF_SIZE;
            descs[h.tx] := descs[h.tx].(ls := true, size := size % TBS1_RANGE);
          }
          descs[h.tx] := descs[h.tx].(own := true);
          h := h.(tx := descs[h.tx].next);
          assert descs[..] == e[t := Handed(e[t], length, i)];
          i := i + 1;
        }
      }
    }

    /** HAL_ETH_TransmitFrame */
    method TransmitFrame(length: nat) returns (status: Status)
      requires Valid()
      modifies this`h, descs
      ensures Valid() && (h, descs[..], status) == Transmit(old(h), old(descs[..]), length)
      ensures status == HAL_ERROR <==> !old(h.locked) && (length == 0 || old(descs[h.tx].own))
      ensures status != HAL_OK ==> descs[..] == old(descs[..]) && h.tx == old(h.tx)
      ensures status == HAL_OK && length <= 1524 * descs.Length ==>
                && Carries(descs[..], old(h.tx), length)
                && h.tx == At(descs.Length, old(h.tx), (length + 1523) / 1524)
    {
      TransmitOutcome(h, descs[..], length);
      if h.locked { return HAL_BUSY; }
      h := h.(locked := true, state := BUSY);
      if length == 0 {
        h := h.(state := READY, locked := false);
        return HAL_ERROR;
      }
      if descs[h.tx].own {
        h := h.(state := BUSY_TX, locked := false);
        return HAL_ERROR;
      }
      GiveToDma(length);
      if h.tbus {
        h := h.(tbus := false);
      }
      h := h.(state := READY, locked := false);
      return HAL_OK;
    }
  }
}
