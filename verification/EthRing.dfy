/** Descriptors of the Ethernet DMA, chained into a ring; both directions use the same layout. */
module EthRing {
  /**
   A descriptor: the OWN, FS and LS bits; `size` is the buffer size (transmit) or the frame length
   (receive); `buffer` is the index of its buffer; `next` the index that its next-link points to.
   */
  datatype Desc = Desc(own: bool, fs: bool, ls: bool, size: nat, buffer: nat, next: nat)

  /** The position `j` places after `start` on a ring of `n`. */
  function At(n: nat, start: nat, j: nat): (i: nat)
    requires start < n && j <= n
    ensures i < n
  {
    if start + j < n then start + j else start + j - n
  }

  /** How many places `i` comes after `start`. */
  function Dist(n: nat, start: nat, i: nat): (j: nat)
    requires start < n && i < n
    ensures j < n && At(n, start, j) == i
  {
    if i >= start then i - start else i - start + n
  }

  predicate LinkedAt(d: seq<Desc>, i: nat)
    requires i < |d|
  {
    d[i].next == At(|d|, i, 1)
  }

  predicate Linked(d: seq<Desc>) {
    |d| > 0 && forall i :: 0 <= i < |d| ==> LinkedAt(d, i)
  }

  /** The descriptor reached from `i` by following `k` next-links. */
  function Follow(d: seq<Desc>, i: nat, k: nat): (r: nat)
    requires Linked(d) && i < |d|
    ensures r < |d|
  {
    if k == 0 then i
    else
      var p := Follow(d, i, k - 1);
      assert LinkedAt(d, p);
      d[p].next
  }

  lemma {:induction false} FollowIsAt(d: seq<Desc>, i: nat, k: nat)
    requires Linked(d) && i < |d| && k <= |d|
    ensures Follow(d, i, k) == At(|d|, i, k)
  {
    if k > 0 {
      FollowIsAt(d, i, k - 1);
      assert LinkedAt(d, Follow(d, i, k - 1));
    }
  }

  /** The next-links form one cycle: from anywhere, |d| links lead back and fewer lead everywhere once. */
  lemma {:induction false} LinksFormOneCycle(d: seq<Desc>, i: nat, j: nat)
    requires Linked(d) && i < |d| && j < |d|
    ensures Follow(d, i, |d|) == i
    ensures Follow(d, i, Dist(|d|, i, j)) == j
    ensures forall k: nat :: k < |d| && Follow(d, i, k) == j ==> k == Dist(|d|, i, j)
  {
    FollowIsAt(d, i, |d|);
    FollowIsAt(d, i, Dist(|d|, i, j));
    forall k: nat | k < |d| && Follow(d, i, k) == j ensures k == Dist(|d|, i, j) {
      FollowIsAt(d, i, k);
    }
  }

  lemma OneLink(d: seq<Desc>, i: nat)
    requires Linked(d) && i < |d|
    ensures Follow(d, i, 1) == At(|d|, i, 1)
  {
    assert Follow(d, i, 0) == i && LinkedAt(d, i);
  }

  lemma Relinked(d: seq<Desc>, i: nat, e: Desc)
    requires Linked(d) && i < |d| && e.next == d[i].next
    ensures Linked(d[i := e]) && Follow(d, i, 1) == At(|d|, i, 1)
  {
    var f := d[i := e];
    assert LinkedAt(d, i) && Follow(d, i, 0) == i;
    forall k | 0 <= k < |f| ensures LinkedAt(f, k) { assert LinkedAt(d, k); }
  }
}
