/**
 Two averages kept up to date sample by sample: the accelerometer's, with an impulse cap, and the
 analog inputs'. Each running total is the sum of the window it stands for.
 */
module SlidingWindows {
  import opened Counters
  import opened Words

  type i16 = x: int | -0x8000 <= x < 0x8000

  // ---- sums ----------------------------------------------------------------------------

  /** The sum of the elements from `lo` up to, not including, `hi`. */
  function Sum(s: seq<int>, lo: nat, hi: nat): int
    requires lo <= hi <= |s|
    decreases hi
  {
    if lo == hi then 0 else Sum(s, lo, hi - 1) + s[hi - 1]
  }

  lemma {:induction false} SumSplits(s: seq<int>, lo: nat, mid: nat, hi: nat)
    requires lo <= mid <= hi <= |s|
    ensures Sum(s, lo, hi) == Sum(s, lo, mid) + Sum(s, mid, hi)
    decreases hi
  {
    if mid < hi {
      SumSplits(s, lo, mid, hi - 1);
    }
  }

  /** Equal stretches have equal sums. */
  lemma {:induction false} SumSame(s: seq<int>, lo: nat, t: seq<int>, at: nat, n: nat)
    requires lo + n <= |s| && at + n <= |t| && forall i :: lo <= i < lo + n ==> s[i] == t[i - lo + at]
    ensures Sum(s, lo, lo + n) == Sum(t, at, at + n)
    decreases n
  {
    if n > 0 {
      SumSame(s, lo, t, at, n - 1);
    }
  }

  lemma {:induction false} SumUpdate(s: seq<int>, i: nat, x: int)
    requires i < |s|
    ensures Sum(s[i := x], 0, |s|) == Sum(s, 0, |s|) - s[i] + x
  {
    var t := s[i := x];
    SumSplits(s, 0, i, |s|);
    SumSplits(t, 0, i, |s|);
    SumSplits(s, i, i + 1, |s|);
    SumSplits(t, i, i + 1, |s|);
    SumSame(s, 0, t, 0, i);
    SumSame(s, i + 1, t, i + 1, |s| - i - 1);
    assert Sum(s, i, i + 1) == s[i] && Sum(t, i, i + 1) == x;
  }

  lemma {:induction false} SumBounds(s: seq<int>, lo: nat, hi: nat, min: int, max: int)
    requires lo <= hi <= |s| && forall i :: lo <= i < hi ==> min <= s[i] <= max
    ensures min * (hi - lo) <= Sum(s, lo, hi) <= max * (hi - lo)
    decreases hi
  {
    if lo < hi {
      SumBounds(s, lo, hi - 1, min, max);
      assert min * (hi - lo) == min * (hi - 1 - lo) + min && max * (hi - lo) == max * (hi - 1 - lo) + max;
    }
  }

  // ---- a window in a ring of slots -----------------------------------------------------

  /** The sum of the last `size` values, or of all if there are fewer. */
  function SumOfLast(v: seq<int>, size: nat): int {
    Sum(v, if |v| <= size then 0 else |v| - size, |v|)
  }

  /** The value that the next one displaces. */
  function Displaced(v: seq<int>, size: nat): int {
    if 0 < size <= |v| then v[|v| - size] else 0
  }

  /** The slots hold the latest values; the next one goes to `pos`. */
  predicate Holds(slots: seq<int>, pos: nat, v: seq<int>) {
    && pos < |slots| && pos <= |v| && (|v| < |slots| ==> pos == |v|)
    && (forall k :: 0 <= k < pos ==> slots[k] == v[|v| - pos + k])
    && forall k :: pos <= k < |slots| ==>
         slots[k] == if |v| < |slots| then 0 else v[|v| - pos - |slots| + k]
  }

  function Next(pos: nat, size: nat): nat {
    if pos + 1 == size then 0 else pos + 1
  }

  lemma IndexNext(n: nat, size: nat)
    requires size > 0
    ensures Index(n + 1, size) == Next(Index(n, size), size)
  {
    IndexPlus(n, 1, size);
  }

  method SlotOf(count: nat, size: nat) returns (i: nat)
    requires size > 0
    ensures i == Index(count, size)
  {
    IndexIsRemainder(count, size);
    return count % size;
  }

  method SetSlot(a: array<int>, i: nat, x: int)
    requires i < a.Length
    modifies a
    ensures a[..] == old(a[..])[i := x]
  {
    a[i] := x;
  }

  lemma HoldsMore(slots: seq<int>, pos: nat, v: seq<int>, x: int)
    requires Holds(slots, pos, v)
    ensures Holds(slots[pos := x], Next(pos, |slots|), v + [x]) && slots[pos] == Displaced(v, |slots|)
  {
  }

  /** The sum of the slots is the sum of the window. */
  lemma {:induction false} SumOfSlots(slots: seq<int>, pos: nat, v: seq<int>)
    requires Holds(slots, pos, v)
    ensures Sum(slots, 0, |slots|) == SumOfLast(v, |slots|)
  {
    var n, size := |v|, |slots|;
    SumSplits(slots, 0, pos, size);
    SumSame(slots, 0, v, n - pos, pos);
    if n < size {
      SumBounds(slots, pos, size, 0, 0);
    } else {
      SumSame(slots, pos, v, n - size, size - pos);
      SumSplits(v, n - size, n - pos, n);
    }
  }

  /** The sum of a window slides by what comes in and what goes out. */
  lemma {:induction false} SlidesBy(v: seq<int>, x: int, size: nat)
    requires size > 0
    ensures SumOfLast(v + [x], size) == SumOfLast(v, size) + x - Displaced(v, size)
  {
    var n, w := |v|, v + [x];
    if n < size {
      SumSame(v, 0, w, 0, n);
    } else {
      SumSplits(v, n - size, n - size + 1, n);
      SumSame(v, n - size + 1, w, n - size + 1, size - 1);
      assert Sum(v, n - size, n - size + 1) == v[n - size];
    }
  }

  // ---- the accelerometer ---------------------------------------------------------------

  const ACCEL_BUF_SIZ: nat := 10

  /** A 32-bit word read as a signed integer. */
  function Signed(x: u32): int {
    if x >= 0x8000_0000 then x - TWO_TO_THE_32 else x
  }

  /** The value stored for a sample: at most `impulse` away from the value it replaces. */
  function Cap(prev: int, sample: int, impulse: u32): int {
    if Abs(sample - prev) > impulse then
      Signed(Wrap32(if sample - prev > 0 then prev + impulse else prev - impulse))
    else sample
  }

  function Abs(x: int): nat {
    if x >= 0 then x else -x
  }

  /**
   The arithmetic is unsigned, the result is not: the stored value stays in range, moves by at
   most the impulse and comes as near to the sample as that allows.
   */
  lemma CapMovesTowards(prev: i16, sample: i16, impulse: u32)
    ensures var c := Cap(prev, sample, impulse);
            && -0x8000 <= c < 0x8000 && Abs(c - prev) <= impulse
            && Abs(sample - c) == if Abs(sample - prev) > impulse then Abs(sample - prev) - impulse else 0
  {
  }

  datatype Sample = Sample(value: i16, impulse: u32)

  /** The values stored for a history of samples; the cap may be reconfigured at any time. */
  function Stored(h: seq<Sample>): (v: seq<int>)
    ensures |v| == |h|
  {
    if h == [] then []
    else
      var v, s := Stored(h[..|h| - 1]), h[|h| - 1];
      v + [Cap(Displaced(v, ACCEL_BUF_SIZ), s.value, s.impulse)]
  }

  lemma {:induction false} StoredInRange(h: seq<Sample>)
    ensures forall i :: 0 <= i < |h| ==> -0x8000 <= Stored(h)[i] < 0x8000
  {
    if h != [] {
      var v, s := Stored(h[..|h| - 1]), h[|h| - 1];
      StoredInRange(h[..|h| - 1]);
      CapMovesTowards(Displaced(v, ACCEL_BUF_SIZ), s.value, s.impulse);
    }
  }

  /** One more sample changes the windowed sum by at most the impulse. */
  lemma {:induction false} SumChangesLittle(h: seq<Sample>, s: Sample)
    ensures var before, after := SumOfLast(Stored(h), ACCEL_BUF_SIZ), SumOfLast(Stored(h + [s]), ACCEL_BUF_SIZ);
            Abs(after - before) <= s.impulse
  {
    var v := Stored(h);
    var displaced := Displaced(v, ACCEL_BUF_SIZ);
    StoredInRange(h);
    CapMovesTowards(displaced, s.value, s.impulse);
    var x := Cap(displaced, s.value, s.impulse);
    assert (h + [s])[..|h|] == h;
    SlidesBy(v, x, ACCEL_BUF_SIZ);
  }

  /** C's division truncates towards zero. */
  function Quotient(x: int, n: nat): int
    requires n > 0
  {
    if x >= 0 then x / n else -(-x / n)
  }

  /** The acceleration is a tenth of the total, cut towards zero, and of the other sign. */
  predicate IsTenth(total: int, accel: int) {
    && Abs(accel) * 10 <= Abs(total) < (Abs(accel) + 1) * 10
    && (total >= 0 ==> accel <= 0) && (total <= 0 ==> accel >= 0)
  }

  lemma QuotientIsTenth(total: int)
    ensures IsTenth(total, -Quotient(total, ACCEL_BUF_SIZ))
  {
  }

  lemma TenthBetween(total: int, accel: int, low: int, high: int)
    requires IsTenth(total, accel) && (low >= 0 || high <= 0) && low * 10 <= total <= high * 10
    ensures low <= -accel <= high
  {
  }

  /** Once ten samples of one sign are stored, it lies between any bounds of theirs. */
  lemma {:induction false} AccelBetween(stored: seq<int>, low: int, high: int, accel: int)
    requires |stored| >= 10 && IsTenth(SumOfLast(stored, 10), accel) && (low >= 0 || high <= 0)
    requires forall i :: |stored| - 10 <= i < |stored| ==> low <= stored[i] <= high
    ensures low <= -accel <= high
  {
    SumBounds(stored, |stored| - 10, |stored|, low, high);
    TenthBetween(SumOfLast(stored, 10), accel, low, high);
  }

  /** Slots and total after one more sample. */
  lemma {:induction false} UpdateKeeps(slots: seq<int>, pos: nat, h: seq<Sample>, s: Sample)
    requires |slots| == ACCEL_BUF_SIZ && Holds(slots, pos, Stored(h))
    ensures var x := Cap(slots[pos], s.value, s.impulse);
            && Holds(slots[pos := x], Next(pos, ACCEL_BUF_SIZ), Stored(h + [s]))
            && Sum(slots[pos := x], 0, ACCEL_BUF_SIZ) == Sum(slots, 0, ACCEL_BUF_SIZ) - slots[pos] + x
            && Sum(slots[pos := x], 0, ACCEL_BUF_SIZ) == SumOfLast(Stored(h + [s]), ACCEL_BUF_SIZ)
            && Abs(x - slots[pos]) <= s.impulse
  {
    var v, x := Stored(h), Cap(slots[pos], s.value, s.impulse);
    assert (h + [s])[..|h|] == h;
    HoldsMore(slots, pos, v, x);
    SumUpdate(slots, pos, x);
    SumOfSlots(slots[pos := x], Next(pos, ACCEL_BUF_SIZ), v + [x]);
    StoredInRange(h);
    CapMovesTowards(slots[pos], s.value, s.impulse);
  }

  /** The value to store, as the source computes it. */
  method Capped(prev: int, sample: i16, impulse: u32) returns (value: int)
    ensures value == Cap(prev, sample, impulse)
  {
    var diff := if sample - prev > 0 then sample - prev else prev - sample;
    if diff > impulse {
      return Signed(Wrap32(if sample - prev > 0 then prev + impulse else prev - impulse));
    } else {
      return sample;
    }
  }

  class Accelerometer {
    const slots: array<int>
    var count: nat
    var sum: int
    ghost var history: seq<Sample>

    /** The slots are the last ten values stored, and the running total is their sum. */
    ghost predicate Valid()
      reads this, slots
    {
      && slots.Length == ACCEL_BUF_SIZ && count == |history|
      && Holds(slots[..], Index(count, ACCEL_BUF_SIZ), Stored(history))
      && sum == Sum(slots[..], 0, ACCEL_BUF_SIZ)
    }

    constructor ()
      ensures Valid() && fresh(slots) && history == []
    {
      slots := new int[ACCEL_BUF_SIZ](_ => 0);
      count, sum, history := 0, 0, [];
      new;
      SumBounds(slots[..], 0, slots.Length, 0, 0);
    }

    /** badgerloop_update_data on a new accelerometer sample; the result is what SET_ACCEL is given. */
    method Update(sample: i16, impulse: u32) returns (accel: int)
      requires Valid()
      modifies this, slots
      ensures Valid() && history == old(history) + [Sample(sample, impulse)]
      ensures Abs(sum - old(sum)) <= impulse && sum == SumOfLast(Stored(history), ACCEL_BUF_SIZ)
      ensures IsTenth(SumOfLast(Stored(history), 10), accel)
    {
      ghost var was, h := slots[..], history + [Sample(sample, impulse)];
      var i := SlotOf(count, ACCEL_BUF_SIZ);
      UpdateKeeps(was, i, history, Sample(sample, impulse));
      var prev := slots[i];
      sum := sum - prev;
      var value := Capped(prev, sample, impulse);
      IndexNext(count, ACCEL_BUF_SIZ);
      sum := sum + value;
      history, count := h, count + 1;
      SetSlot(slots, i, value);
      QuotientIsTenth(sum);
      accel := -Quotient(sum, ACCEL_BUF_SIZ);
    }
  }

  // ---- the analog inputs ---------------------------------------------------------------

  const AVERAGE_SIZE: nat := 100

  /** The result after a full window is the floor mean of the last samples, and lies between any bounds of theirs. */
  lemma {:induction false} MeanInBounds(samples: seq<int>, min: int, max: int)
    requires |samples| >= AVERAGE_SIZE
    requires forall i :: |samples| - AVERAGE_SIZE <= i < |samples| ==> min <= samples[i] <= max
    ensures var total := SumOfLast(samples, AVERAGE_SIZE);
            var mean := total / AVERAGE_SIZE;
            min <= mean <= max && mean * AVERAGE_SIZE <= total < (mean + 1) * AVERAGE_SIZE
  {
    SumBounds(samples, |samples| - AVERAGE_SIZE, |samples|, min, max);
  }

  predicate Positive16(s: seq<int>) {
    forall i :: 0 <= i < |s| ==> 0 <= s[i] < TWO_TO_THE_16
  }

  /** The converter is set to ten bits. */
  const FULL_SCALE := 1023

  predicate TenBit(s: seq<int>) {
    forall i :: 0 <= i < |s| ==> 0 <= s[i] <= FULL_SCALE
  }

  /** The slot that read `n` takes. */
  function SlotOfRead(n: nat): (i: nat)
    ensures i < AVERAGE_SIZE
  {
    Index(Wrap32(n), AVERAGE_SIZE)
  }

  /** The slots after a history of samples: the slot is chosen by the read counter, which wraps. */
  function Filled(s: seq<int>): (slots: seq<int>)
    ensures |slots| == AVERAGE_SIZE
  {
    if s == [] then seq(AVERAGE_SIZE, _ => 0)
    else
      var n := |s| - 1;
      Filled(s[..n])[SlotOfRead(n) := s[n]]
  }

  /** What analogRead returns, and what it stands for: the mean of the last hundred samples. */
  function Result(s: seq<int>): int {
    Sum(Filled(s), 0, AVERAGE_SIZE) / AVERAGE_SIZE
  }

  function MeanOfLast(s: seq<int>): int {
    SumOfLast(s, AVERAGE_SIZE) / AVERAGE_SIZE
  }

  /** The counter has not wrapped yet, or just now, or a hundred reads ago at least. */
  predicate WindowIsWhole(count: nat) {
    count <= TWO_TO_THE_32 || Wrap32(count) == 0 || Wrap32(count) >= AVERAGE_SIZE
  }

  /** The counter, `r` reads after a wrap. */
  lemma AfterWrap(base: nat, r: nat)
    requires Wrap32(base) == 0 && r < TWO_TO_THE_32
    ensures Wrap32(base + r) == r
  {
    WrapAdd(base, r);
  }

  lemma FilledMore(s: seq<int>, x: int)
    ensures Filled(s + [x]) == Filled(s)[SlotOfRead(|s|) := x]
  {
    assert (s + [x])[..|s|] == s;
  }

  /** The first hundred reads after a wrap take the slots in order. */
  lemma {:induction false} FirstAfterWrap(s: seq<int>, base: nat)
    requires Wrap32(base) == 0 && base <= |s| <= base + AVERAGE_SIZE
    ensures forall k :: 0 <= k < |s| - base ==> Filled(s)[k] == s[base + k]
    decreases |s|
  {
    if |s| > base {
      var n := |s| - 1;
      FirstAfterWrap(s[..n], base);
      AfterWrap(base, n - base);
    }
  }

  /** From then on, up to the next wrap, the slots are the last hundred samples. */
  lemma {:induction false} LaterAfterWrap(s: seq<int>, base: nat)
    requires Wrap32(base) == 0 && base + AVERAGE_SIZE <= |s| <= base + TWO_TO_THE_32
    ensures Holds(Filled(s), Index(|s| - base, AVERAGE_SIZE), s)
    decreases |s|
  {
    if |s| == base + AVERAGE_SIZE {
      FirstAfterWrap(s, base);
      assert Index(AVERAGE_SIZE, AVERAGE_SIZE) == 0;
    } else {
      var n := |s| - 1;
      LaterAfterWrap(s[..n], base);
      AfterWrap(base, n - base);
      OneMoreRead(s, n - base);
    }
  }

  /** Before the first wrap the slots are the last hundred samples, or all of them. */
  lemma {:induction false} BeforeWrap(s: seq<int>)
    requires |s| <= TWO_TO_THE_32
    ensures Holds(Filled(s), Index(|s|, AVERAGE_SIZE), s)
    decreases |s|
  {
    if s != [] {
      var n := |s| - 1;
      BeforeWrap(s[..n]);
      AfterWrap(0, n);
      OneMoreRead(s, n);
    }
  }

  lemma {:induction false} OneMoreRead(s: seq<int>, r: nat)
    requires s != [] && Wrap32(|s| - 1) == r
    requires Holds(Filled(s[..|s| - 1]), Index(r, AVERAGE_SIZE), s[..|s| - 1])
    ensures Holds(Filled(s), Index(r + 1, AVERAGE_SIZE), s)
  {
    var n := |s| - 1;
    HoldsMore(Filled(s[..n]), Index(r, AVERAGE_SIZE), s[..n], s[n]);
    IndexNext(r, AVERAGE_SIZE);
    assert s == s[..n] + [s[n]];
  }

  lemma {:induction false} WholeWindow(s: seq<int>)
    requires WindowIsWhole(|s|)
    ensures Sum(Filled(s), 0, AVERAGE_SIZE) == SumOfLast(s, AVERAGE_SIZE)
  {
    var n, r := |s|, Wrap32(|s|);
    if n <= TWO_TO_THE_32 {
      BeforeWrap(s);
      SumOfSlots(Filled(s), Index(n, AVERAGE_SIZE), s);
    } else {
      var base := LastWrap(n);
      LaterAfterWrap(s, base);
      SumOfSlots(Filled(s), Index(n - base, AVERAGE_SIZE), s);
    }
  }

  /** The read at which the present turn of the counter began; at a wrap, the turn just completed. */
  lemma LastWrap(n: nat) returns (base: nat)
    requires n > TWO_TO_THE_32
    ensures Wrap32(base) == 0 && n == base + if Wrap32(n) == 0 then TWO_TO_THE_32 else Wrap32(n)
    ensures base > 0
  {
    var r := if Wrap32(n) == 0 then TWO_TO_THE_32 else Wrap32(n);
    base := n - r;
  }

  // ---- and when it is not --------------------------------------------------------------

  /** One large sample among zeros. */
  function Spike(n: nat, at: nat): (s: seq<int>)
    ensures |s| == n
  {
    seq(n, i requires 0 <= i < n => if i == at then FULL_SCALE else 0)
  }

  /** Sample `base + m - 97` of the old turn has slot `m - 1`, as read `base + m - 1` of the new one. */
  lemma LastSlots(base: nat, m: nat)
    requires Wrap32(base) == 0 && base > 0 && 0 < m < AVERAGE_SIZE - 3
    ensures base >= TWO_TO_THE_32 && SlotOfRead(base + m - 97) == m - 1
  {
    var c := TWO_TO_THE_32 + m - 97;
    AfterWrap(base - TWO_TO_THE_32, c);
    IndexIsRemainder(c, AVERAGE_SIZE);
  }

  /** All slots but `c` are zero, and that too if `all`. */
  predicate Zero(slots: seq<int>, c: nat, all: bool) {
    forall k :: 0 <= k < |slots| ==> (k != c || all ==> slots[k] == 0)
  }

  lemma ZeroStep(slots: seq<int>, c: nat, all: bool, i: nat, x: int, now: bool)
    requires Zero(slots, c, all) && i < |slots| && (x != 0 ==> i == c)
    requires now ==> x == 0 && (all || i == c)
    ensures Zero(slots[i := x], c, now)
  {
  }

  /** The spike at `at` is gone after the next read that takes its slot, read `hit`. */
  lemma {:induction false} SpikeIsGone(n: nat, at: nat, hit: nat, t: nat)
    requires at < hit < n && SlotOfRead(hit) == SlotOfRead(at) && t <= n
    ensures Zero(Filled(Spike(n, at)[..t]), SlotOfRead(at), t <= at || t > hit)
    decreases t
  {
    if t > 0 {
      var s := Spike(n, at);
      SpikeIsGone(n, at, hit, t - 1);
      FilledMore(s[..t - 1], s[t - 1]);
      assert s[..t] == s[..t - 1] + [s[t - 1]];
      ZeroStep(Filled(s[..t - 1]), SlotOfRead(at), t - 1 <= at || t - 1 > hit,
               SlotOfRead(t - 1), s[t - 1], t <= at || t > hit);
    }
  }

  lemma SlotAfterWrap(base: nat, r: nat)
    requires Wrap32(base) == 0 && r < AVERAGE_SIZE
    ensures SlotOfRead(base + r) == r
  {
    AfterWrap(base, r);
  }

  lemma {:induction false} SpikeMean(n: nat, at: nat)
    requires at < n <= at + AVERAGE_SIZE <= n + AVERAGE_SIZE && n >= AVERAGE_SIZE
    ensures MeanOfLast(Spike(n, at)) == 10
  {
    var s := Spike(n, at);
    SumSplits(s, n - AVERAGE_SIZE, at, n);
    SumSplits(s, at, at + 1, n);
    SumBounds(s, n - AVERAGE_SIZE, at, 0, 0);
    SumBounds(s, at + 1, n, 0, 0);
    assert Sum(s, at, at) == 0 && Sum(s, at, at + 1) == s[at];
  }

  /** A history whose result is not the mean of its last hundred samples. */
  lemma {:induction false} BrokenWindow(n: nat) returns (s: seq<int>)
    requires !WindowIsWhole(n)
    ensures |s| == n && TenBit(s) && Result(s) == 0 && MeanOfLast(s) == 10
  {
    var base := LastWrap(n);
    var m := if n - base < 96 then n - base else 96;
    LastSlots(base, m);
    SlotAfterWrap(base, m - 1);
    s := Spike(n, base + m - 97);
    SpikeLost(n, base + m - 97, base + m - 1);
    SpikeMean(n, base + m - 97);
  }

  lemma {:induction false} SpikeLost(n: nat, at: nat, hit: nat)
    requires at < hit < n && SlotOfRead(hit) == SlotOfRead(at)
    ensures Result(Spike(n, at)) == 0
  {
    var s := Spike(n, at);
    SpikeIsGone(n, at, hit, n);
    assert s[..n] == s;
    SumBounds(Filled(s), 0, AVERAGE_SIZE, 0, 0);
  }

  ghost predicate ResultIsMean(n: nat) {
    forall s: seq<int> :: |s| == n && TenBit(s) ==> Result(s) == MeanOfLast(s)
  }

  /**
   After any number of reads the result is the mean of the last hundred samples, whatever the
   converter delivered, iff the counter has not wrapped, or wraps just now, or wrapped a hundred reads ago or more.
   */
  lemma {:induction false} ResultIsMeanIff(n: nat)
    ensures ResultIsMean(n) <==> WindowIsWhole(n)
  {
    if WindowIsWhole(n) {
      forall s: seq<int> | |s| == n && TenBit(s) ensures Result(s) == MeanOfLast(s) {
        WholeWindow(s);
      }
    } else {
      var s := BrokenWindow(n);
      assert Result(s) != MeanOfLast(s);
    }
  }

  // ---- one channel ---------------------------------------------------------------------

  /** What one read does to the slots and their total. */
  lemma {:induction false} ReadKeeps(slots: seq<int>, i: nat, x: u16)
    requires |slots| == AVERAGE_SIZE && Positive16(slots) && i < AVERAGE_SIZE
    ensures var now := slots[i := x];
            Positive16(now) && Sum(now, 0, AVERAGE_SIZE) == Sum(slots, 0, AVERAGE_SIZE) - slots[i] + x
  {
    SumUpdate(slots, i, x);
  }

  /** One channel of one converter. */
  class Channel {
    const filter: array<int>
    var count: u32
    var average: int
    ghost var samples: seq<int>

    /** The slots are those of the history, and the running total is their sum. */
    ghost predicate Valid()
      reads this, filter
    {
      && filter.Length == AVERAGE_SIZE && average == Sum(filter[..], 0, filter.Length)
      && filter[..] == Filled(samples) && Positive16(filter[..]) && count == Wrap32(|samples|)
    }

    constructor ()
      ensures Valid() && fresh(filter) && samples == []
    {
      filter := new int[AVERAGE_SIZE](_ => 0);
      count, average, samples := 0, 0, [];
      new;
      SumBounds(filter[..], 0, filter.Length, 0, 0);
    }

    method Replace(retval: u16)
      requires Valid()
      modifies this, filter
      ensures Valid() && samples == old(samples) + [retval]
    {
      var i := SlotOf(count, AVERAGE_SIZE);
      ReadKeeps(filter[..], i, retval);
      FilledMore(samples, retval);
      WrapAdd(|samples|, 1);
      average := average - filter[i];
      average := average + retval;
      samples, count := samples + [retval], Wrap32(count + 1);
      SetSlot(filter, i, retval);
    }

    /** The part of analogRead after the conversion. */
    method Read(retval: u16) returns (result: u16)
      requires Valid()
      modifies this, filter
      ensures Valid() && samples == old(samples) + [retval] && result == Result(samples)
      ensures WindowIsWhole(|samples|) ==> result == MeanOfLast(samples)
    {
      Replace(retval);
      MeanFits(filter[..]);
      if WindowIsWhole(|samples|) { WholeWindow(samples); }
      return average / AVERAGE_SIZE;
    }
  }

  lemma {:induction false} MeanFits(slots: seq<int>)
    requires |slots| == AVERAGE_SIZE && Positive16(slots)
    ensures 0 <= Sum(slots, 0, AVERAGE_SIZE) / AVERAGE_SIZE < TWO_TO_THE_16
  {
    SumBounds(slots, 0, AVERAGE_SIZE, 0, TWO_TO_THE_16 - 1);
  }
}
