/**
 The hardware that polling code can only read: status flags that change as they like and the
 millisecond tick. The n-th reading of a flag and the n-th reading of the tick are arbitrary.
 */
module Board {
  import opened Words

  const HAL_MAX_DELAY := 0xFFFF_FFFF

  /**
   HAL_GetTick keeps advancing: whatever the start, some later reading is more than any finite
   timeout after it, in wrapped 32-bit arithmetic.
   */
  ghost predicate KeepsAdvancing(tick: nat -> u32) {
    forall start: u32, n: nat, timeout: u32 :: timeout < HAL_MAX_DELAY ==> Expires(tick, start, n, timeout)
  }

  ghost predicate Expires(tick: nat -> u32, start: u32, n: nat, timeout: u32) {
    exists k: nat :: n <= k && Since(tick(k), start) > timeout
  }

  /** A tick that can drive the timeouts, as the millisecond counter does. */
  type Clock = tick: nat -> u32 | KeepsAdvancing(tick) witness (MillisecondsAdvance(); MILLISECONDS)

  /** The reading, `n` or later, at which a wait that began at `start` and has not ended by then times out. */
  ghost function Deadline(tick: Clock, n: nat, start: u32, timeout: u32): (k: nat)
    requires timeout < HAL_MAX_DELAY
    ensures n <= k && Since(tick(k), start) > timeout
  {
    assert Expires(tick, start, n, timeout);
    var k: nat :| n <= k && Since(tick(k), start) > timeout;
    k
  }

  const MILLISECONDS: nat -> u32 := (k: nat) => Wrap32(k)

  lemma MillisecondsAdvance()
    ensures KeepsAdvancing(MILLISECONDS)
  {
    var clock: nat -> nat := (k: nat) => k;
    forall bound: nat ensures Exceeds(clock, bound) {
      assert clock(bound) >= bound;
    }
    SteadyClockAdvances(clock, MILLISECONDS);
  }

  /** A clock that moves on by at most one between readings, and never stops, keeps advancing. */
  lemma SteadyClockAdvances(clock: nat -> nat, tick: nat -> u32)
    requires forall k: nat :: tick(k) == Wrap32(clock(k))
    requires forall k: nat :: Steady(clock, k)
    requires forall bound: nat :: Exceeds(clock, bound)
    ensures KeepsAdvancing(tick)
  {
    forall start: u32, n: nat, timeout: u32 | timeout < HAL_MAX_DELAY
      ensures Expires(tick, start, n, timeout)
    {
      // the first clock value after reading n whose wrapped distance from start is maximal
      var c := clock(n);
      var target := c + Since(Wrap32(start + HAL_MAX_DELAY), Wrap32(c));
      assert Exceeds(clock, target);
      var m: nat :| clock(m) >= target;
      var k := Hits(clock, n, m, target);
      WrapOfTarget(start, c);
      assert Since(tick(k), start) == HAL_MAX_DELAY;
    }
  }

  ghost predicate Steady(clock: nat -> nat, k: nat) {
    clock(k) <= clock(k + 1) <= clock(k) + 1
  }

  ghost predicate Exceeds(clock: nat -> nat, bound: nat) {
    exists m: nat :: clock(m) >= bound
  }

  lemma WrapOfTarget(start: u32, c: nat)
    ensures Wrap32(c + Since(Wrap32(start + HAL_MAX_DELAY), Wrap32(c))) == Wrap32(start + HAL_MAX_DELAY)
    ensures Since(Wrap32(start + HAL_MAX_DELAY), start) == HAL_MAX_DELAY
  {
    var e := Wrap32(start + HAL_MAX_DELAY);
    var d := e - Wrap32(c);
    ModShift(c + d, -(d / TWO_TO_THE_32));
    assert c + Wrap32(d) == c + d + -(d / TWO_TO_THE_32) * TWO_TO_THE_32;
    assert c + d == e + (c / TWO_TO_THE_32) * TWO_TO_THE_32;
    ModShift(e, c / TWO_TO_THE_32);
  }

  /** A steady clock takes every value on its way up. */
  lemma {:induction false} Hits(clock: nat -> nat, n: nat, m: nat, target: nat) returns (k: nat)
    requires forall k: nat :: Steady(clock, k)
    requires clock(n) <= target <= clock(m)
    ensures n <= k && clock(k) == target
    decreases m
  {
    if m <= n {
      BackNotAhead(clock, m, n);
      k := n;
    } else {
      assert Steady(clock, m - 1);
      if target <= clock(m - 1) {
        k := Hits(clock, n, m - 1, target);
      } else {
        k := m;
      }
    }
  }

  lemma {:induction false} BackNotAhead(clock: nat -> nat, m: nat, n: nat)
    requires forall k: nat :: Steady(clock, k)
    requires m <= n
    ensures clock(m) <= clock(n)
    decreases n - m
  {
    if m < n {
      assert Steady(clock, m);
      BackNotAhead(clock, m + 1, n);
    }
  }
}
