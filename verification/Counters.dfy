/** A free-running counter, reduced modulo the size of a ring on every access. */
module Counters {
  import opened Words

  /** The cell of a counter value, `counter % size` (see IndexIsRemainder). */
  function Index(counter: nat, size: nat): (i: nat)
    requires size > 0
    ensures i < size
  {
    if counter < size then counter else Index(counter - size, size)
  }

  /** The size divides 2^32 (see AlignedIffDivides), so that the wrap of a counter keeps the order of the cells. */
  predicate Aligned(size: nat)
    requires size > 0
  {
    Index(TWO_TO_THE_32, size) == 0
  }

  lemma {:induction false} IndexIsRemainder(counter: nat, size: nat)
    requires size > 0
    ensures Index(counter, size) == counter % size
  {
    if counter >= size {
      IndexIsRemainder(counter - size, size);
      LessOneTurn(counter, size);
    }
  }

  lemma AlignedIffDivides(size: nat)
    requires size > 0
    ensures Aligned(size) <==> TWO_TO_THE_32 % size == 0
  {
    IndexIsRemainder(TWO_TO_THE_32, size);
  }

  lemma LessOneTurn(x: nat, n: nat)
    requires 0 < n <= x
    ensures x % n == (x - n) % n
  {
    var q, r := x / n, x % n;
    assert x == q * n + r;
    assert x - n == (q - 1) * n + r;
    var p, s := (x - n) / n, (x - n) % n;
    assert x - n == p * n + s;
    if p > q - 1 {
      FarApart(p, q - 1, n);
    } else if p < q - 1 {
      FarApart(q - 1, p, n);
    }
  }

  lemma FarApart(p: int, q: int, n: nat)
    requires p > q
    ensures p * n >= q * n + n
  {
    assert p * n == q * n + (p - q) * n;
    assert (p - q) * n == (p - q - 1) * n + n;
    assert (p - q - 1) * n >= 0;
  }

  /** Moving on by at most one turn leads around the end at most once. */
  lemma {:induction false} IndexPlus(x: nat, d: nat, n: nat)
    requires n > 0 && d <= n
    ensures Index(x + d, n) == if Index(x, n) + d < n then Index(x, n) + d else Index(x, n) + d - n
  {
    if x >= n {
      IndexPlus(x - n, d, n);
      assert x + d - n == (x - n) + d;
    }
  }

  lemma {:induction false} IndexPlusTurns(x: nat, y: nat, n: nat)
    requires n > 0 && Index(y, n) == 0
    ensures Index(x + y, n) == Index(x, n)
    decreases y
  {
    if y > 0 {
      IndexPlusTurns(x, y - n, n);
      assert x + y - n == x + (y - n);
    }
  }

  /** With an aligned size the wrap of a counter is invisible in the index. */
  lemma {:induction false} WrapKeepsIndex(x: nat, n: nat)
    requires n > 0 && Aligned(n)
    ensures Index(Wrap32(x), n) == Index(x, n)
    decreases x
  {
    if x >= TWO_TO_THE_32 {
      var y := x - TWO_TO_THE_32;
      WrapKeepsIndex(y, n);
      ModShift(y, 1);
      IndexPlusTurns(y, TWO_TO_THE_32, n);
    }
  }

  /** Two positions less than `n` apart have different cells. */
  lemma CellsDiffer(x: nat, d: nat, n: nat)
    requires n > 0 && Aligned(n) && 0 < d < n
    ensures Index(Wrap32(x), n) != Index(Wrap32(x + d), n)
  {
    WrapKeepsIndex(x, n);
    WrapKeepsIndex(x + d, n);
    IndexPlus(x, d, n);
  }
}
