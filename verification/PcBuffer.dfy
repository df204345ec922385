/**
 The ring buffer between interrupt handlers and main code. Its counters run freely over 32 bits
 and are reduced modulo the size on every access; the contents are a bounded queue nevertheless,
 exactly when the size divides 2^32.
 */
module PcBuffer {
  import opened Counters
  import opened Words

  const CR: byte := 0x0D
  const LF: byte := 0x0A
  const NUL: byte := 0

  /** PC_Buffer; `messages` is message_available. */
  datatype Buf = Buf(cells: seq<byte>, produce: u32, consume: u32, messages: u16)

  type Size = n: int | 0 < n < 0x1_0000 witness 1

  predicate Sized(b: Buf) {
    0 < |b.cells| < TWO_TO_THE_16
  }

  function Add(b: Buf, x: byte): Buf
    requires Sized(b)
  {
    b.(cells := b.cells[Index(b.produce, |b.cells|) := x], produce := Wrap32(b.produce + 1))
  }

  function Head(b: Buf): byte
    requires Sized(b)
  {
    b.cells[Index(b.consume, |b.cells|)]
  }

  function Remove(b: Buf): Buf {
    b.(consume := Wrap32(b.consume + 1))
  }

  /** What a backspace does: the last character is no longer produced. */
  function Retract(b: Buf): Buf {
    b.(produce := Wrap32(b.produce - 1))
  }

  predicate Empty(b: Buf) {
    b.produce == b.consume
  }

  predicate Full(b: Buf) {
    Count(b) == |b.cells|
  }

  function Count(b: Buf): u32 {
    Since(b.produce, b.consume)
  }

  // ---- contents ------------------------------------------------------------------------

  predicate Valid(b: Buf) {
    Sized(b) && Count(b) <= |b.cells|
  }

  /** The character `j` places behind the oldest. */
  function Item(b: Buf, j: nat): byte
    requires Sized(b)
  {
    b.cells[Index(Wrap32(b.consume + j), |b.cells|)]
  }

  function Contents(b: Buf): (q: seq<byte>)
    requires Sized(b)
    ensures |q| == Count(b)
  {
    seq(Count(b), j requires j >= 0 => Item(b, j))
  }

  // ---- arithmetic of the counters ------------------------------------------------------

  /** The counter `d` steps after `earlier` is `earlier + d`, wrapped. */
  lemma CountBack(now: u32, earlier: u32)
    ensures Wrap32(earlier + Since(now, earlier)) == now
  {
  }

  // ---- a bounded queue -----------------------------------------------------------------

  lemma EmptyIff(b: Buf)
    requires Sized(b)
    ensures Empty(b) <==> Contents(b) == []
    ensures Full(b) <==> |Contents(b)| == |b.cells|
  {
  }

  lemma ItemAfterAdd(b: Buf, x: byte, j: nat)
    requires Valid(b) && Aligned(|b.cells|) && j <= Count(b) < |b.cells|
    ensures Item(Add(b, x), j) == if j == Count(b) then x else Item(b, j)
  {
    CountBack(b.produce, b.consume);
    if j < Count(b) {
      CellsDiffer(b.consume + j, Count(b) - j, |b.cells|);
    }
  }

  lemma SinceCases(now: u32, earlier: u32)
    ensures Since(now, earlier) == if now >= earlier then now - earlier else now - earlier + TWO_TO_THE_32
  {
  }

  lemma SinceSteps(now: u32, earlier: u32)
    ensures Since(now, earlier) < TWO_TO_THE_32 - 1 ==> Since(Wrap32(now + 1), earlier) == Since(now, earlier) + 1
    ensures now != earlier ==>
              Since(now, Wrap32(earlier + 1)) == Since(now, earlier) - 1 == Since(Wrap32(now - 1), earlier)
  {
    SinceCases(now, earlier);
    SinceCases(Wrap32(now + 1), earlier);
    SinceCases(now, Wrap32(earlier + 1));
    SinceCases(Wrap32(now - 1), earlier);
    assert Wrap32(now + 1) == if now == TWO_TO_THE_32 - 1 then 0 else now + 1;
    assert Wrap32(earlier + 1) == if earlier == TWO_TO_THE_32 - 1 then 0 else earlier + 1;
    assert Wrap32(now - 1) == if now == 0 then TWO_TO_THE_32 - 1 else now - 1;
  }

  lemma CountAfter(b: Buf, x: byte)
    requires Valid(b)
    ensures !Full(b) ==> Count(Add(b, x)) == Count(b) + 1
    ensures !Empty(b) ==> Count(Remove(b)) == Count(b) - 1 == Count(Retract(b))
  {
    SinceSteps(b.produce, b.consume);
  }

  lemma AddAppends(b: Buf, x: byte)
    requires Valid(b) && Aligned(|b.cells|) && !Full(b)
    ensures Valid(Add(b, x)) && Contents(Add(b, x)) == Contents(b) + [x]
  {
    CountAfter(b, x);
    forall j | 0 <= j <= Count(b) ensures Contents(Add(b, x))[j] == (Contents(b) + [x])[j] {
      ItemAfterAdd(b, x, j);
    }
  }

  lemma WrapNext(c: u32, j: nat)
    ensures Wrap32(Wrap32(c + 1) + j) == Wrap32(c + (j + 1)) && Wrap32(c + 0) == c
  {
    WrapAdd(c + 1, j);
  }

  lemma ItemAfterRemove(b: Buf, j: nat)
    requires Sized(b)
    ensures Item(Remove(b), j) == Item(b, j + 1) && Item(b, 0) == Head(b)
  {
    WrapNext(b.consume, j);
  }

  lemma RemoveTakesHead(b: Buf)
    requires Valid(b) && !Empty(b)
    ensures Valid(Remove(b)) && Contents(b) == [Head(b)] + Contents(Remove(b))
  {
    CountAfter(b, 0);
    forall j | 0 <= j < Count(b) ensures Contents(b)[j] == ([Head(b)] + Contents(Remove(b)))[j] {
      if j == 0 { ItemAfterRemove(b, 0); } else { ItemAfterRemove(b, j - 1); }
    }
  }

  lemma RetractDropsLast(b: Buf)
    requires Valid(b) && !Empty(b)
    ensures Valid(Retract(b)) && Contents(Retract(b)) == Contents(b)[..Count(b) - 1]
  {
    CountAfter(b, 0);
    forall j | 0 <= j < Count(b) - 1 ensures Contents(Retract(b))[j] == Contents(b)[..Count(b) - 1][j] {
      assert Item(Retract(b), j) == Item(b, j);
    }
  }

  // ---- the exact condition -------------------------------------------------------------

  ghost predicate AppendsAlways(size: Size) {
    forall b: Buf, x: byte :: Valid(b) && |b.cells| == size && !Full(b) ==> Appends(b, x)
  }

  predicate Appends(b: Buf, x: byte)
    requires Sized(b)
  {
    Contents(Add(b, x)) == Contents(b) + [x]
  }

  /** Adding to a buffer that is not full appends, whatever the counters, iff the size divides 2^32. */
  lemma FifoIffAligned(size: Size)
    ensures AppendsAlways(size) <==> TWO_TO_THE_32 % size == 0
  {
    AlignedIffDivides(size);
    if Aligned(size) {
      forall b: Buf, x: byte | Valid(b) && |b.cells| == size && !Full(b) ensures Appends(b, x) {
        AddAppends(b, x);
      }
    } else {
      LosesOldest(size);
    }
  }

  /** Otherwise the character added at the wrap lands on the oldest one still queued. */
  lemma LosesOldest(size: Size)
    requires !Aligned(size)
    ensures !AppendsAlways(size)
  {
    var r := Index(TWO_TO_THE_32, size);
    IndexPlus(TWO_TO_THE_32 - r, r, size);
    Overwrites(Buf(seq(size, _ => NUL), 0, TWO_TO_THE_32 - r, 0), r);
  }

  lemma Overwrites(b: Buf, r: nat)
    requires Valid(b) && 0 < r == Count(b) < |b.cells|
    requires Index(b.consume, |b.cells|) == 0 == b.produce && b.cells[0] == NUL
    ensures !Appends(b, CR)
  {
    CountAfter(b, CR);
    WrapNext(b.consume, 0);
    assert Contents(Add(b, CR))[0] == Item(Add(b, CR), 0) == CR;
    assert (Contents(b) + [CR])[0] == Item(b, 0) == NUL;
  }

  // ---- all runs ------------------------------------------------------------------------

  datatype Op = Put(x: byte) | Get

  /** Adds only when not full, removes only when not empty; the second result is what was removed. */
  function Apply(b: Buf, op: Op): (r: (Buf, seq<byte>))
    requires Sized(b)
    ensures |r.0.cells| == |b.cells|
  {
    match op
    case Put(x) => (if Full(b) then b else Add(b, x), [])
    case Get => if Empty(b) then (b, []) else (Remove(b), [Head(b)])
  }

  function Run(b: Buf, ops: seq<Op>): (r: (Buf, seq<byte>))
    requires Sized(b)
    ensures |r.0.cells| == |b.cells|
  {
    if ops == [] then (b, [])
    else
      var (c, out) := Run(b, ops[..|ops| - 1]);
      var (d, more) := Apply(c, ops[|ops| - 1]);
      (d, out + more)
  }

  /** The same operation on a queue of at most `size` characters. */
  function QueueApply(q: seq<byte>, size: nat, op: Op): (seq<byte>, seq<byte>) {
    match op
    case Put(x) => (if |q| == size then q else q + [x], [])
    case Get => if |q| == 0 then (q, []) else (q[1..], [q[0]])
  }

  function QueueRun(q: seq<byte>, size: nat, ops: seq<Op>): (seq<byte>, seq<byte>) {
    if ops == [] then (q, [])
    else
      var (p, out) := QueueRun(q, size, ops[..|ops| - 1]);
      var (r, more) := QueueApply(p, size, ops[|ops| - 1]);
      (r, out + more)
  }

  lemma ApplyRefines(b: Buf, op: Op)
    requires Valid(b) && Aligned(|b.cells|)
    ensures var (c, out) := Apply(b, op);
            Valid(c) && (Contents(c), out) == QueueApply(Contents(b), |b.cells|, op)
  {
    EmptyIff(b);
    match op
    case Put(x) => if !Full(b) { AddAppends(b, x); }
    case Get => if !Empty(b) { RemoveTakesHead(b); }
  }

  /** For ever, and however often the counters wrap, the buffer is that queue. */
  lemma {:induction false} RefinesQueue(b: Buf, ops: seq<Op>)
    requires Valid(b) && Aligned(|b.cells|)
    ensures var (c, out) := Run(b, ops);
            Valid(c) && (Contents(c), out) == QueueRun(Contents(b), |b.cells|, ops)
  {
    if ops != [] {
      RefinesQueue(b, ops[..|ops| - 1]);
      ApplyRefines(Run(b, ops[..|ops| - 1]).0, ops[|ops| - 1]);
    }
  }

  // ---- messages ------------------------------------------------------------------------

  /** NEWLINE_GUARD */
  predicate NewlineGuard(curr: byte, prev: byte) {
    (curr == LF && prev != CR) || (curr == CR && prev != LF)
  }

  /**
   How many characters of a queue pc_buffer_getMessage takes, and whether it found a terminator;
   `i` have been taken, the last of them `prev`.
   */
  function Taken(q: seq<byte>, i: nat, prev: byte, max: nat): (r: (nat, bool))
    requires i <= |q| && i <= max
    ensures i <= r.0 <= |q| && r.0 <= max && (r.1 ==> r.0 > i)
    decreases |q| - i
  {
    if i == max || i == |q| then (i, false)
    else if NewlineGuard(q[i], prev) then (i + 1, true)
    else Taken(q, i + 1, q[i], max)
  }

  /** A line and its CR are taken together, whatever follows. */
  lemma {:induction false} TakesLine(line: seq<byte>, rest: seq<byte>, i: nat, prev: byte, max: nat)
    requires i <= |line| < max && prev != LF && CR !in line && LF !in line
    ensures Taken(line + [CR] + rest, i, prev, max) == (|line| + 1, true)
    decreases |line| - i
  {
    if i < |line| {
      assert (line + [CR] + rest)[i] == line[i];
      TakesLine(line, rest, i + 1, line[i], max);
    }
  }

  /** The buffer after `n` more characters have been removed. */
  function Drop(b: Buf, n: nat): Buf {
    b.(consume := Wrap32(b.consume + n))
  }

  lemma {:induction false} DropMany(b: Buf, n: nat)
    requires Valid(b) && n <= Count(b)
    ensures Valid(Drop(b, n)) && Contents(Drop(b, n)) == Contents(b)[n..]
    ensures Empty(Drop(b, n)) <==> n == Count(b)
    ensures n < Count(b) ==> Head(Drop(b, n)) == Contents(b)[n] && Remove(Drop(b, n)) == Drop(b, n + 1)
  {
    if n > 0 {
      DropMany(b, n - 1);
      RemoveTakesHead(Drop(b, n - 1));
      assert Contents(b)[n - 1..][1..] == Contents(b)[n..];
    }
    WrapAdd(b.consume + n, 1);
    EmptyIff(Drop(b, n));
    if n < Count(b) {
      RemoveTakesHead(Drop(b, n));
    }
  }

  lemma {:induction false} DropNext(b: Buf, n: nat)
    requires Valid(b) && n < Count(b)
    ensures Head(Drop(b, n)) == Contents(b)[n] && Remove(Drop(b, n)) == Drop(b, n + 1)
    ensures Empty(Drop(b, n + 1)) <==> n + 1 == Count(b)
  {
    DropMany(b, n);
    DropMany(b, n + 1);
  }

  lemma DropNone(b: Buf)
    requires Sized(b)
    ensures Drop(b, 0) == b && (Empty(b) <==> Count(b) == 0)
  {
    EmptyIff(b);
  }

  /** pc_buffer_getMessage: the buffer after it, what it writes, and its result */
  function Fetched(b: Buf, max: nat): (r: (Buf, seq<byte>, bool))
    requires Sized(b)
    ensures |r.1| <= max
  {
    if b.messages == 0 then (b, [], false)
    else
      var q := Contents(b);
      var (n, found) := Taken(q, 0, NUL, max);
      if found then (Drop(b, n).(messages := b.messages - 1), q[..n - 1] + [NUL], true)
      else (Drop(b, n), q[..n], false)
  }

  lemma MessagesApart(b: Buf, n: u16)
    requires Sized(b)
    ensures Contents(b.(messages := n)) == Contents(b)
  {
    assert forall j :: 0 <= j < Count(b) ==> Item(b.(messages := n), j) == Item(b, j);
  }

  lemma Assemble(s: seq<byte>, front: seq<byte>, m: seq<byte>, n: nat)
    requires |s| == |m| && n == |front| <= |m|
    requires forall k :: 0 <= k < |s| ==> s[k] == if k < n then front[k] else m[k]
    ensures s == front + m[n..]
  {
  }

  class Buffer {
    var produce: u32
    var consume: u32
    var messages: u16
    const cells: array<byte>

    function View(): Buf
      reads this, cells
    {
      Buf(cells[..], produce, consume, messages)
    }

    /** pc_buffer_init with memory to be had */
    constructor (size: Size)
      ensures fresh(cells) && cells.Length == size
      ensures Valid(View()) && Contents(View()) == [] && messages == 0
    {
      cells := new byte[size];
      produce, consume, messages := 0, 0, 0;
    }

    method AddChar(x: byte)
      requires Sized(View())
      modifies this`produce, cells
      ensures View() == Add(old(View()), x)
    {
      IndexIsRemainder(produce, cells.Length);
      cells[produce % cells.Length] := x;
      produce := Wrap32(produce + 1);
    }

    method RemoveChar() returns (x: byte)
      requires Sized(View())
      modifies this`consume
      ensures View() == Remove(old(View())) && x == Head(old(View()))
    {
      IndexIsRemainder(consume, cells.Length);
      x := cells[consume % cells.Length];
      consume := Wrap32(consume + 1);
    }

    method IsEmpty() returns (r: bool)
      requires Sized(View())
      ensures r <==> Contents(View()) == []
    {
      r := produce == consume;
    }

    method IsFull() returns (r: bool)
      requires Sized(View())
      ensures r <==> |Contents(View())| == cells.Length
    {
      r := Wrap32(produce - consume) == cells.Length;
    }

    /** The next character goes to `message`, a terminator as NUL. */
    method TakeChar(message: array<byte>, index: nat, prev: byte) returns (curr: byte)
      requires Sized(View()) && index < message.Length && message != cells
      modifies this`consume, message
      ensures View() == Remove(old(View())) && curr == Head(old(View()))
      ensures forall k :: 0 <= k < message.Length ==>
                message[k] == if k != index then old(message[k]) else if NewlineGuard(curr, prev) then NUL else curr
    {
      curr := RemoveChar();
      message[index] := if NewlineGuard(curr, prev) then NUL else curr;
    }

    /** The loop of pc_buffer_getMessage: takes characters up to the first terminator. */
    method TakeLine(message: array<byte>, maxLength: nat) returns (index: nat, found: bool)
      requires Valid(View()) && maxLength <= message.Length && message != cells
      modifies this`consume, message
      ensures View() == Drop(old(View()), index)
      ensures var q := old(Contents(View()));
              && (index, found) == Taken(q, 0, NUL, maxLength)
              && forall k :: 0 <= k < message.Length ==>
                   message[k] == if k >= index then old(message[k]) else if found && k == index - 1 then 0 else q[k]
    {
      ghost var b := View();
      ghost var q := Contents(b);
      ghost var goal := Taken(q, 0, NUL, maxLength);
      var curr, prev := NUL, NUL;
      index := 0;
      DropNone(b);
      while index < maxLength && produce != consume
        invariant 0 <= index <= maxLength && index <= |q| && View() == Drop(b, index)
        invariant Empty(View()) <==> index == |q|
        invariant goal == Taken(q, index, curr, maxLength)
        invariant forall k :: 0 <= k < message.Length ==> message[k] == if k < index then q[k] else old(message[k])
        decreases maxLength - index
      {
        prev := curr;
        DropNext(b, index);
        curr := TakeChar(message, index, prev);
        index := index + 1;
        if NewlineGuard(curr, prev) {
          return index, true;
        }
      }
      return index, false;
    }

    /** pc_buffer_getMessage */
    method GetMessage(message: array<byte>, maxLength: nat) returns (found: bool)
      requires Valid(View()) && maxLength <= message.Length && message != cells
      modifies this`consume, this`messages, message
      ensures var (b, text, done) := Fetched(old(View()), maxLength);
              View() == b && found == done && message[..] == text + old(message[|text|..])
    {
      if messages == 0 { return false; }
      ghost var q, m := Contents(View()), message[..];
      var n;
      n, found := TakeLine(message, maxLength);
      Assemble(message[..], if found then q[..n - 1] + [NUL] else q[..n], m, n);
      if found {
        messages := messages - 1;
      }
    }
  }
}
