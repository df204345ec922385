/**
 The input queue between the interrupt handler, which edits it, and pc_buffer_getMessage, which
 takes messages out of it. The handler may run between any two characters that the reader takes,
 and between the load and the store of its decrement of message_available.
 */
module LineReader {
  import opened Counters
  import opened Sequences
  import opened Words
  import opened PcBuffer
  import opened Usart

  // ---- one character -------------------------------------------------------------------

  /** The character is neither part of an escape sequence nor swallowed by one. */
  predicate PassesFilter(k: Keys, x: byte) {
    x != ESC && x != BRACKET && k.curr != BRACKET && k.prev != ESC
  }

  /** The handler counts a message. */
  predicate Counted(k: Keys, x: byte) {
    !Rubout(x) && PassesFilter(k, x) && NewlineGuard(x, k.curr)
  }

  /** The queue after a character. */
  function QueueAfter(q: seq<byte>, full: bool, k: Keys, x: byte): seq<byte> {
    if Rubout(x) then if q == [] then q else q[..|q| - 1]
    else if PassesFilter(k, x) && !full then q + [x]
    else q
  }

  lemma SameContents(b: Buf, c: Buf)
    requires Sized(b) && c == b.(messages := c.messages)
    ensures Contents(c) == Contents(b) && Count(c) == Count(b)
  {
    MessagesApart(b, c.messages);
  }

  /** What any character does to the queue, the count and the key history, in any state. */
  lemma {:induction false} ReceivedQueue(u: Uart, x: byte)
    requires Valid(u.rx) && Aligned(|u.rx.cells|) && Sized(u.tx)
    ensures var v := Receive(u, x);
            && Valid(v.rx) && |v.rx.cells| == |u.rx.cells| && v.k.prev == u.k.curr && v.k.curr == x
            && Contents(v.rx) == QueueAfter(Contents(u.rx), Full(u.rx), u.k, x)
            && v.rx.messages == if Counted(u.k, x) then Wrap16(u.rx.messages + 1) else u.rx.messages
  {
    var k := Shifted(u.k, x);
    EmptyIff(u.rx);
    if Rubout(x) {
      if !Empty(u.rx) { RetractDropsLast(u.rx); }
    } else if PassesFilter(u.k, x) {
      StoredContents(u.rx, k);
    }
  }

  lemma {:induction false} StoredContents(b: Buf, k: Keys)
    requires Valid(b) && Aligned(|b.cells|)
    ensures var c := Stored(b, k);
            && Valid(c) && |c.cells| == |b.cells|
            && c.messages == (if NewlineGuard(k.curr, k.prev) then Wrap16(b.messages + 1) else b.messages)
            && Contents(c) == if Full(b) then Contents(b) else Contents(b) + [k.curr]
  {
    var c := if NewlineGuard(k.curr, k.prev) then b.(messages := Wrap16(b.messages + 1)) else b;
    SameContents(b, c);
    if !Full(b) { AddAppends(c, k.curr); }
  }

  /**
   Which characters get through, in every state: one is queued iff it is no rubout (8 or 127), there
   is room, it is neither ESC (27) nor `[` (91), the last character was no `[`, and the one before
   that no ESC; a rubout and nothing else takes the newest character back.
   */
  lemma {:induction false} CharacterQueuedIff(u: Uart, x: byte)
    requires Valid(u.rx) && Aligned(|u.rx.cells|) && Sized(u.tx)
    ensures var q, r := Contents(u.rx), Contents(Receive(u, x).rx);
            && (r == q + [x] <==> x !in {8, 27, 91, 127} && |q| < |u.rx.cells| && u.k.curr != 91 && u.k.prev != 27)
            && (q != [] ==> (r == q[..|q| - 1] <==> x in {8, 127}))
            && (r == q || r == q + [x] || (q != [] && r == q[..|q| - 1]))
  {
    ReceivedQueue(u, x);
    EmptyIff(u.rx);
    assert |Contents(u.rx) + [x]| == |Contents(u.rx)| + 1;
  }

  /**
   When a message is counted, in every state, room or not: on a CR (13) or LF (10) that passes, unless
   it is the second of a CR LF or LF CR pair.
   */
  lemma {:induction false} MessageCountedIff(u: Uart, x: byte)
    requires Valid(u.rx) && Aligned(|u.rx.cells|) && Sized(u.tx)
    ensures var m := Receive(u, x).rx.messages;
            && (m == Wrap16(u.rx.messages + 1)
                <==> ((x == 13 && u.k.curr != 10) || (x == 10 && u.k.curr != 13))
                     && u.k.curr != 91 && u.k.prev != 27)
            && (m == Wrap16(u.rx.messages + 1) || m == u.rx.messages)
  {
    ReceivedQueue(u, x);
    assert Wrap16(u.rx.messages + 1) != u.rx.messages;
  }

  /** The key history, and the arrow flags: ESC `[` A raises the one, ESC `[` B the other, nothing lowers them. */
  lemma KeysAfter(u: Uart, x: byte)
    requires Sized(u.rx) && Sized(u.tx)
    ensures var escaped := u.k.prev == 27 && u.k.curr == 91;
            Receive(u, x).k
            == Keys(u.k.prev, u.k.curr, x, u.k.up || (escaped && x == 65), u.k.down || (escaped && x == 66))
  {
  }

  function ReceiveAll(u: Uart, xs: seq<byte>): (v: Uart)
    requires Sized(u.rx) && Sized(u.tx)
    ensures |v.rx.cells| == |u.rx.cells| && |v.tx.cells| == |u.tx.cells|
    decreases |xs|
  {
    if xs == [] then u else ReceiveAll(Receive(u, xs[0]), xs[1..])
  }

  lemma {:induction false} ReceiveThree(u: Uart, x: byte, y: byte, z: byte)
    requires Sized(u.rx) && Sized(u.tx)
    ensures ReceiveAll(u, [x, y, z]) == Receive(Receive(Receive(u, x), y), z)
  {
    assert [x, y, z][1..] == [y, z] && [y, z][1..] == [z] && [z][1..] == [];
    assert ReceiveAll(Receive(Receive(u, x), y), [z]) == ReceiveAll(Receive(Receive(Receive(u, x), y), z), []);
    assert ReceiveAll(Receive(u, x), [y, z]) == ReceiveAll(Receive(Receive(u, x), y), [z]);
  }

  /** An arrow key raises its own flag and leaves both queues, the count and the other flag alone. */
  lemma {:induction false} ArrowKeyOnlyFlags(u: Uart, key: byte)
    requires Sized(u.rx) && Sized(u.tx) && key in {UP, DOWN}
    ensures var v := ReceiveAll(u, [ESC, BRACKET, key]);
            v == u.(k := Keys(ESC, BRACKET, key, u.k.up || key == UP, u.k.down || key == DOWN))
  {
    ReceiveThree(u, ESC, BRACKET, key);
  }

  // ---- the machine ---------------------------------------------------------------------

  /**
   Where pc_buffer_getMessage is: outside; about to take a character, having written `text`, the
   last of it `curr`; about to load the count of messages, having ended the text; about to store it.
   */
  datatype Reader =
    | Waiting
    | Taking(text: seq<byte>, curr: byte)
    | Counting(text: seq<byte>)
    | Storing(text: seq<byte>, loaded: u16)

  /** `out`: the messages returned so far, as they were written. */
  datatype World = World(u: Uart, r: Reader, out: seq<seq<byte>>)

  /** An interrupt, or a step of the reader. */
  datatype Event = Interrupt(rxne: Received, txe: bool) | Read

  predicate Ready(w: World) {
    Sized(w.u.rx) && Sized(w.u.tx)
  }

  function ReadStep(w: World, max: nat): (v: World)
    requires Ready(w)
    ensures Ready(v) && |v.u.rx.cells| == |w.u.rx.cells| && v.u.k == w.u.k
  {
    match w.r
    case Waiting => if w.u.rx.messages == 0 then w else w.(r := Taking([], NUL))
    case Taking(text, curr) =>
      if |text| >= max || Empty(w.u.rx) then w.(r := Waiting)
      else
        var x, u := Head(w.u.rx), w.u.(rx := Remove(w.u.rx));
        World(u, if NewlineGuard(x, curr) then Counting(text + [NUL]) else Taking(text + [x], x), w.out)
    case Counting(text) => w.(r := Storing(text, w.u.rx.messages))
    case Storing(text, loaded) =>
      World(w.u.(rx := w.u.rx.(messages := Wrap16(loaded - 1))), Waiting, w.out + [text])
  }

  function Next(w: World, e: Event, max: nat): (v: World)
    requires Ready(w)
    ensures Ready(v) && |v.u.rx.cells| == |w.u.rx.cells|
  {
    match e
    case Interrupt(rxne, txe) => w.(u := Irq(w.u, rxne, txe).0)
    case Read => ReadStep(w, max)
  }

  function Play(w: World, events: seq<Event>, max: nat): (v: World)
    requires Ready(w)
    ensures Ready(v) && |v.u.rx.cells| == |w.u.rx.cells|
  {
    if events == [] then w else Next(Play(w, events[..|events| - 1], max), events[|events| - 1], max)
  }

  predicate Fresh(w: World) {
    && Ready(w) && Valid(w.u.rx) && Aligned(|w.u.rx.cells|) && Contents(w.u.rx) == [] && w.u.rx.messages == 0
    && w.u.k == NO_KEYS && w.r == Waiting && w.out == []
  }

  // ---- undisturbed, the reader is pc_buffer_getMessage -----------------------------------

  function Reads(w: World, n: nat, max: nat): (v: World)
    requires Ready(w)
    ensures Ready(v)
    decreases n
  {
    if n == 0 then w else Reads(ReadStep(w, max), n - 1, max)
  }

  /** The configuration when a call has returned. */
  function Returned(w: World, b: Buf, text: seq<byte>, found: bool): World {
    World(w.u.(rx := b), Waiting, if found then w.out + [text] else w.out)
  }

  lemma {:induction false} TakesNext(w: World, b: Buf, i: nat, curr: byte, max: nat)
    requires Ready(w) && Valid(b) && i < Count(b) && i < max
    requires w.r == Taking(Contents(b)[..i], curr) && w.u.rx == Drop(b, i)
    ensures var q := Contents(b);
            ReadStep(w, max) == World(w.u.(rx := Drop(b, i + 1)),
                                      if NewlineGuard(q[i], curr) then Counting(q[..i] + [NUL])
                                      else Taking(q[..i + 1], q[i]), w.out)
  {
    DropMany(b, i);
    DropNext(b, i);
    assert Contents(b)[..i] + [Contents(b)[i]] == Contents(b)[..i + 1];
  }

  lemma {:induction false} LastReads(w: World, max: nat)
    requires Ready(w) && w.u.rx.messages > 0
    ensures w.r.Taking? && (|w.r.text| >= max || Empty(w.u.rx)) ==> Reads(w, 1, max) == w.(r := Waiting)
    ensures w.r.Counting? ==>
              Reads(w, 2, max) == Returned(w, w.u.rx.(messages := w.u.rx.messages - 1), w.r.text, true)
  {
    var v := ReadStep(w, max);
    assert Reads(w, 1, max) == Reads(v, 0, max);
    if w.r.Counting? {
      assert Reads(w, 2, max) == Reads(v, 1, max) == Reads(ReadStep(v, max), 0, max);
    }
  }

  /** The call has taken `n` characters of `b`, the last of them a terminator if it `found` one. */
  function Outcome(w: World, b: Buf, n: nat, found: bool): World
    requires Sized(b) && n <= Count(b) && (found ==> n > 0)
  {
    if found
    then Returned(w, Drop(b, n).(messages := Wrap16(b.messages - 1)), Contents(b)[..n - 1] + [NUL], true)
    else Returned(w, Drop(b, n), Contents(b)[..n], false)
  }

  lemma ReadsMore(w: World, k: nat, max: nat)
    requires Ready(w)
    ensures Reads(w, k + 1, max) == Reads(ReadStep(w, max), k, max)
  {
  }

  lemma {:induction false} CallEnds(w: World, b: Buf, n: nat, max: nat)
    requires Ready(w) && Valid(b) && 0 < n <= Count(b) && b.messages > 0
    requires w.r == Counting(Contents(b)[..n - 1] + [NUL]) && w.u.rx == Drop(b, n)
    ensures Reads(w, 2, max) == Outcome(w, b, n, true)
  {
    LastReads(w, max);
  }

  /** How many steps are left of a call that has taken `i` characters of `b`, and how it ends. */
  function Left(b: Buf, i: nat, curr: byte, max: nat): nat
    requires Sized(b) && i <= Count(b) && i <= max
  {
    var (n, found) := Taken(Contents(b), i, curr, max);
    n - i + if found then 2 else 1
  }

  function End(w: World, b: Buf, i: nat, curr: byte, max: nat): World
    requires Sized(b) && i <= Count(b) && i <= max
  {
    var (n, found) := Taken(Contents(b), i, curr, max);
    Outcome(w, b, n, found)
  }

  lemma {:induction false} LeftNext(w: World, b: Buf, i: nat, curr: byte, max: nat)
    requires Sized(b) && i < Count(b) && i < max
    ensures var x := Contents(b)[i];
            if NewlineGuard(x, curr)
            then Left(b, i, curr, max) == 3 && End(w, b, i, curr, max) == Outcome(w, b, i + 1, true)
            else Left(b, i, curr, max) == Left(b, i + 1, x, max) + 1
                 && End(w, b, i, curr, max) == End(w, b, i + 1, x, max)
  {
  }

  lemma {:induction false} RestOfCall(w: World, b: Buf, i: nat, curr: byte, max: nat)
    requires Ready(w) && Valid(b) && b.messages > 0 && i <= Count(b) && i <= max
    requires w.r == Taking(Contents(b)[..i], curr) && w.u.rx == Drop(b, i)
    ensures Reads(w, Left(b, i, curr, max), max) == End(w, b, i, curr, max)
    decreases Count(b) - i
  {
    if i == max || i == Count(b) {
      DropMany(b, i);
      LastReads(w, max);
    } else {
      var v, x := ReadStep(w, max), Contents(b)[i];
      TakesNext(w, b, i, curr, max);
      LeftNext(w, b, i, curr, max);
      if NewlineGuard(x, curr) {
        CallEnds(v, b, i + 1, max);
        ReadsMore(w, 2, max);
      } else {
        RestOfCall(v, b, i + 1, x, max);
        ReadsMore(w, Left(b, i + 1, x, max), max);
        assert End(v, b, i + 1, x, max) == End(w, b, i + 1, x, max);
      }
    }
  }

  /** How many steps an undisturbed call takes. */
  function CallLength(b: Buf, max: nat): nat
    requires Sized(b)
  {
    if b.messages == 0 then 1
    else
      var (n, found) := Taken(Contents(b), 0, NUL, max);
      n + if found then 3 else 2
  }

  lemma {:induction false} ReadsAreFetch(w: World, max: nat)
    requires Ready(w) && Valid(w.u.rx) && w.r == Waiting
    ensures var (b, text, found) := Fetched(w.u.rx, max);
            Reads(w, CallLength(w.u.rx, max), max) == Returned(w, b, text, found)
  {
    if w.u.rx.messages == 0 {
      assert Reads(w, 1, max) == Reads(ReadStep(w, max), 0, max);
    } else {
      var v := ReadStep(w, max);
      DropNone(w.u.rx);
      assert Contents(w.u.rx)[..0] == [];
      RestOfCall(v, w.u.rx, 0, NUL, max);
    }
  }

  // ---- what there is to be found -------------------------------------------------------

  predicate Ends(x: byte) {
    x == CR || x == LF
  }

  function Terminators(q: seq<byte>): (n: nat)
    ensures n <= |q|
  {
    if q == [] then 0 else Terminators(q[..|q| - 1]) + if Ends(q[|q| - 1]) then 1 else 0
  }

  lemma {:induction false} TerminatorsAppend(q: seq<byte>, x: byte)
    ensures Terminators(q + [x]) == Terminators(q) + if Ends(x) then 1 else 0
  {
    assert (q + [x])[..|q|] == q;
  }

  lemma {:induction false} TerminatorsOfRest(q: seq<byte>)
    requires q != []
    ensures Terminators(q) == (if Ends(q[0]) then 1 else 0) + Terminators(q[1..])
  {
    var front := q[..|q| - 1];
    if |q| == 1 {
      assert front == [] == q[1..];
    } else {
      TerminatorsOfRest(front);
      assert q[1..][..|q| - 2] == front[1..];
    }
  }

  /** How many messages repeated calls of pc_buffer_getMessage would find. */
  function Findable(q: seq<byte>, max: nat): nat
    decreases |q|
  {
    var (n, found) := Taken(q, 0, NUL, max);
    if found then 1 + Findable(q[n..], max) else 0
  }

  /** Each call begins without a previous character, so that every CR and LF ends a message. */
  lemma {:induction false} TakenEndsMessage(q: seq<byte>, i: nat, prev: byte, max: nat)
    requires i <= |q| <= max && !Ends(prev)
    ensures var (n, found) := Taken(q, i, prev, max);
            Terminators(q[i..]) == if found then 1 + Terminators(q[n..]) else 0
    decreases |q| - i
  {
    if i == |q| {
      assert q[i..] == [];
    } else {
      TerminatorsOfRest(q[i..]);
      assert q[i..][1..] == q[i + 1..];
      if !Ends(q[i]) { TakenEndsMessage(q, i + 1, q[i], max); }
    }
  }

  lemma {:induction false} FindableIsTerminators(q: seq<byte>, max: nat)
    requires |q| <= max
    ensures Findable(q, max) == Terminators(q)
    decreases |q|
  {
    TakenEndsMessage(q, 0, NUL, max);
    assert q[0..] == q;
    var (n, found) := Taken(q, 0, NUL, max);
    if found { FindableIsTerminators(q[n..], max); }
  }

  // ---- the count of messages -----------------------------------------------------------

  /** By how much a character makes the count exceed what there is to be found. */
  function Miscount(q: seq<byte>, full: bool, k: Keys, x: byte): int {
    if Rubout(x) then if q != [] && Ends(q[|q| - 1]) then 1 else 0
    else if !Ends(x) || !PassesFilter(k, x) || NewlineGuard(x, k.curr) == !full then 0
    else if full then 1
    else -1
  }

  /** The same for any step; a store overwrites what the handler has counted since the load. */
  function Drift(w: World, e: Event): int
    requires Ready(w)
  {
    match e
    case Interrupt(rxne, _) =>
      if rxne.Char? then Miscount(Contents(w.u.rx), Full(w.u.rx), w.u.k, rxne.x) else 0
    case Read => if w.r.Storing? then w.r.loaded - w.u.rx.messages else 0
  }

  function Drifts(w: World, events: seq<Event>, max: nat): int
    requires Ready(w)
  {
    if events == [] then 0
    else
      var n := |events| - 1;
      Drifts(w, events[..n], max) + Drift(Play(w, events[..n], max), events[n])
  }

  /** A message that has been taken but is still counted. */
  function Owed(r: Reader): nat {
    if r.Counting? || r.Storing? then 1 else 0
  }

  predicate Ok(w: World) {
    && Ready(w) && Valid(w.u.rx) && Aligned(|w.u.rx.cells|)
    && (w.r.Taking? ==> !Ends(w.r.curr))
  }

  /** What there is to be found, and what the reader is about to take off the count. */
  function Due(w: World): nat
    requires Ready(w)
  {
    Terminators(Contents(w.u.rx)) + Owed(w.r)
  }

  predicate CountsMessages(w: World)
    requires Ready(w)
  {
    w.u.rx.messages == Due(w)
  }

  lemma WrapAdd16(x: int, y: int)
    ensures Wrap16(Wrap16(x) + y) == Wrap16(x + y)
  {
    var k := x / TWO_TO_THE_16;
    var z := Wrap16(x) + y;
    assert x + y == z + k * TWO_TO_THE_16;
    assert x + y == (z / TWO_TO_THE_16 + k) * TWO_TO_THE_16 + z % TWO_TO_THE_16;
  }

  lemma {:induction false} QueueDrifts(q: seq<byte>, full: bool, k: Keys, x: byte)
    ensures Terminators(QueueAfter(q, full, k, x)) + Miscount(q, full, k, x)
         == Terminators(q) + if Counted(k, x) then 1 else 0
  {
    if !Rubout(x) { TerminatorsAppend(q, x); }
  }

  /** `v` is `w` after a step that drifts by `d`. */
  predicate Drifted(w: World, v: World, d: int) {
    && Ok(w) && Ok(v)
    && v.u.rx.messages == Wrap16(w.u.rx.messages + Due(v) - Due(w) + d)
  }

  lemma DueMoves(w: World, v: World, d: int, counted: bool)
    requires Ok(w) && Ok(v) && Due(v) + d == Due(w) + if counted then 1 else 0
    requires v.u.rx.messages == if counted then Wrap16(w.u.rx.messages + 1) else w.u.rx.messages
    ensures Drifted(w, v, d)
  {
    assert w.u.rx.messages + Due(v) - Due(w) + d == w.u.rx.messages + if counted then 1 else 0;
  }

  lemma {:induction false} CharDrifts(w: World, x: byte)
    requires Ok(w)
    ensures Drifted(w, w.(u := Receive(w.u, x)), Miscount(Contents(w.u.rx), Full(w.u.rx), w.u.k, x))
  {
    ReceivedQueue(w.u, x);
    QueueDrifts(Contents(w.u.rx), Full(w.u.rx), w.u.k, x);
    DueMoves(w, w.(u := Receive(w.u, x)), Miscount(Contents(w.u.rx), Full(w.u.rx), w.u.k, x), Counted(w.u.k, x));
  }

  lemma SameInput(w: World, v: World, u: Uart, d: int)
    requires Drifted(w, v, d) && Sized(u.tx) && u.rx == v.u.rx
    ensures Drifted(w, v.(u := u), d)
  {
  }

  lemma {:induction false} InterruptDrifts(w: World, rxne: Received, txe: bool, max: nat)
    requires Ok(w)
    ensures Drifted(w, Next(w, Interrupt(rxne, txe), max), Drift(w, Interrupt(rxne, txe)))
  {
    var v := if rxne.Char? then w.(u := Receive(w.u, rxne.x)) else w;
    if rxne.Char? { CharDrifts(w, rxne.x); } else { DueMoves(w, w, 0, false); }
    SameInput(w, v, Irq(w.u, rxne, txe).0, Drift(w, Interrupt(rxne, txe)));
  }

  lemma {:induction false} HeadTaken(b: Buf)
    requires Valid(b) && !Empty(b)
    ensures Valid(Remove(b))
    ensures Terminators(Contents(b)) == (if Ends(Head(b)) then 1 else 0) + Terminators(Contents(Remove(b)))
  {
    RemoveTakesHead(b);
    TerminatorsOfRest(Contents(b));
    assert Contents(b)[1..] == Contents(Remove(b));
  }

  lemma {:induction false} TakeDrifts(w: World, max: nat)
    requires Ok(w) && w.r.Taking? && !Empty(w.u.rx) && |w.r.text| < max
    ensures Drifted(w, ReadStep(w, max), 0)
  {
    HeadTaken(w.u.rx);
    DueMoves(w, ReadStep(w, max), 0, false);
  }

  lemma {:induction false} StoreDrifts(w: World, max: nat)
    requires Ok(w) && w.r.Storing?
    ensures Drifted(w, ReadStep(w, max), Drift(w, Read))
  {
    SameContents(w.u.rx, ReadStep(w, max).u.rx);
  }

  lemma {:induction false} StepDrifts(w: World, e: Event, max: nat)
    requires Ok(w)
    ensures Drifted(w, Next(w, e, max), Drift(w, e))
  {
    if e.Interrupt? {
      InterruptDrifts(w, e.rxne, e.txe, max);
    } else if w.r.Storing? {
      StoreDrifts(w, max);
    } else if w.r.Taking? && !Empty(w.u.rx) && |w.r.text| < max {
      TakeDrifts(w, max);
    } else {
      DueMoves(w, ReadStep(w, max), 0, false);
    }
  }

  lemma FewCells(size: nat)
    requires 0 < size < TWO_TO_THE_16 && Aligned(size)
    ensures size < TWO_TO_THE_16 - 1
  {
    AlignedIffDivides(size);
    assert TWO_TO_THE_32 == 65537 * 65535 + 1;
  }

  lemma DueFits(w: World)
    requires Ok(w)
    ensures Due(w) < TWO_TO_THE_16
  {
    FewCells(|w.u.rx.cells|);
  }

  /**
   For every state, character and step: a count that is right stays right iff the step does not
   drift: no CR or LF is rubbed out; none that the handler counts meets a full buffer; none that
   it does not count, being the second of a pair, finds room; and none is counted between the
   load and the store of the reader's decrement.
   */
  lemma {:induction false} CountKeptIff(w: World, e: Event, max: nat)
    requires Ok(w) && CountsMessages(w)
    ensures CountsMessages(Next(w, e, max)) <==> Drift(w, e) == 0
  {
    StepDrifts(w, e, max);
    DueFits(Next(w, e, max));
    SmallDrift(Due(Next(w, e, max)), Drift(w, e));
  }

  lemma SmallDrift(due: nat, d: int)
    requires due < TWO_TO_THE_16 && -TWO_TO_THE_16 < d < TWO_TO_THE_16
    ensures Wrap16(due + d) == due <==> d == 0
  {
  }

  /** The count is what there is to be found, off by `d`. */
  predicate OffBy(w: World, d: int) {
    Ok(w) && w.u.rx.messages == Wrap16(Due(w) + d)
  }

  lemma OffByMore(w: World, v: World, d: int, more: int)
    requires OffBy(w, d) && Drifted(w, v, more)
    ensures OffBy(v, d + more)
  {
    WrapAdd16(Due(w) + d, Due(v) - Due(w) + more);
  }

  lemma {:induction false} RunDrifts(w: World, events: seq<Event>, max: nat)
    requires Fresh(w)
    ensures OffBy(Play(w, events, max), Drifts(w, events, max))
  {
    if events == [] {
      assert Due(w) == 0;
    } else {
      var n := |events| - 1;
      RunDrifts(w, events[..n], max);
      var u := Play(w, events[..n], max);
      StepDrifts(u, events[n], max);
      OffByMore(u, Next(u, events[n], max), Drifts(w, events[..n], max), Drift(u, events[n]));
    }
  }

  /** Over all runs: the count is off by the sum of the drifts, so it is right iff they cancel. */
  lemma {:induction false} CountDrifts(w: World, events: seq<Event>, max: nat)
    requires Fresh(w)
    ensures OffBy(Play(w, events, max), Drifts(w, events, max))
    ensures CountsMessages(Play(w, events, max)) <==> Wrap16(Drifts(w, events, max)) == 0
  {
    RunDrifts(w, events, max);
    DueFits(Play(w, events, max));
    SmallWrap(Due(Play(w, events, max)), Drifts(w, events, max));
  }

  lemma SmallWrap(due: nat, d: int)
    requires due < TWO_TO_THE_16
    ensures Wrap16(due + d) == due <==> Wrap16(d) == 0
  {
    WrapAdd16(d, due);
  }

  // ---- a line that gets stuck ------------------------------------------------------------

  lemma {:induction false} FetchOne(b: Buf, max: nat)
    requires Valid(b) && b.messages > 0 && Contents(b) != [] && Ends(Contents(b)[0]) && max > 0
    ensures var (c, text, found) := Fetched(b, max);
            && found && text == [NUL] && Valid(c) && c.messages == b.messages - 1 && Contents(c) == Contents(b)[1..]
  {
    var q := Contents(b);
    assert Taken(q, 0, NUL, max) == (1, true);
    assert q[..0] == [];
    DropMany(b, 1);
    SameContents(Drop(b, 1), Drop(b, 1).(messages := b.messages - 1));
  }

  lemma {:induction false} StrandedAfterTwo(a: Buf, x: byte, max: nat)
    requires Valid(a) && Contents(a) == [CR, LF, x, CR] && a.messages == 2 && !Ends(x) && max > 0
    ensures var (b, s, f) := Fetched(a, max);
            var (c, t, g) := Fetched(b, max);
            f && g && s == t == [NUL] && Contents(c) == [x, CR] && Terminators(Contents(c)) == 1 && !Fetched(c, max).2
  {
    FetchOne(a, max);
    var b := Fetched(a, max).0;
    assert Contents(b) == [LF, x, CR];
    FetchOne(b, max);
    var c := Fetched(b, max).0;
    assert Contents(c) == [x, CR] && [x, CR][..1] == [x] && [x][..0] == [];
    assert Terminators([x]) == 0;
  }

  /** The input queue, its count and the key history. */
  predicate Holds(u: Uart, size: nat, q: seq<byte>, messages: nat, prev: byte, last: byte) {
    && Valid(u.rx) && Aligned(|u.rx.cells|) && Sized(u.tx) && |u.rx.cells| == size
    && Contents(u.rx) == q && u.rx.messages == messages && u.k.prev == prev && u.k.curr == last
  }

  lemma {:induction false} PlainQueued(u: Uart, size: nat, q: seq<byte>, messages: nat, prev: byte, last: byte, x: byte)
    requires Holds(u, size, q, messages, prev, last) && |q| < size && messages < TWO_TO_THE_16 - 1
    requires !Rubout(x) && PassesFilter(u.k, x)
    ensures Holds(Receive(u, x), size, q + [x], if NewlineGuard(x, last) then messages + 1 else messages, last, x)
  {
    ReceivedQueue(u, x);
    EmptyIff(u.rx);
  }

  /**
   A terminal that ends lines with CR LF: the LF is queued but not counted, a call finds it as an
   empty line, and the next line is never fetched.
   */
  lemma {:induction false} CrLfStrandsLine(u: Uart, x: byte, max: nat)
    requires Valid(u.rx) && Aligned(|u.rx.cells|) && Sized(u.tx) && 4 <= |u.rx.cells| <= max
    requires Contents(u.rx) == [] && u.rx.messages == 0 && u.k == NO_KEYS
    requires !Ends(x) && !Rubout(x) && x != ESC && x != BRACKET
    ensures var a := Receive(Receive(Receive(Receive(u, CR), LF), x), CR).rx;
            var (b, s, f) := Fetched(a, max);
            var (c, t, g) := Fetched(b, max);
            && Contents(a) == [CR, LF, x, CR] && f && g && s == t == [NUL]
            && Contents(c) == [x, CR] && Terminators(Contents(c)) == 1 && !Fetched(c, max).2
  {
    var size := |u.rx.cells|;
    PlainQueued(u, size, [], 0, NUL, NUL, CR);
    var v := Receive(u, CR);
    PlainQueued(v, size, [CR], 1, NUL, CR, LF);
    var w := Receive(v, LF);
    PlainQueued(w, size, [CR, LF], 1, CR, LF, x);
    var y := Receive(w, x);
    PlainQueued(y, size, [CR, LF, x], 1, LF, x, CR);
    StrandedAfterTwo(Receive(y, CR).rx, x, max);
  }
}
