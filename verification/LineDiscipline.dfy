/**
 What a person at the console can rely on: the interrupt handler's edits and the reader's
 messages are the lines of an editor that knows nothing of buffers and counters.
 */
module LineDiscipline {
  import opened Counters
  import opened Sequences
  import opened Words
  import opened PcBuffer
  import opened Usart
  import opened LineReader

  // ---- the editor ----------------------------------------------------------------------

  /** Finished lines, each with its terminator; the line being typed; the last two characters. */
  datatype Editor = Editor(lines: seq<seq<byte>>, current: seq<byte>, prev: byte, last: byte)

  const BLANK := Editor([], [], NUL, NUL)

  /** Escape sequences leave no trace. */
  predicate Escaped(e: Editor, x: byte) {
    x == ESC || x == BRACKET || e.last == BRACKET || e.prev == ESC
  }

  function Typed(e: Editor, x: byte): Editor {
    var f := e.(prev := e.last, last := x);
    if Rubout(x) then f.(current := if e.current == [] then [] else e.current[..|e.current| - 1])
    else if Escaped(e, x) then f
    else if Ends(x) then f.(lines := e.lines + [e.current + [x]], current := [])
    else f.(current := e.current + [x])
  }

  function Edited(text: seq<byte>): Editor {
    if text == [] then BLANK else Typed(Edited(text[..|text| - 1]), text[|text| - 1])
  }

  /** A finished line: its only terminator is its last character. */
  predicate IsLine(line: seq<byte>) {
    line != [] && Ends(line[|line| - 1]) && NoTerminator(line[..|line| - 1])
  }

  predicate NoTerminator(line: seq<byte>) {
    forall i :: 0 <= i < |line| ==> !Ends(line[i])
  }

  /** A line as a message: a C string. */
  function Message(line: seq<byte>): seq<byte> {
    (if line == [] then [] else line[..|line| - 1]) + [NUL]
  }

  predicate CleanEditor(e: Editor) {
    NoTerminator(e.current) && forall i :: 0 <= i < |e.lines| ==> IsLine(e.lines[i])
  }

  lemma EditorStaysClean(e: Editor, x: byte)
    requires CleanEditor(e)
    ensures CleanEditor(Typed(e, x))
  {
    assert (e.current + [x])[..|e.current|] == e.current;
  }

  function Join(lines: seq<seq<byte>>): seq<byte> {
    if lines == [] then [] else lines[0] + Join(lines[1..])
  }

  lemma {:induction false} JoinMore(lines: seq<seq<byte>>, line: seq<byte>)
    ensures Join(lines + [line]) == Join(lines) + line
  {
    if lines == [] {
      assert [line][1..] == [];
    } else {
      assert (lines + [line])[1..] == lines[1..] + [line];
      JoinMore(lines[1..], line);
      Assoc(lines[0], Join(lines[1..]), line);
    }
  }

  lemma {:induction false} JoinLong(lines: seq<seq<byte>>)
    requires forall i :: 0 <= i < |lines| ==> IsLine(lines[i])
    ensures |Join(lines)| >= |lines|
    ensures lines != [] ==> Ends(Join(lines)[|Join(lines)| - 1])
  {
    if lines != [] {
      JoinLong(lines[1..]);
    }
  }

  // ---- lines in a stream -----------------------------------------------------------------

  /** What the reader has of the line that it is taking. */
  function Lead(r: Reader, pending: seq<seq<byte>>): seq<byte> {
    if r.Taking? then r.text else if r.Waiting? || pending == [] then [] else pending[0]
  }

  /** The reader is inside the first of the pending lines, or has just ended it. */
  predicate InsideLine(r: Reader, pending: seq<seq<byte>>, max: nat) {
    r.Waiting? ||
    (&& pending != [] && IsLine(pending[0]) && |pending[0]| <= max
     && (if r.Taking? then |r.text| < |pending[0]| && r.text == pending[0][..|r.text|]
         else r.text == Message(pending[0])))
  }

  /** The reader's part and the queue make up the pending lines and the current one. */
  predicate Streams(lead: seq<byte>, q: seq<byte>, pending: seq<seq<byte>>, current: seq<byte>) {
    lead + q == Join(pending) + current
  }

  predicate AllLines(pending: seq<seq<byte>>) {
    forall i :: 0 <= i < |pending| ==> IsLine(pending[i])
  }

  lemma {:induction false} StreamGrows(lead: seq<byte>, q: seq<byte>, pending: seq<seq<byte>>, current: seq<byte>,
                                       x: byte)
    requires Streams(lead, q, pending, current)
    ensures Streams(lead, q + [x], pending, current + [x])
    ensures Streams(lead, q + [x], pending + [current + [x]], [])
  {
    Assoc(lead, q, [x]);
    Assoc(Join(pending), current, [x]);
    JoinMore(pending, current + [x]);
  }

  /** A terminator that is still queued keeps rubouts off the lines before it. */
  lemma {:induction false} StreamShrinks(lead: seq<byte>, q: seq<byte>, pending: seq<seq<byte>>, current: seq<byte>)
    requires Streams(lead, q, pending, current) && AllLines(pending)
    requires q != [] && !Ends(q[|q| - 1])
    ensures current != [] && Streams(lead, q[..|q| - 1], pending, current[..|current| - 1])
  {
    JoinLong(pending);
    var s := lead + q;
    assert s[|s| - 1] == q[|q| - 1];
    assert current == [] ==> s == Join(pending);
    if current != [] {
      assert s[..|s| - 1] == lead + q[..|q| - 1];
      assert s[..|s| - 1] == Join(pending) + current[..|current| - 1];
    }
  }

  lemma {:induction false} NothingToRubOut(r: Reader, pending: seq<seq<byte>>, current: seq<byte>, max: nat)
    requires InsideLine(r, pending, max) && AllLines(pending)
    requires Streams(Lead(r, pending), [], pending, current)
    ensures current == []
  {
    if pending == [] {
      assert Join(pending) + current == current;
    }
  }

  // ---- the invariant -------------------------------------------------------------------

  /** The lines of the editor that have not come back yet. */
  function Pending(w: World, e: Editor): seq<seq<byte>>
    requires |w.out| <= |e.lines|
  {
    e.lines[|w.out|..]
  }

  predicate CameBack(w: World, e: Editor) {
    |w.out| <= |e.lines| && CleanEditor(e) && forall i :: 0 <= i < |w.out| ==> w.out[i] == Message(e.lines[i])
  }

  /** `d`: by how much the count has drifted. */
  predicate InStep(w: World, e: Editor, d: int, max: nat) {
    && Ok(w) && e.prev == w.u.k.prev && e.last == w.u.k.curr && |w.u.rx.cells| <= max
    && CameBack(w, e) && InsideLine(w.r, Pending(w, e), max)
    && Streams(Lead(w.r, Pending(w, e)), Contents(w.u.rx), Pending(w, e), e.current)
    && d <= 0 && w.u.rx.messages == |Pending(w, e)| + d
    && (w.r != Waiting ==> w.u.rx.messages >= 1)
    && (w.r.Storing? ==> 1 <= w.r.loaded <= w.u.rx.messages)
  }

  /** No terminator is rubbed out, and every character that is kept finds room. */
  predicate Accepted(u: Uart, x: byte)
    requires Sized(u.rx)
  {
    var q := Contents(u.rx);
    if Rubout(x) then q == [] || !Ends(q[|q| - 1]) else PassesFilter(u.k, x) ==> !Full(u.rx)
  }

  predicate NothingLost(w: World, events: seq<Event>, max: nat)
    requires Ready(w)
  {
    events == [] ||
    (var n := |events| - 1;
     && NothingLost(w, events[..n], max)
     && (events[n].Interrupt? && events[n].rxne.Char? ==> Accepted(Play(w, events[..n], max).u, events[n].rxne.x)))
  }

  /** What was typed. */
  function Text(events: seq<Event>): seq<byte> {
    if events == [] then []
    else
      var e := events[|events| - 1];
      Text(events[..|events| - 1]) + if e.Interrupt? && e.rxne.Char? then [e.rxne.x] else []
  }

  // ---- typing --------------------------------------------------------------------------

  lemma {:induction false} LinesFit(w: World, e: Editor, d: int, max: nat)
    requires InStep(w, e, d, max)
    ensures |Pending(w, e)| <= |Contents(w.u.rx)| + 1
  {
    var p, q := Pending(w, e), Contents(w.u.rx);
    assert AllLines(p);
    if p != [] {
      assert AllLines(p[1..]);
      JoinLong(p[1..]);
      assert |Lead(w.r, p) + q| == |Join(p) + e.current|;
    }
  }

  lemma {:induction false} PendingGrows(w: World, e: Editor, line: seq<byte>)
    requires |w.out| <= |e.lines|
    ensures (e.lines + [line])[|w.out|..] == Pending(w, e) + [line]
  {
  }

  /** The reader's view of the lines after a character. */
  lemma {:induction false} TypedStream(w: World, e: Editor, d: int, max: nat, x: byte)
    requires InStep(w, e, d, max) && Accepted(w.u, x)
    ensures var f := Typed(e, x);
            && CameBack(w, f) && InsideLine(w.r, Pending(w, f), max)
            && Streams(Lead(w.r, Pending(w, f)), QueueAfter(Contents(w.u.rx), Full(w.u.rx), w.u.k, x),
                       Pending(w, f), f.current)
            && |Pending(w, f)| == |Pending(w, e)| + if Ends(x) && PassesFilter(w.u.k, x) then 1 else 0
  {
    var q, p, lead := Contents(w.u.rx), Pending(w, e), Lead(w.r, Pending(w, e));
    EditorStaysClean(e, x);
    if Rubout(x) {
      if q == [] { NothingToRubOut(w.r, p, e.current, max); } else { StreamShrinks(lead, q, p, e.current); }
    } else if PassesFilter(w.u.k, x) {
      StreamGrows(lead, q, p, e.current, x);
      PendingGrows(w, e, e.current + [x]);
    }
  }

  lemma {:induction false} TypeKeeps(w: World, e: Editor, d: int, max: nat, x: byte)
    requires InStep(w, e, d, max) && Accepted(w.u, x)
    ensures InStep(w.(u := Receive(w.u, x)), Typed(e, x), d + Miscount(Contents(w.u.rx), Full(w.u.rx), w.u.k, x), max)
  {
    ReceivedQueue(w.u, x);
    TypedStream(w, e, d, max, x);
    LinesFit(w, e, d, max);
    FewCells(|w.u.rx.cells|);
    TypedInStep(w, e, d, max, x, Receive(w.u, x));
  }

  lemma TypedInStep(w: World, e: Editor, d: int, max: nat, x: byte, v: Uart)
    requires InStep(w, e, d, max) && Accepted(w.u, x) && |Pending(w, e)| <= |Contents(w.u.rx)| + 1
    requires |w.u.rx.cells| < TWO_TO_THE_16 - 1
    requires Valid(v.rx) && Sized(v.tx) && |v.rx.cells| == |w.u.rx.cells| && v.k.prev == w.u.k.curr && v.k.curr == x
    requires Contents(v.rx) == QueueAfter(Contents(w.u.rx), Full(w.u.rx), w.u.k, x)
    requires v.rx.messages == if Counted(w.u.k, x) then Wrap16(w.u.rx.messages + 1) else w.u.rx.messages
    requires var f := Typed(e, x);
             && CameBack(w, f) && InsideLine(w.r, Pending(w, f), max)
             && Streams(Lead(w.r, Pending(w, f)), Contents(v.rx), Pending(w, f), f.current)
             && |Pending(w, f)| == |Pending(w, e)| + if Ends(x) && PassesFilter(w.u.k, x) then 1 else 0
    ensures InStep(w.(u := v), Typed(e, x), d + Miscount(Contents(w.u.rx), Full(w.u.rx), w.u.k, x), max)
  {
  }

  lemma SentKeeps(w: World, e: Editor, d: int, max: nat, u: Uart)
    requires InStep(w, e, d, max) && Sized(u.tx) && u.rx == w.u.rx && u.k == w.u.k
    ensures InStep(w.(u := u), e, d, max)
  {
  }

  // ---- reading -------------------------------------------------------------------------

  lemma {:induction false} StartKeeps(w: World, e: Editor, d: int, max: nat)
    requires InStep(w, e, d, max) && w.r.Waiting? && w.u.rx.messages > 0
    ensures InStep(ReadStep(w, max), e, d, max)
  {
    var p := Pending(w, e);
    assert p != [] && IsLine(p[0]) by { assert p[0] == e.lines[|w.out|]; }
    FirstFits(w, e, d, max);
    assert p[0][..0] == [];
  }

  /** A line that is complete has all its characters in the queue. */
  lemma {:induction false} FirstFits(w: World, e: Editor, d: int, max: nat)
    requires InStep(w, e, d, max) && w.r.Waiting? && Pending(w, e) != []
    ensures |Pending(w, e)[0]| <= max
  {
    var p, q := Pending(w, e), Contents(w.u.rx);
    assert [] + q == q;
    assert |q| == |p[0]| + |Join(p[1..])| + |e.current|;
  }

  /** The next character that the reader finds is the next one of its line. */
  lemma {:induction false} NextOfLine(text: seq<byte>, q: seq<byte>, p: seq<seq<byte>>, current: seq<byte>)
    requires Streams(text, q, p, current) && p != [] && |text| < |p[0]| && text == p[0][..|text|]
    ensures q != [] && q[0] == p[0][|text|] && text + [q[0]] == p[0][..|text| + 1]
    ensures Streams(text + [q[0]], q[1..], p, current)
  {
    var s := text + q;
    assert s == p[0] + (Join(p[1..]) + current);
    assert s[|text|] == p[0][|text|];
    assert q == [q[0]] + q[1..];
    Assoc(text, [q[0]], q[1..]);
  }

  lemma {:induction false} EndOfLine(line: seq<byte>, i: nat)
    requires IsLine(line) && i < |line|
    ensures Ends(line[i]) <==> i == |line| - 1
  {
    assert i < |line| - 1 ==> line[..|line| - 1][i] == line[i];
  }

  lemma {:induction false} TakeFields(w: World, e: Editor, d: int, max: nat)
    requires InStep(w, e, d, max) && w.r.Taking?
    ensures var v, p, i := ReadStep(w, max), Pending(w, e), |w.r.text|;
            && i < |p[0]| && v == World(w.u.(rx := Remove(w.u.rx)), v.r, w.out) && Ok(v)
            && v.r == (if i == |p[0]| - 1 then Counting(Message(p[0])) else Taking(p[0][..i + 1], p[0][i]))
            && Streams(p[0][..i + 1], Contents(v.u.rx), p, e.current)
  {
    var q, p := Contents(w.u.rx), Pending(w, e);
    NextOfLine(w.r.text, q, p, e.current);
    EmptyIff(w.u.rx);
    RemoveTakesHead(w.u.rx);
    assert q[1..] == Contents(Remove(w.u.rx));
    EndOfLine(p[0], |w.r.text|);
  }

  lemma {:induction false} TakeKeeps(w: World, e: Editor, d: int, max: nat)
    requires InStep(w, e, d, max) && w.r.Taking?
    ensures InStep(ReadStep(w, max), e, d, max)
  {
    TakeFields(w, e, d, max);
    TakenInStep(w, e, d, max, ReadStep(w, max));
  }

  lemma TakenInStep(w: World, e: Editor, d: int, max: nat, v: World)
    requires InStep(w, e, d, max) && w.r.Taking? && |w.r.text| < |Pending(w, e)[0]|
    requires v == World(w.u.(rx := Remove(w.u.rx)), v.r, w.out) && Ok(v)
    requires var p, i := Pending(w, e), |w.r.text|;
             && v.r == (if i == |p[0]| - 1 then Counting(Message(p[0])) else Taking(p[0][..i + 1], p[0][i]))
             && Streams(p[0][..i + 1], Contents(v.u.rx), p, e.current)
    ensures InStep(v, e, d, max)
  {
    assert Pending(v, e) == Pending(w, e);
    var line := Pending(w, e)[0];
    assert line[..|line|] == line;
  }

  lemma {:induction false} StoreKeeps(w: World, e: Editor, d: int, max: nat)
    requires InStep(w, e, d, max) && w.r.Storing?
    ensures InStep(ReadStep(w, max), e, d + Drift(w, Read), max)
  {
    var v, p := ReadStep(w, max), Pending(w, e);
    SameContents(w.u.rx, v.u.rx);
    assert Pending(v, e) == p[1..];
    assert p[0] == e.lines[|w.out|];
    assert p[0] + Contents(w.u.rx) == p[0] + (Join(p[1..]) + e.current);
    Cancel(p[0], Contents(w.u.rx), Join(p[1..]) + e.current);
    assert [] + Contents(v.u.rx) == Contents(v.u.rx);
  }

  lemma Cancel<T>(a: seq<T>, b: seq<T>, c: seq<T>)
    requires a + b == a + c
    ensures b == c
  {
    assert (a + b)[|a|..] == b && (a + c)[|a|..] == c;
  }

  lemma {:induction false} ReadKeeps(w: World, e: Editor, d: int, max: nat)
    requires InStep(w, e, d, max)
    ensures InStep(ReadStep(w, max), e, d + Drift(w, Read), max)
  {
    match w.r
    case Waiting => if w.u.rx.messages > 0 { StartKeeps(w, e, d, max); }
    case Taking(_, _) => TakeKeeps(w, e, d, max);
    case Counting(_) =>
    case Storing(_, _) => StoreKeeps(w, e, d, max);
  }

  lemma {:induction false} EventKeeps(w: World, e: Editor, d: int, max: nat, event: Event)
    requires InStep(w, e, d, max)
    requires event.Interrupt? && event.rxne.Char? ==> Accepted(w.u, event.rxne.x)
    ensures var f := if event.Interrupt? && event.rxne.Char? then Typed(e, event.rxne.x) else e;
            InStep(Next(w, event, max), f, d + Drift(w, event), max)
  {
    match event
    case Read => ReadKeeps(w, e, d, max);
    case Interrupt(rxne, txe) =>
      var f := if rxne.Char? then Typed(e, rxne.x) else e;
      var v := if rxne.Char? then w.(u := Receive(w.u, rxne.x)) else w;
      if rxne.Char? { TypeKeeps(w, e, d, max, rxne.x); }
      SentKeeps(v, f, d + Drift(w, event), max, Irq(w.u, rxne, txe).0);
  }

  // ---- every run -----------------------------------------------------------------------

  lemma {:induction false} InStepAlways(w: World, events: seq<Event>, max: nat)
    requires Fresh(w) && max >= |w.u.rx.cells| && NothingLost(w, events, max)
    ensures InStep(Play(w, events, max), Edited(Text(events)), Drifts(w, events, max), max)
  {
    if events == [] {
      assert Pending(w, BLANK) == [] && Join([]) + [] == [] + Contents(w.u.rx);
    } else {
      var n := |events| - 1;
      InStepAlways(w, events[..n], max);
      var v, text := Play(w, events[..n], max), Text(events[..n]);
      EventKeeps(v, Edited(text), Drifts(w, events[..n], max), max, events[n]);
      if events[n].Interrupt? && events[n].rxne.Char? {
        assert (text + [events[n].rxne.x])[..|text|] == text;
      } else {
        assert text + [] == text;
      }
    }
  }

  /**
   Round trip: in every interleaving of typing, sending and the reader's steps, the messages
   returned are the first of the edited lines; what the reader holds and what is queued are the
   others; and message_available is their number plus the drift, which is never positive.
   */
  lemma {:induction false} LinesComeBackEdited(w: World, events: seq<Event>, max: nat)
    requires Fresh(w) && max >= |w.u.rx.cells| && NothingLost(w, events, max)
    ensures var v, e, d := Play(w, events, max), Edited(Text(events)), Drifts(w, events, max);
            && |v.out| <= |e.lines| && (forall i :: 0 <= i < |v.out| ==> v.out[i] == Message(e.lines[i]))
            && Lead(v.r, Pending(v, e)) + Contents(v.u.rx) == Join(Pending(v, e)) + e.current
            && v.u.rx.messages == |e.lines| - |v.out| + d && d <= 0
  {
    InStepAlways(w, events, max);
  }

  // ---- an undisturbed fetch --------------------------------------------------------------

  lemma {:induction false} TakenLine(line: seq<byte>, rest: seq<byte>, i: nat, prev: byte, max: nat)
    requires IsLine(line) && i < |line| <= max && !Ends(prev)
    ensures Taken(line + rest, i, prev, max) == (|line|, true)
    decreases |line| - i
  {
    var n := |line| - 1;
    assert (line + rest)[i] == line[i];
    if i < n {
      assert line[..n][i] == line[i];
      TakenLine(line, rest, i + 1, line[i], max);
    }
  }

  lemma {:induction false} LineFetched(b: Buf, line: seq<byte>, rest: seq<byte>, max: nat)
    requires Valid(b) && b.messages > 0 && IsLine(line) && |line| <= max && Contents(b) == line + rest
    ensures var (c, text, found) := Fetched(b, max);
            found && text == Message(line) && Contents(c) == rest
  {
    var n := |line|;
    TakenLine(line, rest, 0, NUL, max);
    assert (line + rest)[..n - 1] == line[..n - 1] && (line + rest)[n..] == rest;
    DropMany(b, n);
    SameContents(Drop(b, n), Drop(b, n).(messages := b.messages - 1));
  }

  /** While the count is not zero, the next call returns exactly the oldest line; else none does. */
  lemma {:induction false} FetchTakesLine(w: World, e: Editor, d: int, max: nat)
    requires InStep(w, e, d, max) && w.r == Waiting
    ensures var (b, text, found) := Fetched(w.u.rx, max);
            && (found <==> |Pending(w, e)| + d > 0)
            && (found ==> Pending(w, e) != [] && text == Message(Pending(w, e)[0])
                          && Contents(b) == Join(Pending(w, e)[1..]) + e.current)
  {
    var b, p := w.u.rx, Pending(w, e);
    if b.messages > 0 {
      assert IsLine(p[0]) by { assert p[0] == e.lines[|w.out|]; }
      FirstFits(w, e, d, max);
      var rest := Join(p[1..]) + e.current;
      assert Contents(b) == [] + Contents(b) == p[0] + rest;
      LineFetched(b, p[0], rest, max);
    }
  }

  /** And the steps of such a call, undisturbed, add that line to what has come back. */
  lemma {:induction false} CallReturnsLine(w: World, e: Editor, d: int, max: nat)
    requires InStep(w, e, d, max) && w.r == Waiting
    ensures var v := Reads(w, CallLength(w.u.rx, max), max);
            v.r == Waiting && v.out == w.out + if |Pending(w, e)| + d > 0 then [Message(Pending(w, e)[0])] else []
  {
    FetchTakesLine(w, e, d, max);
    ReadsAreFetch(w, max);
  }
}
