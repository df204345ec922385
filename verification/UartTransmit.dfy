/**
 The blocking writer against the interrupt handler, step by step: `_write` has its own program
 counter, and between any two of its steps characters may arrive and be sent. No wake-up is lost
 and every byte that was queued is sent, in order.
 */
module UartTransmit {
  import opened Counters
  import opened Sequences
  import opened Words
  import opened PcBuffer
  import opened Usart

  /**
   Where `_write` is: about to test for room, about to enable the transmitter because there is
   none, waiting for room, about to add, about to enable after the last byte, waiting for the end.
   */
  datatype Pc = Idle | Check | EnableRoom | WaitRoom | Adding | Enabling | WaitEmpty

  /** `unannounced`: a byte has been added since the transmitter was last enabled by the writer. */
  datatype Writer = Writer(pc: Pc, rest: seq<byte>, unannounced: bool)

  /** `added`: everything that was ever put into the transmit queue. */
  datatype World = World(u: Uart, w: Writer, sent: seq<byte>, added: seq<byte>)

  datatype Step = Call(data: seq<byte>) | Write | Interrupt(rxne: Received, txe: bool)

  predicate Ready(v: World) {
    Sized(v.u.rx) && Sized(v.u.tx)
  }

  /** One step of `_write` */
  function Written(v: World): World
    requires Ready(v)
  {
    match v.w.pc
    case Idle => v
    case Check =>
      v.(w := v.w.(pc := if v.w.rest == [] then Enabling else if Full(v.u.tx) then EnableRoom else Adding))
    case EnableRoom => v.(u := v.u.(txeie := true), w := v.w.(pc := WaitRoom, unannounced := false))
    case WaitRoom => if Full(v.u.tx) then v else v.(w := v.w.(pc := Adding))
    case Adding =>
      if v.w.rest == [] then v
      else
        var x := v.w.rest[0];
        v.(u := v.u.(tx := Add(v.u.tx, x)), w := Writer(Check, v.w.rest[1..], true), added := v.added + [x])
    case Enabling => v.(u := v.u.(txeie := true), w := v.w.(pc := WaitEmpty, unannounced := false))
    case WaitEmpty => if Empty(v.u.tx) then v.(w := v.w.(pc := Idle)) else v
  }

  function Room(b: Buf): nat
    requires Valid(b)
  {
    |b.cells| - Count(b)
  }

  /**
   What a received character makes the handler add to the transmit queue, room permitting: a rubout
   (8 or 127) itself, a space and itself again; a CR (13) itself and an LF; nothing for ESC, `[` and
   what follows them.
   */
  function EchoOf(u: Uart, x: byte): seq<byte>
    requires Sized(u.rx) && Valid(u.tx)
  {
    if x == 8 || x == 127 then
      if Empty(u.rx) then [] else [x, 32, x][..if Room(u.tx) < 3 then Room(u.tx) else 3]
    else if x == 27 || x == 91 || u.k.curr == 91 || u.k.prev == 27 || Room(u.tx) == 0 then []
    else if x == 13 then [13, 10]
    else [x]
  }

  /** The echo fits, and leaves room for the byte whose room the writer has already checked. */
  predicate EchoFits(v: World, x: byte)
    requires Sized(v.u.rx) && Valid(v.u.tx)
  {
    |EchoOf(v.u, x)| + (if v.w.pc == Adding then 1 else 0) <= Room(v.u.tx)
  }

  /** The handler runs if something was received, or if the transmitter is ready and enabled. */
  predicate Fires(v: World, rxne: Received, txe: bool) {
    rxne.Char? || (txe && v.u.txeie)
  }

  function Interrupted(v: World, rxne: Received, txe: bool): World
    requires Ready(v) && Valid(v.u.tx)
  {
    if !Fires(v, rxne, txe) then v
    else
      var (u, out) := Irq(v.u, rxne, txe);
      v.(u := u, sent := v.sent + out, added := v.added + if rxne.Char? then EchoOf(v.u, rxne.x) else [])
  }

  function Next(v: World, s: Step): World
    requires Ready(v) && Valid(v.u.tx)
  {
    match s
    case Call(data) => if v.w.pc == Idle then v.(w := Writer(Check, data, false)) else v
    case Write => Written(v)
    case Interrupt(rxne, txe) => Interrupted(v, rxne, txe)
  }

  // ---- the invariant -------------------------------------------------------------------

  predicate WriterOk(w: Writer, full: bool) {
    && (w.pc == Adding ==> !full)
    && (w.pc in {EnableRoom, WaitRoom, Adding} ==> w.rest != [])
    && (w.pc in {Enabling, WaitEmpty, Idle} ==> w.rest == [])
    && (w.unannounced ==> w.pc in {Check, EnableRoom, Adding, Enabling})
  }

  /** Queued bytes are sent by the interrupt that is enabled, or will be by the writer. */
  predicate NoLostWakeup(v: World)
    requires Sized(v.u.tx)
  {
    !Empty(v.u.tx) && !v.u.txeie ==> v.w.unannounced
  }

  predicate Inv(v: World) {
    && Ready(v) && Valid(v.u.tx) && Aligned(|v.u.tx.cells|) && |v.u.tx.cells| >= 3
    && WriterOk(v.w, Full(v.u.tx)) && NoLostWakeup(v)
    && v.sent + Contents(v.u.tx) == v.added
  }

  /** Adding to the queue, once or several times. */
  function AddAll(b: Buf, xs: seq<byte>): (c: Buf)
    requires Sized(b)
    ensures |c.cells| == |b.cells|
  {
    if xs == [] then b else Add(AddAll(b, xs[..|xs| - 1]), xs[|xs| - 1])
  }

  lemma {:induction false} AddAllAppends(b: Buf, xs: seq<byte>)
    requires Valid(b) && Aligned(|b.cells|) && |xs| <= Room(b)
    ensures Valid(AddAll(b, xs)) && Contents(AddAll(b, xs)) == Contents(b) + xs
  {
    if xs == [] {
      assert Contents(b) + xs == Contents(b);
    } else {
      var front, c := xs[..|xs| - 1], AddAll(b, xs[..|xs| - 1]);
      AddAllAppends(b, front);
      AddAppends(c, xs[|xs| - 1]);
      Assoc(Contents(b), front, [xs[|xs| - 1]]);
      assert xs == front + [xs[|xs| - 1]];
    }
  }

  lemma AddAllFew(b: Buf, x: byte, y: byte, z: byte)
    requires Sized(b)
    ensures AddAll(b, []) == b && AddAll(b, [x]) == Add(b, x) && AddAll(b, [x, y]) == Add(Add(b, x), y)
    ensures AddAll(b, [x, y, z]) == Add(Add(Add(b, x), y), z)
  {
    assert [x, y, z][..2] == [x, y] && [x, y][..1] == [x] && [x][..0] == [];
  }

  lemma FullAfter(b: Buf, x: byte)
    requires Valid(b)
    ensures Full(b) <==> Room(b) == 0
    ensures !Full(b) ==> Valid(Add(b, x)) && Room(Add(b, x)) == Room(b) - 1
  {
    if !Full(b) { CountAfter(b, x); }
  }

  /** Rubbing out adds as much of its three characters as fits, and enables the transmitter only after all three. */
  lemma RuboutEcho(u: Uart, x: byte)
    requires Valid(u.tx)
    ensures var v := EchoRubout(u, x);
            && v.tx == AddAll(u.tx, [x, SPACE, x][..if Room(u.tx) < 3 then Room(u.tx) else 3])
            && v.txeie == (u.txeie || Room(u.tx) >= 3)
  {
    var b := u.tx;
    AddAllFew(b, x, SPACE, x);
    FullAfter(b, x);
    assert [x, SPACE, x][..1] == [x] && [x, SPACE, x][..2] == [x, SPACE] && [x, SPACE, x][..3] == [x, SPACE, x];
    if Room(b) > 0 {
      FullAfter(Add(b, x), SPACE);
      if Room(b) > 1 {
        FullAfter(Add(Add(b, x), SPACE), x);
      }
    }
  }

  /** The handler's echo, and whether the transmitter is enabled after it. */
  lemma EchoAdds(u: Uart, x: byte)
    requires Sized(u.rx) && Valid(u.tx)
    ensures var v := Receive(u, x);
            && v.tx == AddAll(u.tx, EchoOf(u, x))
            && (v.txeie <==> u.txeie || (EchoOf(u, x) != [] && (x in {8, 127} ==> Room(u.tx) >= 3)))
  {
    AddAllFew(u.tx, x, LF, x);
    FullAfter(u.tx, x);
    EmptyIff(u.tx);
    var v := u.(k := Shifted(u.k, x));
    RuboutEcho(v.(rx := Retract(u.rx)), x);
  }

  lemma {:induction false} WriteKeeps(v: World)
    requires Inv(v)
    ensures Inv(Written(v))
  {
    if v.w.pc == Adding {
      AddAppends(v.u.tx, v.w.rest[0]);
      Assoc(v.sent, Contents(v.u.tx), [v.w.rest[0]]);
    }
  }

  lemma {:induction false} ReceiveKeeps(v: World, x: byte)
    requires Inv(v) && EchoFits(v, x)
    ensures Inv(v.(u := Receive(v.u, x), added := v.added + EchoOf(v.u, x)))
  {
    var e := EchoOf(v.u, x);
    EchoAdds(v.u, x);
    AddAllAppends(v.u.tx, e);
    Assoc(v.sent, Contents(v.u.tx), e);
    EmptyIff(v.u.tx);
    EmptyIff(AddAll(v.u.tx, e));
  }

  lemma {:induction false} ServeKeeps(v: World)
    requires Inv(v)
    ensures Inv(v.(u := Serve(v.u).0, sent := v.sent + Serve(v.u).1))
  {
    var b := v.u.tx;
    EmptyIff(b);
    if Empty(b) {
      assert v.sent + [] == v.sent;
    } else {
      RemoveTakesHead(b);
      Assoc(v.sent, [Head(b)], Contents(Remove(b)));
      CountAfter(b, 0);
    }
  }

  predicate Fits(v: World, s: Step)
    requires Sized(v.u.rx) && Valid(v.u.tx)
  {
    s.Interrupt? && s.rxne.Char? ==> EchoFits(v, s.rxne.x)
  }

  lemma {:induction false} InvStep(v: World, s: Step)
    requires Inv(v) && Fits(v, s)
    ensures Inv(Next(v, s))
  {
    match s
    case Call(data) =>
    case Write => WriteKeeps(v);
    case Interrupt(rxne, txe) =>
      if Fires(v, rxne, txe) {
        var e := if rxne.Char? then EchoOf(v.u, rxne.x) else [];
        var a := v.(u := if rxne.Char? then Receive(v.u, rxne.x) else v.u, added := v.added + e);
        if rxne.Char? { ReceiveKeeps(v, rxne.x); } else { assert v.added + e == v.added; }
        if txe { ServeKeeps(a); } else { assert a.sent + [] == a.sent; }
      }
  }

  // ---- every run -----------------------------------------------------------------------

  /** The states that a run goes through; every echo fits. (The queue stays valid, see InvAlways.) */
  predicate Follows(trace: seq<World>, steps: seq<Step>, i: nat)
    requires i < |steps| && i + 1 < |trace|
  {
    Ready(trace[i]) && Valid(trace[i].u.tx) ==> Fits(trace[i], steps[i]) && trace[i + 1] == Next(trace[i], steps[i])
  }

  predicate IsRun(trace: seq<World>, steps: seq<Step>) {
    && |trace| == |steps| + 1 && Fresh(trace[0])
    && forall i :: 0 <= i < |steps| ==> Follows(trace, steps, i)
  }

  predicate Fresh(v: World) {
    && Ready(v) && Valid(v.u.tx) && Aligned(|v.u.tx.cells|) && |v.u.tx.cells| >= 3 && Contents(v.u.tx) == []
    && v.w == Writer(Idle, [], false) && v.sent == v.added == []
  }

  lemma {:induction false} InvAlways(trace: seq<World>, steps: seq<Step>, i: nat)
    requires IsRun(trace, steps) && i < |trace|
    ensures Inv(trace[i])
  {
    if i == 0 {
      EmptyIff(trace[0].u.tx);
    } else {
      InvAlways(trace, steps, i - 1);
      assert Follows(trace, steps, i - 1);
      InvStep(trace[i - 1], steps[i - 1]);
    }
  }

  /**
   At every moment of every run: bytes that wait with the transmit interrupt disabled wait for a
   writer between an add and its next enable, never for one that waits itself; and what was sent
   and what is queued are what was added.
   */
  lemma {:induction false} NothingIsStranded(trace: seq<World>, steps: seq<Step>, i: nat)
    requires IsRun(trace, steps) && i < |trace|
    ensures var v := trace[i];
            && Sized(v.u.tx) && v.sent + Contents(v.u.tx) == v.added
            && (Contents(v.u.tx) != [] && !v.u.txeie ==>
                  v.w.unannounced && v.w.pc in {Check, EnableRoom, Adding, Enabling})
  {
    InvAlways(trace, steps, i);
    EmptyIff(trace[i].u.tx);
  }

  /** When `_write` returns, all that was ever added has been sent. */
  lemma {:induction false} ReturnMeansSent(trace: seq<World>, steps: seq<Step>, i: nat)
    requires IsRun(trace, steps) && i < |steps| && trace[i].w.pc == WaitEmpty && trace[i + 1].w.pc == Idle
    ensures trace[i + 1].sent == trace[i + 1].added
  {
    InvAlways(trace, steps, i);
    assert Follows(trace, steps, i);
    var v := trace[i];
    assert steps[i] == Write;
    EmptyIff(v.u.tx);
    assert v.sent + [] == v.sent;
  }

  // ---- progress ------------------------------------------------------------------------

  function Weight(pc: Pc): nat {
    match pc
    case Idle => 0
    case Check => 6
    case EnableRoom => 5
    case WaitRoom => 3
    case Adding => 2
    case Enabling => 3
    case WaitEmpty => 1
  }

  /** What is left to do: mostly the bytes not yet added and the bytes queued. */
  function Measure(v: World): nat
    requires Sized(v.u.tx)
  {
    8 * |v.w.rest| + 2 * Count(v.u.tx) + Weight(v.w.pc) + if v.u.txeie then 1 else 0
  }

  /** Nothing is received and nobody calls. */
  predicate Quiet(s: Step) {
    s == Write || s == Interrupt(Nothing, true)
  }

  /** Without reception every step that changes anything brings the end nearer. */
  lemma {:induction false} EveryStepCounts(v: World, s: Step)
    requires Inv(v) && Quiet(s) && Next(v, s) != v
    ensures Measure(Next(v, s)) < Measure(v)
  {
    if s == Write {
      if v.w.pc == Adding { CountAfter(v.u.tx, v.w.rest[0]); }
    } else {
      assert v.added + [] == v.added;
      if Empty(v.u.tx) {
        assert v.sent + [] == v.sent;
      } else {
        CountAfter(v.u.tx, 0);
      }
    }
  }

  /** Neither wait loop waits in vain: the writer can go on, or the interrupt that it needs is enabled. */
  lemma NeverStuck(v: World)
    requires Inv(v) && v.w.pc != Idle
    ensures Written(v) != v || (v.u.txeie && Next(v, Interrupt(Nothing, true)) != v)
  {
    if v.w.pc == Adding {
      assert Written(v).w.pc == Check;
    }
    if v.w.pc in {WaitRoom, WaitEmpty} && !Empty(v.u.tx) {
      assert v.u.txeie;
      CountAfter(v.u.tx, 0);
      assert Count(Next(v, Interrupt(Nothing, true)).u.tx) == Count(v.u.tx) - 1;
    }
  }

  predicate Effective(trace: seq<World>, steps: seq<Step>, i: nat)
    requires i < |steps| && i + 1 < |trace|
  {
    && Inv(trace[i]) && Quiet(steps[i])
    && trace[i + 1] == Next(trace[i], steps[i]) && trace[i + 1] != trace[i]
  }

  /** However writer and interrupt take turns, they come to rest, and then the call has returned. */
  lemma {:induction false} WriteEnds(trace: seq<World>, steps: seq<Step>, i: nat)
    requires |trace| == |steps| + 1 && Inv(trace[0]) && i < |trace|
    requires forall j :: 0 <= j < |steps| ==> Effective(trace, steps, j)
    ensures Inv(trace[i]) && i + Measure(trace[i]) <= Measure(trace[0])
    ensures Written(trace[i]) == trace[i] && Next(trace[i], Interrupt(Nothing, true)) == trace[i]
            ==> trace[i].w.pc == Idle && !trace[i].u.txeie && Empty(trace[i].u.tx)
  {
    if i > 0 {
      WriteEnds(trace, steps, i - 1);
      assert Effective(trace, steps, i - 1);
      InvStep(trace[i - 1], steps[i - 1]);
      EveryStepCounts(trace[i - 1], steps[i - 1]);
    }
    if trace[i].w.pc != Idle {
      NeverStuck(trace[i]);
    }
  }

  // ---- what is sent --------------------------------------------------------------------

  predicate Goes(trace: seq<World>, steps: seq<Step>, i: nat)
    requires i < |steps| && i + 1 < |trace|
  {
    && Inv(trace[i]) && (steps[i] == Write || (steps[i].Interrupt? && steps[i].rxne == Nothing))
    && trace[i + 1] == Next(trace[i], steps[i])
  }

  lemma {:induction false} StillToAdd(v: World, s: Step)
    requires Inv(v) && (s == Write || (s.Interrupt? && s.rxne == Nothing))
    ensures var u := Next(v, s);
            && u.added + u.w.rest == v.added + v.w.rest
            && ((v.w.pc == Idle ==> Empty(v.u.tx)) ==> (u.w.pc == Idle ==> Empty(u.u.tx)))
  {
    if s == Write {
      if v.w.pc == Adding {
        Assoc(v.added, [v.w.rest[0]], v.w.rest[1..]);
        assert v.w.rest == [v.w.rest[0]] + v.w.rest[1..];
      }
    } else {
      assert v.added + [] == v.added;
    }
  }

  /**
   However writer and interrupt take turns, what a call has added is a beginning of its data and it
   still holds the rest; when it has returned, all that was added before and then all of the data has
   been sent, in order.
   */
  lemma {:induction false} WriteSendsData(v: World, data: seq<byte>, trace: seq<World>, steps: seq<Step>, i: nat)
    requires Inv(v) && v.w.pc == Idle && |trace| == |steps| + 1 && trace[0] == Next(v, Call(data)) && i < |trace|
    requires forall j :: 0 <= j < |steps| ==> Goes(trace, steps, j)
    ensures var u := trace[i];
            && Inv(u) && u.added + u.w.rest == v.added + data
            && (u.w.pc == Idle ==> Empty(u.u.tx) && u.sent == v.added + data)
  {
    if i > 0 {
      WriteSendsData(v, data, trace, steps, i - 1);
      assert Goes(trace, steps, i - 1);
      InvStep(trace[i - 1], steps[i - 1]);
      StillToAdd(trace[i - 1], steps[i - 1]);
    }
    if trace[i].w.pc == Idle { Emptied(trace[i]); }
  }

  lemma Emptied(u: World)
    requires Inv(u) && u.w.pc == Idle && Empty(u.u.tx)
    ensures u.sent == u.added + u.w.rest
  {
    EmptyIff(u.u.tx);
    assert u.sent + [] == u.sent && u.added + [] == u.added;
  }

  // ---- the exact condition -------------------------------------------------------------

  /**
   The echo of a rubout, with the transmitter disabled, enables it iff all three of its characters
   fit: otherwise they wait, even on an idle console, until something else enables the transmitter.
   */
  lemma RuboutWaitsIff(u: Uart, x: byte)
    requires Sized(u.rx) && Valid(u.tx) && Aligned(|u.tx.cells|) && Rubout(x)
    requires !Empty(u.rx) && !u.txeie
    ensures var v := Receive(u, x);
            && Contents(v.tx) == Contents(u.tx) + EchoOf(u, x)
            && (!v.txeie <==> Room(u.tx) < 3)
            && (Empty(u.tx) ==> Contents(v.tx) != [] && (!v.txeie <==> |u.tx.cells| < 3))
  {
    var e := EchoOf(u, x);
    EmptyIff(u.tx);
    EchoAdds(u, x);
    AddAllAppends(u.tx, e);
    RuboutEcho(u.(k := Shifted(u.k, x), rx := Retract(u.rx)), x);
    if Empty(u.tx) {
      assert Room(u.tx) == |u.tx.cells|;
      assert |e| > 0;
    }
  }
}
