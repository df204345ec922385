/**
 The console's interrupt handler: it queues what is typed, edits the queue on backspace, echoes,
 and sends what is queued for transmission; and the blocking writer that feeds it.
 */
module Usart {
  import opened Counters
  import opened Words
  import opened PcBuffer
  import opened Sequences

  const BACKSPACE: byte := 0x08
  const DELETE: byte := 0x7F
  const ESC: byte := 0x1B
  const BRACKET: byte := 0x5B
  const SPACE: byte := 0x20
  const UP: byte := 0x41
  const DOWN: byte := 0x42

  /** The last three characters received, and the flags for the arrow keys. */
  datatype Keys = Keys(prev2: byte, prev: byte, curr: byte, up: bool, down: bool)

  datatype Uart = Uart(rx: Buf, tx: Buf, k: Keys, txeie: bool)

  const NO_KEYS := Keys(NUL, NUL, NUL, false, false)

  predicate Rubout(x: byte) {
    x == BACKSPACE || x == DELETE
  }

  function Shifted(k: Keys, x: byte): Keys {
    k.(prev2 := k.prev, prev := k.curr, curr := x)
  }

  predicate Arrow(k: Keys, last: byte) {
    k.prev2 == ESC && k.prev == BRACKET && k.curr == last
  }

  /** Neither part of an escape sequence nor the start of one. */
  predicate Plain(k: Keys) {
    k.prev != BRACKET && k.prev2 != ESC && k.curr != ESC && k.curr != BRACKET
  }

  function AddIfRoom(b: Buf, x: byte): (c: Buf)
    requires Sized(b)
    ensures |c.cells| == |b.cells|
  {
    if Full(b) then b else Add(b, x)
  }

  /** Rubbing out a character on the console; only the last of the three enables the transmitter. */
  function EchoRubout(u: Uart, x: byte): (v: Uart)
    requires Sized(u.tx)
    ensures |v.tx.cells| == |u.tx.cells| && v.rx == u.rx && v.k == u.k
  {
    var t := AddIfRoom(AddIfRoom(u.tx, x), SPACE);
    if Full(t) then u.(tx := t) else u.(tx := Add(t, x), txeie := true)
  }

  /** The newline after a carriage return is added without a check. */
  function EchoChar(u: Uart, x: byte): (v: Uart)
    requires Sized(u.tx)
    ensures |v.tx.cells| == |u.tx.cells| && v.rx == u.rx && v.k == u.k
  {
    if Full(u.tx) then u
    else
      var t := Add(u.tx, x);
      u.(tx := if x == CR then Add(t, LF) else t, txeie := true)
  }

  /** A terminator counts as a message even if it does not fit. */
  function Stored(b: Buf, k: Keys): (c: Buf)
    requires Sized(b)
    ensures |c.cells| == |b.cells|
  {
    var c := if NewlineGuard(k.curr, k.prev) then b.(messages := Wrap16(b.messages + 1)) else b;
    AddIfRoom(c, k.curr)
  }

  /** A received character */
  function Receive(u: Uart, x: byte): (v: Uart)
    requires Sized(u.rx) && Sized(u.tx)
    ensures |v.rx.cells| == |u.rx.cells| && |v.tx.cells| == |u.tx.cells| && v.k.curr == x
  {
    var v := u.(k := Shifted(u.k, x));
    if Rubout(x) then if Empty(u.rx) then v else EchoRubout(v.(rx := Retract(u.rx)), x)
    else if Arrow(v.k, UP) then v.(k := v.k.(up := true))
    else if Arrow(v.k, DOWN) then v.(k := v.k.(down := true))
    else if Plain(v.k) then EchoChar(v.(rx := Stored(u.rx, v.k)), x)
    else v
  }

  /** The transmitter can take a character; the second result is what it gets. */
  function Serve(u: Uart): (r: (Uart, seq<byte>))
    requires Sized(u.tx)
    ensures |r.0.tx.cells| == |u.tx.cells| && r.0.rx == u.rx && r.0.k == u.k
  {
    if Empty(u.tx) then (u.(txeie := false), [])
    else (u.(tx := Remove(u.tx)), [Head(u.tx)])
  }

  datatype Received = Nothing | Char(x: byte)

  /** USART3_IRQHandler with the two status flags it looks at */
  function Irq(u: Uart, rxne: Received, txe: bool): (r: (Uart, seq<byte>))
    requires Sized(u.rx) && Sized(u.tx)
    ensures |r.0.rx.cells| == |u.rx.cells| && |r.0.tx.cells| == |u.tx.cells|
  {
    var v := if rxne.Char? then Receive(u, rxne.x) else u;
    if txe then Serve(v) else (v, [])
  }

  class Console {
    const rx: Buffer
    const tx: Buffer
    var k: Keys
    var txeie: bool
    /** What has been handed to the transmitter. */
    var wire: seq<byte>

    ghost predicate Ok()
      reads this, rx, tx, rx.cells, tx.cells
    {
      rx != tx && rx.cells != tx.cells && Sized(rx.View()) && Sized(tx.View())
    }

    function View(): Uart
      reads this, rx, tx, rx.cells, tx.cells
    {
      Uart(rx.View(), tx.View(), k, txeie)
    }

    constructor (rxSize: Size, txSize: Size)
      ensures Ok() && fresh(rx) && fresh(tx) && fresh(rx.cells) && fresh(tx.cells)
      ensures Valid(rx.View()) && Valid(tx.View()) && Contents(rx.View()) == [] && Contents(tx.View()) == []
      ensures k == NO_KEYS && !txeie && wire == []
    {
      rx := new Buffer(rxSize);
      tx := new Buffer(txSize);
      k, txeie, wire := NO_KEYS, false, [];
    }

    method EchoBack(x: byte)
      requires Ok()
      modifies this`txeie, tx, tx.cells
      ensures Ok() && View() == EchoRubout(old(View()), x)
    {
      var full := tx.IsFull();
      if !full { tx.AddChar(x); }
      full := tx.IsFull();
      if !full { tx.AddChar(SPACE); }
      full := tx.IsFull();
      if !full {
        tx.AddChar(x);
        txeie := true;
      }
    }

    method Echo(x: byte)
      requires Ok()
      modifies this`txeie, tx, tx.cells
      ensures Ok() && View() == EchoChar(old(View()), x)
    {
      var full := tx.IsFull();
      if !full {
        tx.AddChar(x);
        if x == CR { tx.AddChar(LF); }
        txeie := true;
      }
    }

    method Store()
      requires Ok()
      modifies rx, rx.cells
      ensures Ok() && View() == old(View()).(rx := Stored(old(rx.View()), k))
    {
      if NewlineGuard(k.curr, k.prev) { rx.messages := Wrap16(rx.messages + 1); }
      var full := rx.IsFull();
      if !full { rx.AddChar(k.curr); }
    }

    method RubOut(x: byte)
      requires Ok()
      modifies this`txeie, rx, rx.cells, tx, tx.cells
      ensures Ok()
      ensures var u := old(View());
              View() == if Empty(u.rx) then u else EchoRubout(u.(rx := Retract(u.rx)), x)
    {
      var empty := rx.IsEmpty();
      if !empty {
        rx.produce := Wrap32(rx.produce - 1);
        EchoBack(x);
      }
    }

    method ReceiveChar(x: byte)
      requires Ok()
      modifies this`k, this`txeie, rx, rx.cells, tx, tx.cells
      ensures Ok() && View() == Receive(old(View()), x)
    {
      k := k.(prev2 := k.prev, prev := k.curr, curr := x);
      if x == BACKSPACE || x == DELETE {
        RubOut(x);
      } else if k.prev2 == ESC && k.prev == BRACKET && x == UP {
        k := k.(up := true);
      } else if k.prev2 == ESC && k.prev == BRACKET && x == DOWN {
        k := k.(down := true);
      } else if k.prev != BRACKET && k.prev2 != ESC && x != ESC && x != BRACKET {
        Store();
        Echo(x);
      }
    }

    method ServeTransmitter()
      requires Ok()
      modifies this`txeie, this`wire, tx
      ensures Ok() && (View(), wire) == (Serve(old(View())).0, old(wire) + Serve(old(View())).1)
    {
      var empty := tx.IsEmpty();
      if !empty {
        var x := tx.RemoveChar();
        wire := wire + [x];
      } else {
        assert wire + [] == wire;
        txeie := false;
      }
    }

    /** USART3_IRQHandler */
    method IRQHandler(rxne: Received, txe: bool)
      requires Ok()
      modifies this`k, this`txeie, this`wire, rx, rx.cells, tx, tx.cells
      ensures Ok()
      ensures var (v, sent) := Irq(old(View()), rxne, txe); View() == v && wire == old(wire) + sent
    {
      if rxne.Char? { ReceiveChar(rxne.x); }
      if txe { ServeTransmitter(); }
    }

    /** While the writer waits, its only company is the transmit interrupt that it has enabled. */
    method WaitForInterrupt()
      requires Ok() && Valid(tx.View()) && txeie && Contents(tx.View()) != []
      modifies this`k, this`txeie, this`wire, rx, rx.cells, tx, tx.cells
      ensures Ok() && Valid(tx.View()) && View() == old(View()).(tx := tx.View())
      ensures |Contents(tx.View())| == old(|Contents(tx.View())|) - 1
      ensures wire + Contents(tx.View()) == old(wire + Contents(tx.View()))
    {
      ghost var q := Contents(tx.View());
      RemoveTakesHead(tx.View());
      IRQHandler(Nothing, true);
      Assoc(old(wire), [q[0]], q[1..]);
      assert q == [q[0]] + q[1..];
    }

    method AddForWriter(x: byte)
      requires Ok() && Valid(tx.View()) && Aligned(tx.cells.Length) && |Contents(tx.View())| < tx.cells.Length
      modifies tx, tx.cells
      ensures Ok() && Valid(tx.View()) && View() == old(View()).(tx := tx.View())
      ensures Contents(tx.View()) == old(Contents(tx.View())) + [x]
    {
      AddAppends(tx.View(), x);
      tx.AddChar(x);
    }

    /** _write to the serial port, with nothing received meanwhile: all is sent before it returns. */
    method Write(data: seq<byte>)
      requires Ok() && Valid(tx.View()) && Aligned(tx.cells.Length)
      modifies this`k, this`txeie, this`wire, rx, rx.cells, tx, tx.cells
      ensures Ok() && Valid(tx.View()) && rx.View() == old(rx.View()) && k == old(k)
      ensures Contents(tx.View()) == [] && wire == old(wire + Contents(tx.View())) + data
    {
      ghost var before := wire + Contents(tx.View());
      var i := 0;
      while i < |data|
        invariant 0 <= i <= |data| && Ok() && Valid(tx.View()) && rx.View() == old(rx.View()) && k == old(k)
        invariant wire + Contents(tx.View()) == before + data[..i]
      {
        var full := tx.IsFull();
        if full {
          txeie := true;
          while full
            invariant Ok() && Valid(tx.View()) && rx.View() == old(rx.View()) && k == old(k) && txeie
            invariant wire + Contents(tx.View()) == before + data[..i]
            invariant full <==> |Contents(tx.View())| == tx.cells.Length
            decreases |Contents(tx.View())|
          {
            WaitForInterrupt();
            full := tx.IsFull();
          }
        }
        ghost var w, q := wire, Contents(tx.View());
        AddForWriter(data[i]);
        Assoc(w, q, [data[i]]);
        assert data[..i + 1] == data[..i] + [data[i]];
        Assoc(before, data[..i], [data[i]]);
        i := i + 1;
      }
      txeie := true;
      var empty := tx.IsEmpty();
      while !empty
        invariant Ok() && Valid(tx.View()) && rx.View() == old(rx.View()) && k == old(k) && txeie
        invariant wire + Contents(tx.View()) == before + data[..i]
        invariant empty <==> Contents(tx.View()) == []
        decreases |Contents(tx.View())|
      {
        WaitForInterrupt();
        empty := tx.IsEmpty();
      }
      assert data[..i] == data && wire + [] == wire;
    }
  }
}
