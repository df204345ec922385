/**
 Frames and the segments that carry them through a ring of buffers, in either direction.
 */
module EthFrames {
  import opened Sequences
  import opened Words

  /** The size of every buffer of both rings, ETH_TX_BUF_SIZE and ETH_RX_BUF_SIZE. */
  const ETH_MAX_PACKET_SIZE: nat := 1524

  type Frame = seq<byte>

  /** What travels through one descriptor. */
  datatype Segment = Segment(fs: bool, ls: bool, data: seq<byte>)

  function Cut(frame: Frame, first: bool): seq<Segment>
    decreases |frame|
  {
    if |frame| <= ETH_MAX_PACKET_SIZE then [Segment(first, true, frame)]
    else [Segment(first, false, frame[..ETH_MAX_PACKET_SIZE])] + Cut(frame[ETH_MAX_PACKET_SIZE..], false)
  }

  function Segments(frames: seq<Frame>): seq<Segment> {
    if frames == [] then [] else Segments(frames[..|frames| - 1]) + Cut(frames[|frames| - 1], true)
  }

  /** The receiving side: complete frames so far, and the data of the frame in progress. */
  datatype Received = Received(frames: seq<Frame>, partial: seq<byte>)

  function Put(r: Received, s: Segment): Received {
    var data := if s.fs then s.data else r.partial + s.data;
    if s.ls then Received(r.frames + [data], []) else Received(r.frames, data)
  }

  function Receive(wire: seq<Segment>): Received {
    if wire == [] then Received([], [])
    else Put(Receive(wire[..|wire| - 1]), wire[|wire| - 1])
  }

  lemma ReceiveOne(wire: seq<Segment>, s: Segment)
    ensures Receive(wire + [s]) == Put(Receive(wire), s)
  {
    assert (wire + [s])[..|wire|] == wire;
  }

  lemma PutFirst(r: Received, s: Segment)
    requires s.fs ==> r.partial == []
    ensures Put(r, s) == if s.ls then Received(r.frames + [r.partial + s.data], [])
                         else Received(r.frames, r.partial + s.data)
  {
    assert [] + s.data == s.data;
  }

  lemma {:induction false} ReceiveMore(wire: seq<Segment>, frame: Frame, first: bool)
    requires first ==> Receive(wire).partial == []
    ensures Receive(wire + Cut(frame, first)) == Whole(Receive(wire), frame)
    decreases |frame|
  {
    var r := Receive(wire);
    if |frame| <= ETH_MAX_PACKET_SIZE {
      ReceiveOne(wire, Segment(first, true, frame));
      PutFirst(r, Segment(first, true, frame));
    } else {
      var rest := frame[ETH_MAX_PACKET_SIZE..];
      var s := Segment(first, false, frame[..ETH_MAX_PACKET_SIZE]);
      ReceiveOne(wire, s);
      PutFirst(r, s);
      ReceiveMore(wire + [s], rest, false);
      assert Cut(frame, first) == [s] + Cut(rest, false);
      Assoc(wire, [s], Cut(rest, false));
      Assoc(r.partial, s.data, rest);
      assert s.data + rest == frame;
    }
  }

  function Whole(r: Received, frame: Frame): Received {
    Received(r.frames + [r.partial + frame], [])
  }

  /** Round trip: cutting frames into segments loses nothing, wherever one frame ends. */
  lemma {:induction false} RoundTrip(frames: seq<Frame>)
    ensures Receive(Segments(frames)) == Received(frames, [])
  {
    if frames != [] {
      var n := |frames| - 1;
      RoundTrip(frames[..n]);
      ReceiveMore(Segments(frames[..n]), frames[n], true);
      assert [] + frames[n] == frames[n];
      assert frames == frames[..n] + [frames[n]];
    }
  }

  lemma {:induction false} ReceivePrefix(wire: seq<Segment>, more: seq<Segment>)
    ensures Receive(wire).frames <= Receive(wire + more).frames
    decreases |more|
  {
    if more == [] {
      assert wire + more == wire;
    } else {
      var n := |more| - 1;
      ReceivePrefix(wire, more[..n]);
      assert (wire + more)[..|wire + more| - 1] == wire + more[..n];
    }
  }

  /** FS is on the first segment only, LS on the last only, and all but the last are full. */
  lemma {:induction false} CutShape(frame: Frame, first: bool, i: nat)
    requires i < |Cut(frame, first)|
    ensures var c := Cut(frame, first);
            && (c[i].fs <==> first && i == 0) && (c[i].ls <==> i == |c| - 1)
            && |c[i].data| <= ETH_MAX_PACKET_SIZE && (!c[i].ls ==> |c[i].data| == ETH_MAX_PACKET_SIZE)
    decreases |frame|
  {
    if |frame| > ETH_MAX_PACKET_SIZE && i > 0 {
      CutShape(frame[ETH_MAX_PACKET_SIZE..], false, i - 1);
    }
  }

  /** memcpy of one chunk to the start of a buffer */
  function Overlay(buf: seq<byte>, c: seq<byte>): (r: seq<byte>)
    requires |c| <= |buf|
    ensures |r| == |buf| && r[..|c|] == c
  {
    c + buf[|c|..]
  }

  predicate StoredAt(buf: seq<byte>, c: seq<byte>) {
    |c| <= |buf| && buf[..|c|] == c
  }
}
