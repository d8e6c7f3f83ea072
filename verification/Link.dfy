/**
 * One direction of the connection: the receiver's state, the bytes on the wire, and
 * what the sender's write loop still has to get out. What matters of all three is
 * the list of frames still to be delivered.
 */
module Link {
  import opened Bytes
  import opened Message
  import opened Frames
  import opened Streams

  datatype Link = Link(rx: Rx, wire: seq<Byte>, unsent: seq<Byte>)

  const FRESH: Link := Link(Marker, [], [])

  /** All bytes between the sender's message and the receiver. */
  function Ahead(l: Link): seq<Byte> {
    l.wire + l.unsent
  }

  /** The frames the receiver will deliver when all of them have arrived. */
  function InFlight(l: Link): seq<Frame> {
    Run(l.rx, Ahead(l)).1
  }

  /** They end with a frame, and no frame among them is longer than a message can be. */
  ghost predicate Clean(l: Link) {
    Run(l.rx, Ahead(l)).0 == Marker && Room(l.rx, Ahead(l))
  }

  /** A payload that can be sent: not empty, and within the message limit. */
  predicate Sendable(f: Frame) {
    0 < |f.payload| <= MSG_LIMIT
  }

  /** The sender starts to write a frame. */
  function Send(l: Link, f: Frame): Link {
    l.(unsent := l.unsent + Encode(f))
  }

  /** One write of the sender gets `k` bytes onto the wire. */
  function Push(l: Link, k: nat): Link
    requires k <= |l.unsent|
  {
    l.(wire := l.wire + l.unsent[..k], unsent := l.unsent[k..])
  }

  /** The receiver reads the first `n` bytes of the wire. */
  function Recv(l: Link, n: nat): (Link, seq<Frame>)
    requires n <= |l.wire|
  {
    var (rx, out) := Run(l.rx, l.wire[..n]);
    (Link(rx, l.wire[n..], l.unsent), out)
  }

  lemma FreshLink()
    ensures Clean(FRESH) && InFlight(FRESH) == []
  {
  }

  /** Sending puts one frame at the end of the queue, wherever the receiver is in the stream. */
  lemma SendQueues(l: Link, f: Frame)
    requires Clean(l) && Sendable(f)
    ensures Clean(Send(l, f)) && InFlight(Send(l, f)) == InFlight(l) + [f]
  {
    hide Encode, Step;
    assert Ahead(Send(l, f)) == Ahead(l) + Encode(f);
    RunAppend(l.rx, Ahead(l), Encode(f));
    RoomAppend(l.rx, Ahead(l), Encode(f));
    RoomEncoded(f);
    RunEncoded(f, []);
    assert Encode(f) + [] == Encode(f) && [f] + [] == [f];
    assert Run(Marker, []) == (Marker, []);
  }

  /** A write of any length changes nothing of the queue. */
  lemma PushKeepsQueue(l: Link, k: nat)
    requires k <= |l.unsent|
    ensures Ahead(Push(l, k)) == Ahead(l)
    ensures InFlight(Push(l, k)) == InFlight(l) && (Clean(l) ==> Clean(Push(l, k)))
  {
  }

  /** Receiving any number of bytes takes a front part of the queue, and stays within the buffer. */
  lemma RecvDequeues(l: Link, n: nat)
    requires Clean(l) && n <= |l.wire|
    ensures Clean(Recv(l, n).0) && Room(l.rx, l.wire[..n])
    ensures Recv(l, n).1 + InFlight(Recv(l, n).0) == InFlight(l)
  {
    var rest := l.wire[n..] + l.unsent;
    assert Ahead(l) == l.wire[..n] + rest;
    RunAppend(l.rx, l.wire[..n], rest);
    RoomAppend(l.rx, l.wire[..n], rest);
  }

  /** With nothing on the way nothing is owed. */
  lemma DrainedLink(l: Link)
    requires Ahead(l) == []
    ensures InFlight(l) == []
  {
  }

  /** The bytes held and ahead are those of the frames in flight, and no others. */
  ghost predicate Tight(l: Link) {
    Held(l.rx) + |Ahead(l)| == |EncodeAll(InFlight(l))|
  }

  lemma SendTight(l: Link, f: Frame)
    requires Clean(l) && Tight(l) && Sendable(f)
    ensures Tight(Send(l, f))
  {
    hide Encode, Run, Room;
    SendQueues(l, f);
    EncodeAllAppend(InFlight(l), [f]);
    assert EncodeAll([f]) == Encode(f) by {
      assert [f][1..] == [] && Encode(f) + [] == Encode(f);
    }
    assert Ahead(Send(l, f)) == Ahead(l) + Encode(f);
  }

  lemma RecvTight(l: Link, n: nat)
    requires Clean(l) && Tight(l) && n <= |l.wire|
    ensures Tight(Recv(l, n).0)
  {
    hide Encode, Run, Room, Held;
    var (t, fs) := Recv(l, n);
    RecvDequeues(l, n);
    EncodeAllAppend(fs, InFlight(t));
    RunAccounts(l.rx, l.wire[..n]);
    RunAccounts(t.rx, Ahead(t));
    assert |Ahead(l)| == n + |Ahead(t)|;
  }

  /** Such a link is empty as soon as no frame is in flight. */
  lemma TightDrained(l: Link)
    requires Tight(l) && InFlight(l) == []
    ensures Ahead(l) == []
  {
    hide Run;
  }

  // ---- a frame through the sender's loop of writes ----

  function PushAll(l: Link, ks: seq<nat>): Link
    decreases |ks|
  {
    if ks == [] || ks[0] > |l.unsent| then l else PushAll(Push(l, ks[0]), ks[1..])
  }

  /** What the writes of a payload of `size` bytes accept, one after the other. */
  function Amounts(script: seq<nat>, size: nat): seq<nat>
    decreases size
  {
    var k := Accepted(script, size);
    if k == 0 then [] else [k] + Amounts(Rest(script), size - k)
  }

  lemma {:induction false} PushAllAmounts(l: Link, script: seq<nat>)
    requires Pushed(script, |l.unsent|) == |l.unsent|
    ensures PushAll(l, Amounts(script, |l.unsent|)) == Link(l.rx, Ahead(l), [])
    ensures forall k :: k in Amounts(script, |l.unsent|) ==> k > 0
    decreases |l.unsent|
  {
    var k := Accepted(script, |l.unsent|);
    if k == 0 {
      assert l.unsent == [] && l.wire + [] == l.wire;
    } else {
      PushAllAmounts(Push(l, k), Rest(script));
      PushKeepsQueue(l, k);
    }
  }

  /**
   * When a send reports success under some script of short writes, the writes it
   * made are pushes, none of them empty, that together put the frame on the wire.
   */
  lemma SendIsPushes(l: Link, f: Frame, script: seq<nat>) returns (ks: seq<nat>)
    requires l.unsent == [] && FrameOut(script, |f.payload|) == 6 + |f.payload|
    ensures PushAll(Send(l, f), ks) == l.(wire := l.wire + Encode(f))
    ensures forall k :: k in ks ==> k > 0
  {
    var rest := Amounts(Rest(script), |f.payload|);
    ks := [6] + rest;
    var l1 := Push(Send(l, f), 6);
    assert [] + Encode(f) == Encode(f);
    assert ks[1..] == rest && |l1.unsent| == |f.payload|;
    PushAllAmounts(l1, Rest(script));
    PushKeepsQueue(Send(l, f), 6);
  }

  function SendAll(l: Link, fs: seq<Frame>): Link
    decreases |fs|
  {
    if fs == [] then l else SendAll(Send(l, fs[0]), fs[1..])
  }

  lemma {:induction false} SendAllQueues(l: Link, fs: seq<Frame>)
    requires Clean(l) && forall f :: f in fs ==> Sendable(f)
    ensures Clean(SendAll(l, fs)) && InFlight(SendAll(l, fs)) == InFlight(l) + fs
    decreases |fs|
  {
    hide Encode, Run, Room;
    if fs == [] {
      assert InFlight(l) + [] == InFlight(l);
    } else {
      SendQueues(l, fs[0]);
      SendAllQueues(Send(l, fs[0]), fs[1..]);
      assert InFlight(l) + [fs[0]] + fs[1..] == InFlight(l) + fs;
    }
  }

  // ---- sorting frames by endpoint ----

  /** The payloads on endpoint 0: requests one way, replies the other. */
  function Control(fs: seq<Frame>): seq<seq<Byte>> {
    if fs == [] then [] else (if fs[0].ep == 0 then [fs[0].payload] else []) + Control(fs[1..])
  }

  /** The bytes of one endpoint's stream. */
  function EndpointBytes(fs: seq<Frame>, ep: Byte): seq<Byte> {
    if fs == [] then [] else (if fs[0].ep == ep then fs[0].payload else []) + EndpointBytes(fs[1..], ep)
  }

  /** The frames of sideband streams. */
  function Sidebands(fs: seq<Frame>): seq<Frame> {
    if fs == [] then [] else (if fs[0].ep == 0 then [] else [fs[0]]) + Sidebands(fs[1..])
  }

  lemma {:induction false} ControlAppend(a: seq<Frame>, b: seq<Frame>)
    ensures Control(a + b) == Control(a) + Control(b)
    decreases |a|
  {
    if a == [] {
      assert a + b == b;
    } else {
      assert (a + b)[0] == a[0] && (a + b)[1..] == a[1..] + b;
      ControlAppend(a[1..], b);
    }
  }

  lemma {:induction false} EndpointBytesAppend(a: seq<Frame>, b: seq<Frame>, ep: Byte)
    ensures EndpointBytes(a + b, ep) == EndpointBytes(a, ep) + EndpointBytes(b, ep)
    decreases |a|
  {
    if a == [] {
      assert a + b == b;
    } else {
      assert (a + b)[0] == a[0] && (a + b)[1..] == a[1..] + b;
      EndpointBytesAppend(a[1..], b, ep);
    }
  }

  lemma {:induction false} SidebandsAppend(a: seq<Frame>, b: seq<Frame>)
    ensures Sidebands(a + b) == Sidebands(a) + Sidebands(b)
    decreases |a|
  {
    if a == [] {
      assert a + b == b;
    } else {
      assert (a + b)[0] == a[0] && (a + b)[1..] == a[1..] + b;
      SidebandsAppend(a[1..], b);
    }
  }

  /** With one-byte replies a queue is its sideband frames and seven bytes for each reply. */
  lemma {:induction false} QueueBytes(fs: seq<Frame>)
    requires forall p :: p in Control(fs) ==> |p| == 1
    ensures |EncodeAll(fs)| == |EncodeAll(Sidebands(fs))| + 7 * |Control(fs)|
    decreases |fs|
  {
    if fs != [] {
      assert Control(fs) == (if fs[0].ep == 0 then [fs[0].payload] else []) + Control(fs[1..]);
      QueueBytes(fs[1..]);
      if fs[0].ep == 0 {
        assert Control(fs)[0] == fs[0].payload;
        assert [] + Sidebands(fs[1..]) == Sidebands(fs[1..]);
      } else {
        assert Sidebands(fs)[0] == fs[0] && Sidebands(fs)[1..] == Sidebands(fs[1..]);
      }
    }
  }

  lemma OneFrame(f: Frame)
    ensures Control([f]) == if f.ep == 0 then [f.payload] else []
    ensures forall ep :: EndpointBytes([f], ep) == if f.ep == ep then f.payload else []
  {
    assert [f][1..] == [];
  }
}
