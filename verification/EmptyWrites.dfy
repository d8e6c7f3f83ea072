/**
 * The program accepts a sideband write without bytes. Its frame swallows the marker of
 * the next one, and when that is a request the call that sent it never returns.
 */
module EmptyWrites {
  import opened Bytes
  import opened Frames
  import opened Link
  import opened Session
  import opened SessionProof
  import C = ClientModel
  import M = ServerModel

  /** The state after an empty write to `ep`, all of it on the wire. */
  function EmptyWrite(s: State, ep: Byte): State {
    var t := SendUp(s, Frame(ep, []));
    t.(up := Push(t.up, |t.up.unsent|))
  }

  /** Past the first byte the request's frame has no byte that could pass for a marker. */
  predicate NoMarkerInside(call: Call)
    requires !call.Idle? && WellFormed(call)
  {
    MARKER !in Encode(Frame(0, Request(call)))[1..]
  }

  /** True of every request that carries no data. */
  lemma OnlyProgramHoldsMarkers(call: Call)
    requires !call.Idle? && !call.Program?
    ensures NoMarkerInside(call)
  {
    assert Encode(Frame(0, Request(call)))[1..] == Le32(|Request(call)|) + [0] + Request(call);
  }

  /** A call is outstanding that nothing on the way to or from the server belongs to. */
  ghost predicate Lost(s: State, call: Call) {
    && !call.Idle? && WellFormed(call)
    && s.client.connected && s.client.call == call && s.client.box.None?
    && InService(s.server)
    && Clean(s.up) && Control(InFlight(s.up)) == []
    && Clean(s.down) && Control(InFlight(s.down)) == []
  }

  /** A queue without control frames that loses frames at the front or gets sideband ones at the end. */
  lemma QueueStaysQuiet(l: Link, n: nat, f: Frame)
    requires Clean(l) && Control(InFlight(l)) == []
    ensures n <= |l.wire| ==>
      Control(Recv(l, n).1) == [] && Clean(Recv(l, n).0) && Control(InFlight(Recv(l, n).0)) == []
    ensures Sendable(f) && f.ep != 0 ==> Clean(Send(l, f)) && Control(InFlight(Send(l, f))) == []
  {
    hide Clean, InFlight, Recv, Send;
    if n <= |l.wire| {
      RecvDequeues(l, n);
      ControlAppend(Recv(l, n).1, InFlight(Recv(l, n).0));
    }
    if Sendable(f) && f.ep != 0 {
      SendQueues(l, f);
      ControlAppend(InFlight(l), [f]);
      OneFrame(f);
    }
  }

  lemma ServerRecvQuiet(s: State, n: nat, envs: seq<M.Env>)
    requires InService(s.server) && Enabled(s, ServerRecv(n, envs)) && Control(Recv(s.up, n).1) == []
    ensures var t := Next(s, ServerRecv(n, envs));
            t == s.(up := Recv(s.up, n).0, gotUp := s.gotUp + Recv(s.up, n).1)
  {
    hide Clean, InFlight, Recv, Serve, M.InSession;
    SessionRoutes(s.server);
    ServeQuiet(s.server, Recv(s.up, n).1, envs);
    assert s.sentDown + [] == s.sentDown;
  }

  lemma StaysLost(s: State, step: Step, call: Call)
    requires Lost(s, call) && Enabled(s, step)
    ensures Lost(Next(s, step), call)
    ensures Next(s, step).server == s.server && Next(s, step).finished == s.finished
  {
    hide Clean, InFlight, Recv, Serve, M.InSession, Encode, Control, C.Accept, Feed, EndpointBytes, Request;
    match step
    case ServerRecv(n, envs) =>
      QueueStaysQuiet(s.up, n, Frame(1, []));
      ServerRecvQuiet(s, n, envs);
    case ClientRecv(n) =>
      QueueStaysQuiet(s.down, n, Frame(1, []));
      AcceptIsLast(s.client.box, Recv(s.down, n).1);
    case StreamRead(ep, data) =>
      QueueStaysQuiet(s.down, 0, Frame(ep, data));
      assert SendAll(s.down, [Frame(ep, data)]) == Send(s.down, Frame(ep, data)) by {
        assert [Frame(ep, data)][1..] == [];
      }
    case ClientWrite(ep, data) => QueueStaysQuiet(s.up, 0, Frame(ep, data));
    case PushUp(k) => PushKeepsQueue(s.up, k);
    case PushDown(k) => PushKeepsQueue(s.down, k);
    case _ =>
  }

  lemma {:induction false} StaysLostForEver(s: State, steps: seq<Step>, call: Call)
    requires Lost(s, call) && EnabledAll(s, steps)
    ensures Lost(After(s, steps), call)
    ensures After(s, steps).server == s.server && After(s, steps).finished == s.finished
    decreases |steps|
  {
    hide Lost, Enabled, Next;
    if steps != [] {
      StaysLost(s, steps[0], call);
      StaysLostForEver(Next(s, steps[0]), steps[1..], call);
    }
  }

  /** The link after an empty write to `ep` that is all on the wire, and the start of a frame. */
  function Behind(l: Link, ep: Byte, f: Frame): Link {
    l.(wire := l.wire + l.unsent + Encode(Frame(ep, [])), unsent := Encode(f))
  }

  /** Wherever the receiver is in the stream, it gets one byte and then what the rest of the frame looks like. */
  lemma FrameGarbled(l: Link, ep: Byte, f: Frame)
    requires Clean(l) && Fits(f)
    ensures var m, both := Behind(l, ep, f), EncodeAll([Frame(ep, []), f]);
            Ahead(m) == Ahead(l) + both && Run(m.rx, Ahead(m)).0 == Run(Marker, both).0
    ensures InFlight(Behind(l, ep, f))
         == InFlight(l) + ([Frame(ep, [MARKER])] + Run(Marker, Encode(f)[1..]).1)
  {
    hide Encode, Run, Room;
    var e, m := Frame(ep, []), Behind(l, ep, f);
    var both := EncodeAll([e, f]);
    assert both == Encode(e) + Encode(f) by {
      assert [e, f][1..] == [f] && [f][1..] == [] && EncodeAll([f]) == Encode(f) + [];
    }
    assert Ahead(m) == Ahead(l) + both;
    EmptyPayloadSwallowsMarker(ep, f);
    RunAppend(l.rx, Ahead(l), both);
  }

  /** With no marker inside it, the two frames reach the receiver as one sideband byte. */
  lemma RequestSwallowed(l: Link, ep: Byte, f: Frame)
    requires Clean(l) && Fits(f) && MARKER !in Encode(f)[1..]
    ensures Clean(Behind(l, ep, f)) && InFlight(Behind(l, ep, f)) == InFlight(l) + [Frame(ep, [MARKER])]
  {
    hide Encode, Run, Room;
    var both := EncodeAll([Frame(ep, []), f]);
    FrameGarbled(l, ep, f);
    EmptyPayloadSwallowsMarker(ep, f);
    EncodedHead(f);
    RunSkips(Encode(f)[1..]);
    assert [Frame(ep, [MARKER])] + [] == [Frame(ep, [MARKER])];
    RoomSwallowed(ep, f);
    RoomAppend(l.rx, Ahead(l), both);
  }

  lemma {:induction false} RoomBetweenFrames(s: seq<Byte>)
    requires MARKER !in s
    ensures Room(Marker, s)
  {
    if s != [] {
      assert s[0] in s;
      RoomBetweenFrames(s[1..]);
    }
  }

  /** An empty frame leaves the receiver waiting for one byte of data. */
  lemma EmptyFrame(ep: Byte)
    ensures Run(Marker, Encode(Frame(ep, []))).0 == Data(0, ep, []) && Room(Marker, Encode(Frame(ep, [])))
  {
    hide Run, SizeField;
    var t := Encode(Frame(ep, []));
    EncodedHead(Frame(ep, []));
    RunUnfinished(t);
    RoomHeader([], t[1..]);
  }

  lemma RoomSwallowed(ep: Byte, f: Frame)
    requires Fits(f) && MARKER !in Encode(f)[1..]
    ensures Room(Marker, EncodeAll([Frame(ep, []), f]))
  {
    hide Run, Encode;
    var e := Frame(ep, []);
    assert EncodeAll([e, f]) == Encode(e) + Encode(f) by {
      assert [e, f][1..] == [f] && [f][1..] == [] && EncodeAll([f]) == Encode(f) + [];
    }
    EmptyFrame(ep);
    EncodedHead(f);
    RoomBetweenFrames(Encode(f)[1..]);
    RoomAppend(Marker, Encode(e), Encode(f));
  }

  lemma CallBehind(s: State, ep: Byte, call: Call)
    requires ClientFree(s) && Enabled(EmptyWrite(s, ep), Begin(call))
    ensures Next(EmptyWrite(s, ep), Begin(call)).up == Behind(s.up, ep, Frame(0, Request(call)))
  {
    hide Encode, Request;
    var e, f := Frame(ep, []), Frame(0, Request(call));
    assert s.up.wire + [] == s.up.wire && [] + Encode(e) == Encode(e) && [] + Encode(f) == Encode(f);
  }

  /**
   * After an empty write at a moment when no call is outstanding, no call's request
   * reaches the server: behind a sideband byte it sees the frames that the parser
   * cuts out of the request's frame without its first byte, and the request is none
   * of them.
   */
  lemma EmptyWriteGarblesCall(s: State, ep: Byte, call: Call)
    requires Inv(s) && ClientFree(s) && s.client.call.Idle? && ep != 0
    requires Enabled(EmptyWrite(s, ep), Begin(call))
    ensures var f, t := Frame(0, Request(call)), Next(EmptyWrite(s, ep), Begin(call));
            && InFlight(t.up) == InFlight(s.up) + ([Frame(ep, [MARKER])] + Parse(Encode(f)[1..]).frames)
            && f !in InFlight(t.up)
  {
    hide Clean, InFlight, Encode, M.InSession, M.SessionShape, Request, Parse, Run;
    var f := Frame(0, Request(call));
    RequestSendable(call);
    CallBehind(s, ep, call);
    FrameGarbled(s.up, ep, f);
    assert Encode(f) != [] by { EncodedHead(f); }
    RunRefinesParse(Encode(f)[1..]);
    NotInFewerBytes(f, Encode(f)[1..]);
    if f in InFlight(s.up) {
      InControl(InFlight(s.up), f);
    }
  }

  lemma {:induction false} InControl(fs: seq<Frame>, f: Frame)
    requires f in fs && f.ep == 0
    ensures Control(fs) != []
    decreases |fs|
  {
    if f != fs[0] {
      InControl(fs[1..], f);
    }
  }

  /**
   * After an empty write at a moment when no call is outstanding, the next call whose
   * frame has no marker inside is outstanding for ever: no run brings its reply, and
   * the server never sees its request.
   */
  lemma EmptyWriteLosesCall(s: State, ep: Byte, call: Call, steps: seq<Step>)
    requires Inv(s) && ClientFree(s) && s.client.call.Idle? && ep != 0
    requires Enabled(EmptyWrite(s, ep), Begin(call)) && NoMarkerInside(call)
    requires EnabledAll(Next(EmptyWrite(s, ep), Begin(call)), steps)
    ensures var t := After(Next(EmptyWrite(s, ep), Begin(call)), steps);
            && t.client.connected && t.client.call == call && t.client.box.None?
            && t.server == s.server && t.finished == s.finished
  {
    hide Clean, InFlight, Encode, M.InSession, M.SessionShape, Request, Control, EnabledAll, After;
    var f := Frame(0, Request(call));
    var s1 := Next(EmptyWrite(s, ep), Begin(call));
    RequestSendable(call);
    CallBehind(s, ep, call);
    RequestSwallowed(s.up, ep, f);
    var got := Frame(ep, [MARKER]);
    ControlAppend(InFlight(s.up), [got]);
    OneFrame(got);
    assert s.client.box.None? && Control(InFlight(s.up)) == [] && Control(InFlight(s.down)) == [];
    StaysLostForEver(s1, steps, call);
  }
}
