/** Whole runs: end-to-end programming, lock step, sideband streams and progress. */
module SessionTheorems {
  import opened Bytes
  import opened Frames
  import opened Protocol
  import opened Link
  import opened Session
  import opened SessionProof
  import opened Mux
  import C = ClientModel
  import M = ServerModel

  // ---- every run ----

  lemma StepKeeps(s: State, step: Step)
    requires Inv(s) && Enabled(s, step)
    ensures Inv(Next(s, step))
  {
    hide *;
    match step
    case Connect => ConnectKeeps(s);
    case Begin(call) => BeginKeeps(s, call);
    case Take => TakeKeeps(s);
    case ServerRecv(n, envs) => ServerRecvKeeps(s, n, envs);
    case ClientRecv(n) => ClientRecvKeeps(s, n);
    case StreamRead(ep, data) => StreamReadKeeps(s, ep, data);
    case ClientWrite(ep, data) => ClientWriteKeeps(s, ep, data);
    case PushUp(k) => PushUpKeeps(s, k);
    case PushDown(k) => PushDownKeeps(s, k);
    case Register(ep) => RegisterKeeps(s, ep);
    case Reap => ReapKeeps(s);
  }

  lemma {:induction false} RunKeeps(s: State, steps: seq<Step>)
    requires Inv(s) && EnabledAll(s, steps)
    ensures Inv(After(s, steps))
    decreases |steps|
  {
    hide Inv, Enabled, Next;
    if steps != [] {
      StepKeeps(s, steps[0]);
      RunKeeps(Next(s, steps[0]), steps[1..]);
    }
  }

  lemma InitialInv(s: State)
    requires Initial(s) && |s.server.streams| <= 256
    ensures Inv(s)
  {
  }

  /** In every reachable state the invariant holds. */
  lemma Reachable(s: State, steps: seq<Step>)
    requires Initial(s) && |s.server.streams| <= 256 && EnabledAll(s, steps)
    ensures Inv(After(s, steps))
  {
    hide Inv, Enabled, Next;
    InitialInv(s);
    RunKeeps(s, steps);
  }

  // ---- programming, end to end ----

  function FilesOf(finished: seq<Finished>): seq<seq<Byte>> {
    seq(|finished|, i requires 0 <= i < |finished| => finished[i].file)
  }

  function Current(call: Call): seq<seq<Byte>> {
    if call.Program? then [call.file] else []
  }

  /** The files a run asks to program. */
  function Begun(steps: seq<Step>): seq<seq<Byte>> {
    if steps == [] then []
    else (if steps[0].Begin? then Current(steps[0].call) else []) + Begun(steps[1..])
  }

  lemma CallsStep(s: State, step: Step)
    requires Inv(s) && Enabled(s, step)
    ensures FilesOf(Next(s, step).finished) + Current(Next(s, step).client.call)
         == FilesOf(s.finished) + Current(s.client.call) + if step.Begin? then Current(step.call) else []
  {
    hide InFlight, Clean, Encode, NextRequest, Serve, M.SessionShape, Ready, Done;
    if step.Take? && s.client.call.Program? {
      var file := s.client.call.file;
      forall ret ensures FilesOf(s.finished + [Finished(file, ret)]) == FilesOf(s.finished) + [file] {
      }
    }
  }

  lemma {:induction false} CallsBegun(s: State, steps: seq<Step>)
    requires Inv(s) && EnabledAll(s, steps)
    ensures FilesOf(After(s, steps).finished) + Current(After(s, steps).client.call)
         == FilesOf(s.finished) + Current(s.client.call) + Begun(steps)
    decreases |steps|
  {
    hide Inv, Enabled, Next, FilesOf, Current;
    if steps == [] {
      assert FilesOf(s.finished) + Current(s.client.call) + [] == FilesOf(s.finished) + Current(s.client.call);
    } else {
      var t := Next(s, steps[0]);
      var mine := if steps[0].Begin? then Current(steps[0].call) else [];
      StepKeeps(s, steps[0]);
      CallsStep(s, steps[0]);
      CallsBegun(t, steps[1..]);
      assert FilesOf(s.finished) + Current(s.client.call) + mine + Begun(steps[1..])
          == FilesOf(s.finished) + Current(s.client.call) + (mine + Begun(steps[1..]));
    }
  }

  /**
   * Over every run, however frames are written and the bytes are cut, and whatever
   * non-empty sideband traffic travels with them: whenever no `program` call is
   * outstanding, the backend has been called exactly once for each call made, with
   * that call's file, and the call returned 0 exactly when the backend did; no image
   * is left behind. (`EmptyWriteLosesCall` is why the traffic is not empty.)
   */
  lemma EndToEnd(s: State, steps: seq<Step>)
    requires Initial(s) && |s.server.streams| <= 256 && EnabledAll(s, steps)
    requires !After(s, steps).client.call.Program?
    ensures var t, files := After(s, steps), Begun(steps);
            && |t.server.programmed| == |t.finished| == |files|
            && t.server.image.None?
            && forall i :: 0 <= i < |files| ==>
                 && t.finished[i].file == files[i]
                 && t.server.programmed[i].image == files[i]
                 && t.finished[i].ret == if t.server.programmed[i].status == 0 then 0 else -1
  {
    hide Inv, Enabled, Next, EnabledAll, After, Begun;
    Reachable(s, steps);
    InitialInv(s);
    CallsBegun(s, steps);
    var t := After(s, steps);
    assert FilesOf(t.finished) == Begun(steps) by {
      assert FilesOf(t.finished) + [] == FilesOf(t.finished);
      assert FilesOf(s.finished) + Current(s.client.call) + Begun(steps) == Begun(steps);
    }
    NothingLeft(t);
    forall i | 0 <= i < |Begun(steps)| ensures t.finished[i].file == Begun(steps)[i] {
      assert FilesOf(t.finished)[i] == t.finished[i].file;
    }
  }

  lemma NothingLeft(s: State)
    requires Inv(s) && !s.client.call.Program?
    ensures s.server.image.None? && Matches(s.finished, s.server.programmed)
  {
    hide InFlight, Clean, NextRequest, M.SessionShape;
  }

  // ---- lock step ----

  /** Requests sent less replies consumed is 0 or 1, and it is what is on the wires and in the mailbox. */
  lemma LockStep(s: State)
    requires Inv(s) && s.client.connected
    ensures var outstanding := |Control(s.sentUp)| - s.taken;
            && outstanding == |Control(InFlight(s.up))| + |Control(InFlight(s.down))| + |BoxList(s.client.box)|
            && outstanding == if s.client.call.Idle? then 0 else 1
  {
    hide InFlight, Clean, Request, M.SessionShape, Ready, Done;
  }

  /** No reply arrives while the mailbox is full, so none is ever overwritten. */
  lemma MailboxNotOverwritten(s: State, n: nat)
    requires Inv(s) && Enabled(s, ClientRecv(n)) && s.client.box.Some?
    ensures Control(Recv(s.down, n).1) == [] && Next(s, ClientRecv(n)).client.box == s.client.box
  {
    hide InFlight, Clean, Recv, Request, M.SessionShape, Ready, Done;
    LockStep(s);
    ReceiveDown(s, n);
    AcceptIsLast(s.client.box, Recv(s.down, n).1);
  }

  /** A request that ends the session is the last frame the server ever gets to see of it. */
  lemma NothingFollowsTheEnd(s: State, n: nat, envs: seq<M.Env>)
    requires Inv(s) && Enabled(s, ServerRecv(n, envs)) && Ends(s.client.call)
    requires Control(Recv(s.up, n).1) != []
    ensures InFlight(Recv(s.up, n).0) == []
    ensures var fs := Recv(s.up, n).1; fs != [] && fs[|fs| - 1] == Frame(0, Request(s.client.call))
  {
    hide Clean, Recv, Request, M.SessionShape, Ready, Done, InFlight, Control;
    var (up, fs) := Recv(s.up, n);
    ReceiveUp(s, n);
    LastControlFrame(fs, InFlight(up));
  }

  /** When the one control frame of a queue is its last, a front part that has it is all of it. */
  lemma LastControlFrame(fs: seq<Frame>, rest: seq<Frame>)
    requires fs + rest != [] && (fs + rest)[|fs + rest| - 1].ep == 0
    requires Control(fs) != [] && Control(rest) == []
    ensures rest == [] && fs != [] && fs + rest == fs
  {
    if rest != [] {
      var f := rest[|rest| - 1];
      assert f == (fs + rest)[|fs + rest| - 1];
      assert rest == rest[..|rest| - 1] + [f];
      ControlAppend(rest[..|rest| - 1], [f]);
      OneFrame(f);
      assert false;
    }
    assert fs + [] == fs;
  }

  // ---- what reaches the machines' buffers ----

  /** Whatever chunk arrives, neither receiver's message outgrows its buffer, and every request fits the image. */
  lemma ChunksFit(s: State, n: nat)
    requires Inv(s) && s.client.connected
    ensures n <= |s.up.wire| ==> Room(s.up.rx, s.up.wire[..n])
    ensures n <= |s.down.wire| ==> Room(s.down.rx, s.down.wire[..n])
  {
    hide M.SessionShape, Ready, Done, Request, Run, Room;
    if n <= |s.up.wire| { RecvDequeues(s.up, n); }
    if n <= |s.down.wire| { RecvDequeues(s.down, n); }
  }

  // ---- sideband streams ----

  /**
   * What a handler registered for an endpoint has been given continues what came
   * before it, and is what was read from that stream, short only by what is still
   * on the wire.
   */
  lemma StreamPreserved(s: State, ep: Byte)
    requires Inv(s) && s.client.connected && ep != 0 && ep in s.client.sinks
    ensures var sink := s.client.sinks[ep];
            && EndpointBytes(s.streamed, ep) == sink.missed + sink.bytes + EndpointBytes(InFlight(s.down), ep)
            && (Ahead(s.down) == [] ==> sink.missed + sink.bytes == EndpointBytes(s.streamed, ep))
  {
    hide Clean, M.SessionShape, Ready, Done, Request, Run;
    EndpointBytesAppend(s.gotDown, InFlight(s.down), ep);
    if Ahead(s.down) == [] {
      DrainedLink(s.down);
      var sink := s.client.sinks[ep];
      assert EndpointBytes([], ep) == [] && sink.missed + sink.bytes + [] == sink.missed + sink.bytes;
    }
  }

  /** The other direction: what the server got for an endpoint is a prefix of what the client wrote to it. */
  lemma WritesPreserved(s: State, ep: Byte)
    requires Inv(s) && s.client.connected
    ensures EndpointBytes(s.sentUp, ep) == EndpointBytes(s.gotUp, ep) + EndpointBytes(InFlight(s.up), ep)
    ensures Ahead(s.up) == [] ==> EndpointBytes(s.gotUp, ep) == EndpointBytes(s.sentUp, ep)
  {
    hide Clean, M.SessionShape, Ready, Done, Request, Run;
    EndpointBytesAppend(s.gotUp, InFlight(s.up), ep);
    if Ahead(s.up) == [] {
      DrainedLink(s.up);
      assert EndpointBytes([], ep) == [] && EndpointBytes(s.gotUp, ep) + [] == EndpointBytes(s.gotUp, ep);
    }
  }

  /** The client object's table and handlers give a registered handler exactly its endpoint's bytes. */
  lemma HandlerGetsItsEndpoint(handlers: seq<Option<nat>>, table: seq<bool>, fs: seq<Frame>, ep: Byte, h: nat)
    requires ep != 0 && ep < |handlers| && handlers[ep] == Some(h)
    requires ep < |table| && table[ep]
    requires forall i :: 0 <= i < |handlers| && i != ep ==> handlers[i] != Some(h)
    ensures ReceivedBy(C.SidebandWrites(C.Routed(handlers, table), fs), h) == EndpointBytes(fs, ep)
  {
    OnlyItsEndpoint(C.Routed(handlers, table), fs, ep, h);
  }

  lemma {:induction false} OnlyItsEndpoint(handlers: seq<Option<nat>>, fs: seq<Frame>, ep: Byte, h: nat)
    requires ep != 0 && ep < |handlers| && handlers[ep] == Some(h)
    requires forall i :: 0 <= i < |handlers| && i != ep ==> handlers[i] != Some(h)
    ensures ReceivedBy(C.SidebandWrites(handlers, fs), h) == EndpointBytes(fs, ep)
    decreases |fs|
  {
    if fs != [] {
      var all, rest := C.SidebandWrites(handlers, fs), C.SidebandWrites(handlers, fs[1..]);
      OnlyItsEndpoint(handlers, fs[1..], ep, h);
      assert all == rest || all[1..] == rest;
    }
  }

  // ---- progress ----

  /** Steps that carry an outstanding call forward, as opposed to new traffic. */
  predicate Internal(step: Step) {
    step.Take? || step.ServerRecv? || step.ClientRecv? || step.PushUp? || step.PushDown?
  }

  function Remaining(call: Call): nat
    requires WellFormed(call)
  {
    match call
    case Idle => 0
    case Program(file, from) => |file| - from + 1
    case _ => 1
  }

  /** How far the outstanding request is from being answered and taken. */
  function Distance(s: State): nat {
    2 * |Control(InFlight(s.up))| + |Control(InFlight(s.down))|
  }

  /** `t` is further along than `s`: in the call, else in its request's way, else in bytes delivered. */
  predicate Further(s: State, t: State)
    requires WellFormed(s.client.call) && WellFormed(t.client.call)
  {
    var (a, b) := (Remaining(s.client.call), Remaining(t.client.call));
    b < a || (b == a && (Distance(t) < Distance(s) || (Distance(t) == Distance(s) && OnWires(t) < OnWires(s))))
  }

  /** Bytes on their way; one that is not on the wire yet has a step more to go. */
  function OnWires(s: State): nat {
    |s.up.wire| + |s.down.wire| + 2 * (|s.up.unsent| + |s.down.unsent|)
  }

  lemma TakeDecreases(s: State)
    requires Inv(s) && Enabled(s, Take)
    ensures Inv(Next(s, Take)) && Remaining(Next(s, Take).client.call) < Remaining(s.client.call)
  {
    hide InFlight, Clean, NextRequest, M.SessionShape, Ready, Done;
    TakeKeeps(s);
  }

  lemma ClientRecvDecreases(s: State, n: nat)
    requires Inv(s) && Enabled(s, ClientRecv(n))
    ensures Inv(Next(s, ClientRecv(n))) && Further(s, Next(s, ClientRecv(n)))
  {
    hide InFlight, Clean, M.SessionShape, Request, Ready, Done;
    ClientRecvKeeps(s, n);
    ReceiveDown(s, n);
  }

  lemma ServerRecvDecreases(s: State, n: nat, envs: seq<M.Env>)
    requires Inv(s) && Enabled(s, ServerRecv(n, envs))
    ensures Inv(Next(s, ServerRecv(n, envs))) && Further(s, Next(s, ServerRecv(n, envs)))
  {
    hide InFlight, Clean, M.SessionShape, M.InSession, Request, Ready, Done, Serve;
    var t := Next(s, ServerRecv(n, envs));
    ServerRecvKeeps(s, n, envs);
    ReceiveUp(s, n);
    if Control(Recv(s.up, n).1) == [] {
      LiveIsSession(s);
      SessionRoutes(s.server);
      ServeQuiet(s.server, Recv(s.up, n).1, envs);
      assert t.down == s.down;
    } else {
      LockStep(s);
      LockStep(t);
    }
  }

  lemma PushDecreases(s: State, step: Step)
    requires Inv(s) && Enabled(s, step) && (step.PushUp? || step.PushDown?)
    ensures Inv(Next(s, step)) && Further(s, Next(s, step))
  {
    hide InFlight, Clean, M.SessionShape, Request, Ready, Done, Control;
    StepKeeps(s, step);
    if step.PushUp? {
      PushKeepsQueue(s.up, step.k);
    } else {
      PushKeepsQueue(s.down, step.k);
    }
  }

  /** Every internal step makes progress in a well-founded order, so no run of them goes on for ever. */
  lemma InternalDecreases(s: State, step: Step)
    requires Inv(s) && Enabled(s, step) && Internal(step)
    ensures Inv(Next(s, step)) && Further(s, Next(s, step))
  {
    hide Inv, Enabled, Next;
    match step
    case Take => TakeDecreases(s);
    case ServerRecv(n, envs) => ServerRecvDecreases(s, n, envs);
    case ClientRecv(n) => ClientRecvDecreases(s, n);
    case PushUp(_) => PushDecreases(s, step);
    case PushDown(_) => PushDecreases(s, step);
  }
}
