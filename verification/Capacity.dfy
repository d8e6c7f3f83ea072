/**
 * Runs over wires that hold a bounded number of unread bytes. Both sides write with
 * blocking writes and read nothing meanwhile, so full wires can stop them for ever:
 * when that happens, when it cannot, and that a call completes when it cannot.
 */
module Capacity {
  import opened Bytes
  import opened Frames
  import opened Protocol
  import opened Link
  import opened Session
  import opened SessionProof
  import opened SessionTheorems
  import opened SessionCalls
  import M = ServerModel

  /** How many unread bytes each direction takes. */
  datatype Caps = Caps(up: nat, down: nat)

  predicate Within(s: State, c: Caps) {
    |s.up.wire| <= c.up && |s.down.wire| <= c.down
  }

  /** A step that no full wire blocks; of all steps only a push puts bytes on a wire. */
  predicate Allowed(s: State, step: Step, c: Caps) {
    Enabled(s, step) && Within(Next(s, step), c)
  }

  predicate AllowedAll(s: State, steps: seq<Step>, c: Caps)
    decreases |steps|
  {
    steps == [] || (Allowed(s, steps[0], c) && AllowedAll(Next(s, steps[0]), steps[1..], c))
  }

  /** These are runs of the session like all others: what holds of those holds of these. */
  lemma {:induction false} AllowedIsEnabled(s: State, steps: seq<Step>, c: Caps)
    requires AllowedAll(s, steps, c)
    ensures EnabledAll(s, steps)
    ensures Within(s, c) ==> Within(After(s, steps), c)
    decreases |steps|
  {
    hide Enabled, Next, Within;
    if steps != [] {
      AllowedIsEnabled(Next(s, steps[0]), steps[1..], c);
    }
  }

  lemma {:induction false} AllowedAppend(s: State, a: seq<Step>, b: seq<Step>, c: Caps)
    requires AllowedAll(s, a, c) && EnabledAll(s, a) && AllowedAll(After(s, a), b, c)
    ensures AllowedAll(s, a + b, c) && EnabledAll(s, a + b) && EnabledAll(After(s, a), b)
    ensures After(s, a + b) == After(After(s, a), b)
    decreases |a|
  {
    hide Enabled, Next, Within;
    if a == [] {
      assert a + b == b;
      AllowedIsEnabled(s, b, c);
    } else {
      assert (a + b)[0] == a[0] && (a + b)[1..] == a[1..] + b;
      AllowedAppend(Next(s, a[0]), a[1..], b, c);
    }
  }

  // ---- what else every run keeps ----

  /** No stray bytes are on the way, and none at all to a server that has left the session. */
  ghost predicate Tidy(s: State) {
    s.client.connected ==>
      && Tight(s.up) && Tight(s.down)
      && (!Live(s) ==> Ahead(s.up) == [])
  }

  /** Only a call that ends the session leaves the client with a server that is not in it. */
  lemma LiveUnlessEnding(s: State)
    requires Inv(s) && s.client.connected && !Ends(s.client.call)
    ensures Live(s)
  {
    hide Clean, InFlight, Control, Request;
  }

  /** The server object answers on endpoint 0 alone. */
  lemma {:induction false} ServeRepliesOnly(server: M.Server, fs: seq<Frame>, envs: seq<M.Env>)
    requires |envs| == |fs|
    ensures Sidebands(Serve(server, fs, envs).1) == []
    decreases |fs|
  {
    hide M.Handle;
    if fs != [] {
      if ToServer(server, fs[0].ep) {
        var (s1, reply) := M.Handle(server, fs[0].payload, envs[0]);
        ServeRepliesOnly(s1, fs[1..], envs[1..]);
        var mine := if reply.Some? then [Frame(0, reply.value)] else [];
        assert Serve(server, fs, envs).1 == mine + Serve(s1, fs[1..], envs[1..]).1;
        SidebandsAppend(mine, Serve(s1, fs[1..], envs[1..]).1);
        assert Sidebands(mine) == [] by {
          assert mine != [] ==> mine[1..] == [];
        }
      } else {
        ServeRepliesOnly(server, fs[1..], envs[1..]);
      }
    }
  }

  /** The frames sent down by a step, all of them sendable. */
  lemma {:induction false} SendAllTight(l: Link, fs: seq<Frame>)
    requires Clean(l) && Tight(l) && forall f :: f in fs ==> Sendable(f)
    ensures Tight(SendAll(l, fs))
    decreases |fs|
  {
    hide Clean, Tight, Encode;
    if fs != [] {
      SendQueues(l, fs[0]);
      SendTight(l, fs[0]);
      SendAllTight(Send(l, fs[0]), fs[1..]);
    }
  }

  /** What the server sends in answer to one receive. */
  lemma ServedReplies(s: State, n: nat, envs: seq<M.Env>)
    requires Inv(s) && Enabled(s, ServerRecv(n, envs))
    ensures forall f :: f in Serve(s.server, Recv(s.up, n).1, envs).1 ==> Sendable(f)
    ensures Control(Recv(s.up, n).1) == [] ==> Serve(s.server, Recv(s.up, n).1, envs).0 == s.server
  {
    hide Inv, Recv, Serve, Request, M.Handle, Ready, Done, Control;
    var env := ServedOnce(s, n, envs);
  }

  lemma ServerRecvTidy(s: State, n: nat, envs: seq<M.Env>)
    requires Inv(s) && Tidy(s) && Enabled(s, ServerRecv(n, envs))
    ensures Tidy(Next(s, ServerRecv(n, envs)))
  {
    hide Clean, Recv, Serve, Request, M.SessionShape, Stage, InFlight, Control, EndpointBytes, SinksAgree, Tight;
    var t := Next(s, ServerRecv(n, envs));
    var fs, replies := Recv(s.up, n).1, Serve(s.server, Recv(s.up, n).1, envs).1;
    ServerRecvKeeps(s, n, envs);
    ServedReplies(s, n, envs);
    RecvTight(s.up, n);
    SendAllTight(s.down, replies);
    SendAllQueues(s.down, replies);
    if !Live(t) {
      if !Ends(t.client.call) { LiveUnlessEnding(t); }
      NothingFollowsTheEnd(s, n, envs);
      TightDrained(Recv(s.up, n).0);
    }
  }

  lemma ClientRecvTidy(s: State, n: nat)
    requires Inv(s) && Tidy(s) && Enabled(s, ClientRecv(n))
    ensures Tidy(Next(s, ClientRecv(n)))
  {
    hide Clean, Recv, Request, M.SessionShape, Stage, InFlight, Control, EndpointBytes, SinksAgree, Tight;
    RecvTight(s.down, n);
    RecvDequeues(s.down, n);
  }

  /** A frame of the client's goes to a server in the session. */
  lemma SendUpTidy(s: State, f: Frame)
    requires Inv(s) && Tidy(s) && s.client.connected && Live(s) && Sendable(f)
    ensures Tidy(SendUp(s, f))
  {
    hide Clean, Stage, InFlight, Tight, SinksAgree;
    SendTight(s.up, f);
  }

  lemma SendingTidy(s: State, step: Step)
    requires Inv(s) && Tidy(s) && Enabled(s, step) && (step.Begin? || step.Take? || step.ClientWrite?)
    ensures Tidy(Next(s, step))
  {
    hide Clean, Stage, InFlight, Tight, SinksAgree, Encode, NextRequest, M.SessionShape;
    match step
    case Begin(call) =>
      LiveUnlessEnding(s);
      RequestSendable(call);
      SendUpTidy(s, Frame(0, Request(call)));
    case ClientWrite(ep, data) =>
      LiveUnlessEnding(s);
      SendUpTidy(s, Frame(ep, data));
    case Take =>
      var call := s.client.call;
      if call.Program? && Advance(call.file, call.from) < |call.file| {
        LiveUnlessEnding(s);
        var next := Program(call.file, Advance(call.file, call.from));
        RequestSendable(next);
        SendUpTidy(s, Frame(0, Request(next)));
      }
  }

  lemma StreamReadTidy(s: State, ep: Byte, data: seq<Byte>)
    requires Inv(s) && Tidy(s) && Enabled(s, StreamRead(ep, data))
    ensures Tidy(Next(s, StreamRead(ep, data)))
  {
    hide Clean, Stage, InFlight, Tight, SinksAgree, Encode;
    SendAllTight(s.down, [Frame(ep, data)]);
  }

  lemma StepTidy(s: State, step: Step)
    requires Inv(s) && Tidy(s) && Enabled(s, step)
    ensures Tidy(Next(s, step))
  {
    hide Clean, Stage, InFlight, SinksAgree, Encode, Recv, Serve, Request, M.SessionShape, Sidebands;
    match step
    case ServerRecv(n, envs) => ServerRecvTidy(s, n, envs);
    case ClientRecv(n) => ClientRecvTidy(s, n);
    case Begin(_) => SendingTidy(s, step);
    case Take => SendingTidy(s, step);
    case ClientWrite(_, _) => SendingTidy(s, step);
    case StreamRead(ep, data) => StreamReadTidy(s, ep, data);
    case PushUp(k) => PushKeepsQueue(s.up, k);
    case PushDown(k) => PushKeepsQueue(s.down, k);
    case Connect => FreshTidy(s);
    case _ =>
  }

  lemma FreshTidy(s: State)
    requires Enabled(s, Connect)
    ensures Tidy(Next(s, Connect))
  {
    FreshLink();
  }

  lemma {:induction false} RunTidy(s: State, steps: seq<Step>)
    requires Inv(s) && Tidy(s) && EnabledAll(s, steps)
    ensures Inv(After(s, steps)) && Tidy(After(s, steps))
    decreases |steps|
  {
    hide Inv, Tidy, Enabled, Next;
    if steps != [] {
      StepKeeps(s, steps[0]);
      StepTidy(s, steps[0]);
      RunTidy(Next(s, steps[0]), steps[1..]);
    }
  }

  // ---- when nothing can move ----

  /** Both sides are in their write loops, and neither wire takes another byte. */
  predicate Jammed(s: State, c: Caps) {
    && s.up.unsent != [] && |s.up.wire| >= c.up
    && s.down.unsent != [] && |s.down.wire| >= c.down
  }

  /** A step that carries the outstanding call forward; a client with its reply in the mailbox takes it. */
  predicate Forward(s: State, step: Step, c: Caps) {
    Internal(step) && Allowed(s, step, c) && (step.ClientRecv? ==> s.client.box.None?)
  }

  /** There is a step forward unless the session is jammed. */
  lemma StepForward(s: State, c: Caps) returns (step: Step)
    requires Inv(s) && Tidy(s) && Within(s, c) && !s.client.call.Idle? && !Jammed(s, c)
    requires c.up >= 1 && c.down >= 1
    ensures Forward(s, step, c)
  {
    hide Clean, InFlight, Tight, Sidebands, M.SessionShape, Request, Run, Ready, Done, Serve, Control;
    var ask: Step := ServerRecv(1, if s.up.wire == [] then [] else seq(|Recv(s.up, 1).1|, _ => M.Env(0, [])));
    if s.up.unsent != [] && |s.up.wire| < c.up {
      step := PushUp(1);
    } else if s.up.unsent == [] && s.client.box.Some? {
      step := Take;
      TakeWires(s);
    } else if s.down.unsent != [] && |s.down.wire| < c.down {
      step := PushDown(1);
    } else if s.up.unsent != [] {
      step := ask;
      assert Ahead(s.up) != [];
      RecvWires(s, ask);
    } else if s.down.wire != [] {
      step := ClientRecv(1);
    } else {
      assert s.down.unsent == [] && Ahead(s.down) == [];
      NothingPending(s.down);
      assert PendingRequests(s) != [];
      if s.up.wire == [] { NothingPending(s.up); }
      step := ask;
      RecvWires(s, ask);
    }
  }

  lemma NothingPending(l: Link)
    requires Ahead(l) == []
    ensures Control(InFlight(l)) == []
  {
    DrainedLink(l);
  }

  lemma TakeWires(s: State)
    requires Enabled(s, Take)
    ensures Next(s, Take).up.wire == s.up.wire && Next(s, Take).down.wire == s.down.wire
  {
    hide NextRequest, Encode;
  }

  lemma {:induction false} SendAllWire(l: Link, fs: seq<Frame>)
    ensures SendAll(l, fs).wire == l.wire
    decreases |fs|
  {
    if fs != [] {
      SendAllWire(Send(l, fs[0]), fs[1..]);
    }
  }

  lemma RecvWires(s: State, step: Step)
    requires step.ServerRecv? && Enabled(s, step)
    ensures Next(s, step).up.wire == s.up.wire[step.n..] && Next(s, step).down.wire == s.down.wire
  {
    hide Run, Serve, SendAll;
    SendAllWire(s.down, Serve(s.server, Recv(s.up, step.n).1, step.envs).1);
  }

  /**
   * With a call outstanding a step forward is possible if and only if the session is
   * not jammed; once it is, no step of any kind is possible ever again.
   */
  lemma StuckIffJammed(s: State, c: Caps)
    requires Inv(s) && Tidy(s) && Within(s, c) && !s.client.call.Idle?
    requires c.up >= 1 && c.down >= 1
    ensures (exists step :: Forward(s, step, c)) <==> !Jammed(s, c)
    ensures Jammed(s, c) ==> forall step :: !Allowed(s, step, c)
  {
    hide Inv, Tidy, Enabled, Next, Jammed;
    if Jammed(s, c) {
      forall step ensures !Allowed(s, step, c) {
        JamStops(s, step, c);
      }
    } else {
      var step := StepForward(s, c);
    }
  }

  lemma JamStops(s: State, step: Step, c: Caps)
    requires Inv(s) && Jammed(s, c) && !s.client.call.Idle?
    ensures !Allowed(s, step, c)
  {
    hide Clean, InFlight, Control, Stage, M.SessionShape, Serve, Recv, Encode;
  }

  // ---- when a call completes ----

  /** The wire to the client holds what is on its way from sideband streams, and a reply. */
  ghost predicate ReplyFits(s: State, c: Caps) {
    |EncodeAll(Sidebands(InFlight(s.down)))| + 7 <= c.down
  }

  lemma OneReply(s: State)
    requires Inv(s) && s.client.connected
    ensures |Control(InFlight(s.down))| <= 1
    ensures forall p :: p in Control(InFlight(s.down)) ==> |p| == 1
  {
    hide Clean, InFlight, Control, Request, M.SessionShape, M.InSession;
    var q := Control(InFlight(s.down));
    if q != [] {
      assert PendingReplies(s)[|PendingReplies(s)| - 1] == q[|q| - 1];
    }
  }

  lemma ReplyFitsMeansNoJam(s: State, c: Caps)
    requires Inv(s) && Tidy(s) && s.client.connected && ReplyFits(s, c)
    ensures |Ahead(s.down)| <= c.down && !Jammed(s, c)
  {
    hide Inv, InFlight, Control, Sidebands, EncodeAll, Held;
    OneReply(s);
    QueueBytes(InFlight(s.down));
  }

  /** Steps forward bring no more sideband bytes. */
  lemma ForwardKeepsRoom(s: State, step: Step, c: Caps)
    requires Inv(s) && s.client.connected && Enabled(s, step) && Internal(step) && ReplyFits(s, c)
    ensures ReplyFits(Next(s, step), c)
  {
    hide Clean, InFlight, Control, Stage, M.SessionShape, Serve, Recv, Encode, EncodeAll, Sidebands, SinksAgree,
      Counted, Request, NextRequest;
    match step
    case Take => TakeWires(s);
    case ServerRecv(n, envs) =>
      var replies := Serve(s.server, Recv(s.up, n).1, envs).1;
      ServedReplies(s, n, envs);
      SendAllQueues(s.down, replies);
      SidebandsAppend(InFlight(s.down), replies);
      ServeRepliesOnly(s.server, Recv(s.up, n).1, envs);
      assert Sidebands(InFlight(s.down)) + [] == Sidebands(InFlight(s.down));
    case ClientRecv(n) =>
      var (down, fs) := Recv(s.down, n);
      RecvDequeues(s.down, n);
      SidebandsAppend(fs, InFlight(down));
      EncodeAllAppend(Sidebands(fs), Sidebands(InFlight(down)));
    case PushUp(_) =>
    case PushDown(k) => PushKeepsQueue(s.down, k);
  }

  predicate ForwardAll(s: State, steps: seq<Step>, c: Caps)
    decreases |steps|
  {
    steps == [] || (Forward(s, steps[0], c) && ForwardAll(Next(s, steps[0]), steps[1..], c))
  }

  lemma {:induction false} ForwardIsAllowed(s: State, steps: seq<Step>, c: Caps)
    requires ForwardAll(s, steps, c)
    ensures AllowedAll(s, steps, c) && EnabledAll(s, steps) && Prompt(s, steps)
    decreases |steps|
  {
    hide Enabled, Next, Within;
    if steps != [] {
      ForwardIsAllowed(Next(s, steps[0]), steps[1..], c);
    }
  }

  /** The steps take the outstanding call to its end, with a client that takes each reply as it comes. */
  predicate Carries(s: State, steps: seq<Step>, c: Caps) {
    ForwardAll(s, steps, c) && EnabledAll(s, steps) && After(s, steps).client.call.Idle?
  }

  /** From every reachable state in which the reply fits the outstanding call can be carried to its end. */
  lemma {:induction false} CallCompletes(s: State, c: Caps) returns (steps: seq<Step>)
    requires Inv(s) && Tidy(s) && Within(s, c) && ReplyFits(s, c) && c.up >= 1
    ensures Carries(s, steps, c)
    decreases Remaining(s.client.call), Distance(s), OnWires(s)
  {
    hide Enabled, Next, Remaining, Distance, OnWires, Tidy, Clean, InFlight, Stage, M.SessionShape, ReplyFits,
      SinksAgree, Counted, LinksAgree, Jammed;
    if s.client.call.Idle? {
      steps := [];
    } else {
      assert c.down >= 1 by { CapsHoldByte(s, c); }
      ReplyFitsMeansNoJam(s, c);
      var step := StepForward(s, c);
      InternalDecreases(s, step);
      StepTidy(s, step);
      ForwardKeepsRoom(s, step, c);
      var rest := CallCompletes(Next(s, step), c);
      steps := [step] + rest;
      assert steps[1..] == rest;
    }
  }

  lemma CapsHoldByte(s: State, c: Caps)
    requires ReplyFits(s, c)
    ensures c.down >= 7
  {
  }

  // ---- how a jam comes about ----

  /** Only the links differ. */
  predicate SameButLinks(s: State, t: State) {
    t.client == s.client && t.server == s.server
  }

  lemma OneStep(s: State, step: Step, c: Caps)
    requires Allowed(s, step, c)
    ensures AllowedAll(s, [step], c) && EnabledAll(s, [step]) && After(s, [step]) == Next(s, step)
  {
    hide Enabled, Next, Within;
    assert [step][1..] == [];
    assert AllowedAll(Next(s, step), [], c) && EnabledAll(Next(s, step), []);
    assert After(Next(s, step), []) == Next(s, step);
  }

  /** One more step in front of a run. */
  lemma StepThen(s: State, step: Step, rest: seq<Step>, c: Caps)
    requires Allowed(s, step, c) && AllowedAll(Next(s, step), rest, c)
    ensures AllowedAll(s, [step] + rest, c) && EnabledAll(s, [step] + rest) && EnabledAll(Next(s, step), rest)
    ensures After(s, [step] + rest) == After(Next(s, step), rest)
  {
    hide Enabled, Next, Within;
    OneStep(s, step, c);
    AllowedAppend(s, [step], rest, c);
  }

  /** A busy open stream blocks the server's write loop while the client does not read. */
  lemma {:induction false} BlockServer(s: State, k: Byte, c: Caps) returns (steps: seq<Step>)
    requires Live(s) && Within(s, c) && HasDescriptor(s.server, k)
    ensures AllowedAll(s, steps, c) && EnabledAll(s, steps)
    ensures var t := After(s, steps);
            SameButLinks(s, t) && t.up == s.up && t.down.unsent != [] && |t.down.wire| == c.down
    decreases c.down - |s.down.wire|, if s.down.unsent == [] then 1 else 0
  {
    hide AllowedAll, EnabledAll, After, Encode, M.HandleConnect, HasDescriptor;
    if s.down.unsent == [] {
      var step, f := StreamRead(k, [0]), Frame(k, [0]);
      assert SendAll(s.down, [f]) == Send(s.down, f) by {
        assert [f][1..] == [];
      }
      FrameLength(f);
      var rest := BlockServer(Next(s, step), k, c);
      StepThen(s, step, rest, c);
      steps := [step] + rest;
    } else if |s.down.wire| < c.down {
      var step := PushDown(1);
      var rest := BlockServer(Next(s, step), k, c);
      StepThen(s, step, rest, c);
      steps := [step] + rest;
    } else {
      steps := [];
      NoSteps(s, c);
    }
  }

  lemma NoSteps(s: State, c: Caps)
    ensures AllowedAll(s, [], c) && EnabledAll(s, []) && After(s, []) == s
  {
  }

  lemma FrameLength(f: Frame)
    ensures |Encode(f)| == 6 + |f.payload|
  {
  }

  /** Pushes while there is room and something to send. */
  lemma {:induction false} FillUp(s: State, c: Caps) returns (steps: seq<Step>)
    requires s.client.connected && Within(s, c)
    ensures AllowedAll(s, steps, c) && EnabledAll(s, steps)
    ensures var t := After(s, steps);
            && SameButLinks(s, t) && t.down == s.down && Ahead(t.up) == Ahead(s.up)
            && |t.up.wire| <= c.up && (t.up.unsent == [] || |t.up.wire| == c.up)
    decreases |s.up.unsent|
  {
    hide AllowedAll, EnabledAll, After;
    if s.up.unsent != [] && |s.up.wire| < c.up {
      var step := PushUp(1);
      PushKeepsQueue(s.up, 1);
      var rest := FillUp(Next(s, step), c);
      StepThen(s, step, rest, c);
      steps := [step] + rest;
    } else {
      steps := [];
      NoSteps(s, c);
    }
  }

  /** Sideband writes of the client, each through its loop, until less than a frame's room is left. */
  lemma {:induction false} CrowdUp(s: State, c: Caps) returns (steps: seq<Step>)
    requires ClientFree(s) && !Ends(s.client.call) && Within(s, c)
    ensures AllowedAll(s, steps, c) && EnabledAll(s, steps)
    ensures var t := After(s, steps);
            SameButLinks(s, t) && t.down == s.down && t.up.unsent == [] && |t.up.wire| <= c.up < |t.up.wire| + 7
    decreases c.up - |s.up.wire|
  {
    hide AllowedAll, EnabledAll, After, Encode;
    if |s.up.wire| + 7 <= c.up {
      var f := Frame(1, [0]);
      var step := ClientWrite(1, [0]);
      FrameLength(f);
      var s1 := Next(s, step);
      assert s1.up.unsent == Encode(f) by { assert [] + Encode(f) == Encode(f); }
      var s2 := Next(s1, PushUp(7));
      assert s2.up.unsent == [] && |s2.up.wire| == |s.up.wire| + 7;
      var rest := CrowdUp(s2, c);
      StepThen(s1, PushUp(7), rest, c);
      StepThen(s, step, [PushUp(7)] + rest, c);
      steps := [step] + ([PushUp(7)] + rest);
    } else {
      steps := [];
      NoSteps(s, c);
    }
  }

  lemma RequestLength(call: Call)
    requires !call.Idle? && WellFormed(call)
    ensures |Encode(Frame(0, Request(call)))| >= 7
  {
  }

  /** The client's request and the server's sideband frame, each stuck in its sender's loop. */
  lemma BlockClient(s: State, call: Call, c: Caps) returns (steps: seq<Step>)
    requires Enabled(s, Begin(call)) && Within(s, c) && |s.up.wire| <= c.up < |s.up.wire| + 7
    ensures AllowedAll(s, steps, c) && EnabledAll(s, steps)
    ensures var t := After(s, steps);
            && t.client.call == call && t.server == s.server && t.down == s.down
            && t.up.unsent != [] && |t.up.wire| == c.up
  {
    hide AllowedAll, EnabledAll, After, Encode, Request;
    var s1 := Next(s, Begin(call));
    RequestLength(call);
    assert Ahead(s1.up) == s.up.wire + Encode(Frame(0, Request(call)));
    var rest := FillUp(s1, c);
    StepThen(s, Begin(call), rest, c);
    steps := [Begin(call)] + rest;
  }

  /**
   * Whatever the wires hold: with an open stream in some slot, a client between two
   * calls and any call it makes next, there is a run that jams with that call
   * outstanding.
   */
  lemma JamReachable(s: State, k: Byte, call: Call, c: Caps) returns (steps: seq<Step>)
    requires Enabled(s, Begin(call)) && Live(s) && Within(s, c) && HasDescriptor(s.server, k)
    ensures AllowedAll(s, steps, c) && EnabledAll(s, steps)
    ensures Jammed(After(s, steps), c) && After(s, steps).client.call == call
  {
    hide AllowedAll, EnabledAll, After, Encode, WellFormed, HasDescriptor;
    var a := CrowdUp(s, c);
    var s1 := After(s, a);
    var b := BlockServer(s1, k, c);
    var s2 := After(s1, b);
    var d := BlockClient(s2, call, c);
    AllowedAppend(s, a, b, c);
    AllowedAppend(s, a + b, d, c);
    steps := a + b + d;
  }

  // ---- a wire too small for a reply ----

  lemma SmallSteps(s: State, step: Step, c: Caps)
    requires Enabled(s, step) && Within(s, c)
    requires step.ServerRecv? || (step.PushUp? && step.k == 1 && |s.up.wire| < c.up)
    ensures Allowed(s, step, c)
  {
    hide Recv, Serve;
    if step.ServerRecv? { RecvWires(s, step); }
  }

  /** The server answers the outstanding request, or still has it to come. */
  lemma RequestOrReply(s: State, n: nat, envs: seq<M.Env>)
    requires Inv(s) && Enabled(s, ServerRecv(n, envs)) && PendingRequests(s) != []
    ensures var t := Next(s, ServerRecv(n, envs));
            if Control(Recv(s.up, n).1) == [] then PendingRequests(t) != [] && t.down == s.down
            else |t.down.unsent| >= 7 && t.down.wire == s.down.wire
  {
    hide Clean, Recv, Serve, Request, M.SessionShape, M.InSession, M.Handle, Stage, Ready, Done,
      InFlight, Control, EndpointBytes, SinksAgree, Encode;
    var env := ServedOnce(s, n, envs);
    ReceiveUp(s, n);
    if Control(Recv(s.up, n).1) == [] {
      assert [] + PendingRequests(Next(s, ServerRecv(n, envs))) == PendingRequests(Next(s, ServerRecv(n, envs)));
    } else {
      var f := Frame(0, M.Handle(s.server, Request(s.client.call), env).1.value);
      assert SendAll(s.down, [f]) == Send(s.down, f) by { assert [f][1..] == []; }
      FrameLength(f);
    }
  }

  /** The request gets to the server, which starts to answer. */
  lemma {:induction false} BlockReply(s: State, c: Caps) returns (steps: seq<Step>)
    requires Inv(s) && Tidy(s) && Within(s, c) && c.up >= 1
    requires s.client.connected && PendingRequests(s) != [] && s.down.unsent == []
    ensures AllowedAll(s, steps, c) && EnabledAll(s, steps)
    ensures var t := After(s, steps);
            t.client == s.client && t.down.wire == s.down.wire && |t.down.unsent| >= 7
    decreases Distance(s), OnWires(s)
  {
    hide AllowedAll, EnabledAll, After, Clean, InFlight, Tight, Stage, M.SessionShape, Recv, Serve, Control, SinksAgree,
      LinksAgree, Counted, Sidebands;
    var step: Step;
    if s.up.unsent != [] && |s.up.wire| < c.up {
      step := PushUp(1);
      PushKeepsQueue(s.up, 1);
    } else {
      if Ahead(s.up) == [] { NothingPending(s.up); }
      step := ServerRecv(1, seq(|Recv(s.up, 1).1|, _ => M.Env(0, [])));
      RequestOrReply(s, 1, step.envs);
    }
    var t := Next(s, step);
    InternalDecreases(s, step);
    StepTidy(s, step);
    SmallSteps(s, step, c);
    var rest: seq<Step> := [];
    if t.down.unsent == [] {
      rest := BlockReply(t, c);
    } else {
      NoSteps(t, c);
    }
    StepThen(s, step, rest, c);
    steps := [step] + rest;
  }

  /** The server pushes while there is room and something to send. */
  lemma {:induction false} FillDown(s: State, c: Caps) returns (steps: seq<Step>)
    requires Within(s, c)
    ensures AllowedAll(s, steps, c) && EnabledAll(s, steps)
    ensures var t := After(s, steps);
            && SameButLinks(s, t) && t.up == s.up && Ahead(t.down) == Ahead(s.down)
            && |t.down.wire| <= c.down && (t.down.unsent == [] || |t.down.wire| == c.down)
    decreases |s.down.unsent|
  {
    hide AllowedAll, EnabledAll, After;
    if s.down.unsent != [] && |s.down.wire| < c.down {
      var step := PushDown(1);
      PushKeepsQueue(s.down, 1);
      var rest := FillDown(Next(s, step), c);
      StepThen(s, step, rest, c);
      steps := [step] + rest;
    } else {
      steps := [];
      NoSteps(s, c);
    }
  }

  /** Sideband writes until one is stuck in the client's loop. */
  lemma BlockWrites(s: State, c: Caps) returns (steps: seq<Step>)
    requires ClientFree(s) && !Ends(s.client.call) && Within(s, c)
    ensures AllowedAll(s, steps, c) && EnabledAll(s, steps)
    ensures var t := After(s, steps);
            SameButLinks(s, t) && t.down == s.down && t.up.unsent != [] && |t.up.wire| == c.up
  {
    hide AllowedAll, EnabledAll, After, Encode;
    var a := CrowdUp(s, c);
    var s1 := After(s, a);
    var f, step := Frame(1, [0]), ClientWrite(1, [0]);
    FrameLength(f);
    var s2 := Next(s1, step);
    assert Ahead(s2.up) == s1.up.wire + Encode(f);
    var rest := FillUp(s2, c);
    StepThen(s1, step, rest, c);
    AllowedAppend(s, a, [step] + rest, c);
    steps := a + ([step] + rest);
  }

  /** Even without sideband slots: a reply that does not fit the wire meets a client that is writing. */
  lemma JamOnReply(s: State, c: Caps) returns (steps: seq<Step>)
    requires Inv(s) && Tidy(s) && Within(s, c) && c.up >= 1 && c.down < 7
    requires ClientFree(s) && s.client.call.Idle? && s.down == FRESH
    ensures AllowedAll(s, steps, c) && EnabledAll(s, steps)
    ensures Jammed(After(s, steps), c) && !After(s, steps).client.call.Idle?
  {
    hide AllowedAll, EnabledAll, After, Encode, Inv, Tidy, InFlight, Control, Request;
    var begin := Begin(Config(true));
    var s1 := Next(s, begin);
    StepKeeps(s, begin);
    StepTidy(s, begin);
    RequestOut(s, Config(true));
    var a := BlockReply(s1, c);
    var s2 := After(s1, a);
    AllowedIsEnabled(s1, a, c);
    var b := FillDown(s2, c);
    var s3 := After(s2, b);
    var d := FillUp(s3, c);
    var s4 := After(s3, d);
    AllowedAppend(s1, a, b, c);
    AllowedAppend(s1, a + b, d, c);
    var rest := a + b + d;
    if s4.up.unsent == [] {
      var e := BlockWrites(s4, c);
      AllowedAppend(s1, a + b + d, e, c);
      rest := a + b + d + e;
    }
    StepThen(s, begin, rest, c);
    steps := [begin] + rest;
  }

  lemma RequestOut(s: State, call: Call)
    requires Inv(s) && Enabled(s, Begin(call))
    ensures PendingRequests(Next(s, Begin(call))) != []
  {
    hide Encode, Run, Room, NextRequest, Request, M.SessionShape;
    RequestSendable(call);
    SendUpKeeps(s.(client := s.client.(call := call)), Frame(0, Request(call)));
  }
}
