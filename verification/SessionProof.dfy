/** What every run of client and server keeps, and what follows for whole calls. */
module SessionProof {
  import opened Bytes
  import opened Frames
  import opened Protocol
  import opened Link
  import opened Session
  import C = ClientModel
  import M = ServerModel
  import T = Transfers

  // ---- the invariant ----

  function PendingRequests(s: State): seq<seq<Byte>> {
    Control(InFlight(s.up))
  }

  function BoxList(box: Option<seq<Byte>>): seq<seq<Byte>> {
    if box.Some? then [box.value] else []
  }

  /** Replies the client has not consumed: on the wire or in the mailbox. */
  function PendingReplies(s: State): seq<seq<Byte>> {
    BoxList(s.client.box) + Control(InFlight(s.down))
  }

  /** Completed `program` calls against backend calls: same files in the same order, same verdicts. */
  predicate Matches(finished: seq<Finished>, programmed: seq<M.Programmed>) {
    && |finished| == |programmed|
    && forall i :: 0 <= i < |finished| ==>
         && finished[i].file == programmed[i].image
         && finished[i].ret == if programmed[i].status == 0 then 0 else -1
  }

  predicate InService(server: M.Server) {
    M.InSession(server) && !server.shutdownReq
  }

  /** The server before it has seen the outstanding request. */
  predicate Ready(call: Call, server: M.Server, finished: seq<Finished>)
    requires WellFormed(call)
  {
    && InService(server)
    && Matches(finished, server.programmed)
    && server.image == if call.Program? && call.from > 0
                       then Some(M.Image(|call.file|, call.file[..call.from])) else None
  }

  /** The server after the outstanding request, which it answered with `reply`. */
  predicate Done(call: Call, server: M.Server, finished: seq<Finished>, reply: seq<Byte>)
    requires WellFormed(call)
  {
    match call
    case Idle => false
    case Program(file, from) =>
      var n := Advance(file, from);
      && InService(server)
      && (if n < |file| then
            && server.image == Some(M.Image(|file|, file[..n]))
            && Matches(finished, server.programmed) && reply == [1]
          else
            && server.image.None? && |server.programmed| == |finished| + 1
            && Matches(finished, server.programmed[..|finished|])
            && server.programmed[|finished|].image == file
            && reply == [if server.programmed[|finished|].status == 0 then 1 else 0])
    case Config(_) =>
      InService(server) && server.image.None? && Matches(finished, server.programmed) && reply == [1]
    case Close =>
      && M.Waiting(server) && !server.shutdownReq
      && server.image.None? && Matches(finished, server.programmed) && reply == [1]
    case Shutdown =>
      server.shutdownReq && server.image.None? && Matches(finished, server.programmed) && reply == [1]
  }

  /** No call outstanding. */
  ghost predicate AtRest(s: State) {
    && PendingRequests(s) == [] && PendingReplies(s) == []
    && Ready(Idle, s.server, s.finished)
  }

  /** The outstanding request is on its way, and is the last thing on the wire when it ends the session. */
  ghost predicate Asked(s: State)
    requires !s.client.call.Idle? && WellFormed(s.client.call)
  {
    var req := Request(s.client.call);
    && PendingRequests(s) == [req] && PendingReplies(s) == []
    && Ready(s.client.call, s.server, s.finished)
    && (Ends(s.client.call) ==> var q := InFlight(s.up); q != [] && q[|q| - 1] == Frame(0, req))
  }

  ghost predicate Answered(s: State)
    requires WellFormed(s.client.call)
  {
    && PendingRequests(s) == [] && |PendingReplies(s)| == 1
    && Done(s.client.call, s.server, s.finished, PendingReplies(s)[0])
  }

  ghost predicate Stage(s: State)
    requires WellFormed(s.client.call)
  {
    if s.client.call.Idle? then AtRest(s) else Asked(s) || Answered(s)
  }

  ghost predicate Disconnected(s: State) {
    && s.client.call.Idle? && s.client.box.None?
    && s.server.image.None? && Matches(s.finished, s.server.programmed)
  }

  /** Histories and wires agree; replies never show up on a sideband endpoint. */
  ghost predicate LinksAgree(s: State) {
    && Clean(s.up) && Clean(s.down)
    && s.sentUp == s.gotUp + InFlight(s.up)
    && s.sentDown == s.gotDown + InFlight(s.down)
    && (forall ep: Byte :: ep != 0 ==> EndpointBytes(s.sentDown, ep) == EndpointBytes(s.streamed, ep))
  }

  ghost predicate SinksAgree(s: State) {
    forall ep :: ep in s.client.sinks && ep != 0 ==>
      s.client.sinks[ep].missed + s.client.sinks[ep].bytes == EndpointBytes(s.gotDown, ep)
  }

  /** Requests sent are the replies consumed and, at most, the one outstanding. */
  predicate Counted(s: State) {
    |Control(s.sentUp)| == s.taken + if s.client.call.Idle? then 0 else 1
  }

  ghost predicate Inv(s: State) {
    && M.SessionShape(s.server)
    && |s.server.streams| <= 256
    && WellFormed(s.client.call)
    && (if s.client.connected then
          && LinksAgree(s) && SinksAgree(s) && Counted(s)
          && Stage(s)
        else Disconnected(s))
  }

  // ---- small facts ----

  /** The stage is a matter of the call, the server and what is pending. */
  lemma StageSame(s: State, t: State)
    requires WellFormed(s.client.call) && Stage(s)
    requires t.client.call == s.client.call && t.server == s.server && t.finished == s.finished
    requires PendingRequests(t) == PendingRequests(s) && PendingReplies(t) == PendingReplies(s)
    requires Ends(s.client.call) ==> InFlight(t.up) == InFlight(s.up)
    ensures Stage(t)
  {
    hide Ready, Done, Request, InFlight, Control;
  }

  /** The wire got shorter by frames that carry no request: the last frame is still the last. */
  lemma StageSameShorter(s: State, t: State, fs: seq<Frame>)
    requires WellFormed(s.client.call) && Stage(s)
    requires t.client == s.client && t.server == s.server && t.finished == s.finished && t.down == s.down
    requires InFlight(s.up) == fs + InFlight(t.up) && Control(fs) == [] && PendingRequests(t) == PendingRequests(s)
    ensures Stage(t)
  {
    hide Ready, Done, Request, InFlight;
    if !s.client.call.Idle? && Asked(s) && Ends(s.client.call) {
      assert InFlight(t.up) != [];
      assert InFlight(t.up)[|InFlight(t.up)| - 1] == InFlight(s.up)[|InFlight(s.up)| - 1];
    }
  }

  /** What is outstanding can only be a request before it is seen, alone on its way. */
  lemma StageRequest(s: State)
    requires WellFormed(s.client.call) && Stage(s) && PendingRequests(s) != []
    ensures !s.client.call.Idle? && PendingRequests(s) == [Request(s.client.call)] && PendingReplies(s) == []
    ensures Ready(s.client.call, s.server, s.finished)
  {
    hide Ready, Done, Request, InFlight, Control;
  }

  lemma StageAnswered(t: State, reply: seq<Byte>)
    requires !t.client.call.Idle? && WellFormed(t.client.call)
    requires PendingRequests(t) == [] && PendingReplies(t) == [reply]
    requires Done(t.client.call, t.server, t.finished, reply)
    ensures Stage(t)
  {
    hide Done, InFlight, Control;
  }

  lemma {:induction false} AcceptIsLast(box: Option<seq<Byte>>, fs: seq<Frame>)
    ensures var c := Control(fs);
            C.Accept(box, fs) == if c == [] then box else Some(c[|c| - 1])
    decreases |fs|
  {
    if fs != [] {
      AcceptIsLast(if fs[0].ep == 0 then Some(fs[0].payload) else box, fs[1..]);
    }
  }

  /** Only slot 0 of a session's table leads to the server object. */
  predicate Routes(server: M.Server) {
    server.handler.Some? ==>
      && |server.handler.value| > 0 && server.handler.value[0] == Some(M.ServerRef)
      && forall ep :: 0 < ep < |server.handler.value| ==> server.handler.value[ep] != Some(M.ServerRef)
  }

  lemma SessionRoutes(server: M.Server)
    requires M.InSession(server)
    ensures Routes(server)
  {
    var n := |server.streams|;
    forall ep | 0 < ep < |server.handler.value|
      ensures server.handler.value[ep] != Some(M.ServerRef)
    {
      if n > 1 {
        M.TablesInOrder(n, 1);
        M.TablesInOrder(n, ep);
      }
    }
  }

  lemma HandleKeepsRoutes(server: M.Server, p: seq<Byte>, env: M.Env)
    requires Routes(server)
    ensures Routes(M.Handle(server, p, env).0)
  {
  }

  /** Frames that carry no request leave the server alone. */
  lemma {:induction false} ServeQuiet(server: M.Server, fs: seq<Frame>, envs: seq<M.Env>)
    requires |envs| == |fs| && Routes(server) && Control(fs) == []
    ensures Serve(server, fs, envs) == (server, []) && ServedSafely(server, fs, envs)
    decreases |fs|
  {
    if fs != [] {
      assert fs[0].ep != 0;
      ServeQuiet(server, fs[1..], envs[1..]);
    }
  }

  /** One request among them is handled once, wherever it stands. */
  lemma {:induction false} ServeOne(server: M.Server, fs: seq<Frame>, envs: seq<M.Env>, p: seq<Byte>)
    returns (env: M.Env)
    requires |envs| == |fs| && Routes(server) && server.handler.Some? && Control(fs) == [p]
    ensures var (server', reply) := M.Handle(server, p, env);
            Serve(server, fs, envs) == (server', if reply.Some? then [Frame(0, reply.value)] else [])
    ensures M.FitsImage(server, p) ==> ServedSafely(server, fs, envs)
    decreases |fs|
  {
    hide M.Handle, M.FitsImage;
    if fs[0].ep == 0 {
      env := envs[0];
      assert Control(fs)[0] == fs[0].payload && Control(fs)[1..] == Control(fs[1..]);
      assert p == fs[0].payload && Control(fs[1..]) == [];
      var (server', reply) := M.Handle(server, p, env);
      HandleKeepsRoutes(server, p, env);
      ServeQuiet(server', fs[1..], envs[1..]);
      assert ToServer(server, 0) && Serve(server', fs[1..], envs[1..]) == (server', []);
      var out := if reply.Some? then [Frame(0, reply.value)] else [];
      assert out + [] == out;
    } else {
      assert !ToServer(server, fs[0].ep) && Control(fs) == Control(fs[1..]);
      env := ServeOne(server, fs[1..], envs[1..], p);
    }
  }

  // ---- what the outstanding request does to the server ----

  lemma HandleProgramCall(server: M.Server, file: seq<Byte>, from: nat, finished: seq<Finished>, env: M.Env)
    requires WellFormed(Program(file, from)) && Ready(Program(file, from), server, finished)
    ensures var p := NextRequest(file, from);
            var (server', reply) := M.Handle(server, p, env);
            && M.FitsImage(server, p)
            && |server'.streams| == |server.streams|
            && reply.Some? && Done(Program(file, from), server', finished, reply.value)
  {
    var n := Advance(file, from);
    var sofar, data := file[..from], file[from..n];
    assert sofar + data == file[..n] && (n == |file| ==> file[..n] == file);
    T.ReceiveChunk(server, T.Chunk(data), env, |file|, from, |file|, sofar);
    ParseProgramRequest(|file|, n >= |file|, data);
    M.SessionStep(server, M.Request(NextRequest(file, from), env));
    var server' := M.Handle(server, NextRequest(file, from), env).0;
    assert InService(server');
    assert server.programmed == (server.programmed + [M.Programmed(file, env.status)])[..|finished|];
  }

  lemma HandleOther(server: M.Server, call: Call, finished: seq<Finished>, env: M.Env)
    requires !call.Idle? && !call.Program? && WellFormed(call) && Ready(call, server, finished)
    ensures var p := Request(call);
            var (server', reply) := M.Handle(server, p, env);
            && M.FitsImage(server, p)
            && |server'.streams| == |server.streams| && M.SessionShape(server')
            && reply.Some? && Done(call, server', finished, reply.value)
  {
  }

  lemma HandleOutstanding(server: M.Server, call: Call, finished: seq<Finished>, env: M.Env)
    requires !call.Idle? && WellFormed(call) && Ready(call, server, finished)
    ensures var p := Request(call);
            var (server', reply) := M.Handle(server, p, env);
            && M.FitsImage(server, p)
            && |server'.streams| == |server.streams| && M.SessionShape(server')
            && reply.Some? && |reply.value| == 1 && Done(call, server', finished, reply.value)
  {
    if call.Program? {
      HandleProgramCall(server, call.file, call.from, finished, env);
    } else {
      HandleOther(server, call, finished, env);
    }
  }

  // ---- each step keeps the invariant ----

  lemma SendUpKeeps(s: State, f: Frame)
    requires LinksAgree(s) && Sendable(f)
    ensures LinksAgree(SendUp(s, f))
    ensures InFlight(SendUp(s, f).up) == InFlight(s.up) + [f]
    ensures PendingRequests(SendUp(s, f)) == PendingRequests(s) + if f.ep == 0 then [f.payload] else []
    ensures Control(SendUp(s, f).sentUp) == Control(s.sentUp) + if f.ep == 0 then [f.payload] else []
  {
    hide Encode, Run, Room;
    SendQueues(s.up, f);
    ControlAppend(InFlight(s.up), [f]);
    ControlAppend(s.sentUp, [f]);
    OneFrame(f);
    assert s.gotUp + (InFlight(s.up) + [f]) == s.gotUp + InFlight(s.up) + [f];
  }

  lemma SendDownKeeps(s: State, fs: seq<Frame>)
    requires LinksAgree(s) && forall f :: f in fs ==> Sendable(f)
    ensures var t := SendDown(s, fs);
            && Clean(t.down) && t.sentDown == t.gotDown + InFlight(t.down)
            && Control(InFlight(t.down)) == Control(InFlight(s.down)) + Control(fs)
            && forall ep: Byte :: EndpointBytes(t.sentDown, ep) == EndpointBytes(s.sentDown, ep) + EndpointBytes(fs, ep)
  {
    hide Encode, Run, Room;
    SendAllQueues(s.down, fs);
    ControlAppend(InFlight(s.down), fs);
    forall ep: Byte
      ensures EndpointBytes(s.sentDown + fs, ep) == EndpointBytes(s.sentDown, ep) + EndpointBytes(fs, ep)
    {
      EndpointBytesAppend(s.sentDown, fs, ep);
    }
    assert s.gotDown + (InFlight(s.down) + fs) == s.gotDown + InFlight(s.down) + fs;
  }

  lemma PushUpKeeps(s: State, k: nat)
    requires Inv(s) && Enabled(s, PushUp(k))
    ensures Inv(Next(s, PushUp(k)))
  {
    hide Clean, InFlight, Control, EndpointBytes, M.SessionShape, Stage, SinksAgree;
    var t := Next(s, PushUp(k));
    PushKeepsQueue(s.up, k);
    StageSame(s, t);
    SameSinks(s, t);
  }

  lemma PushDownKeeps(s: State, k: nat)
    requires Inv(s) && Enabled(s, PushDown(k))
    ensures Inv(Next(s, PushDown(k)))
  {
    hide Clean, InFlight, Control, EndpointBytes, M.SessionShape, Stage, SinksAgree;
    var t := Next(s, PushDown(k));
    if s.client.connected {
      PushKeepsQueue(s.down, k);
      StageSame(s, t);
      SameSinks(s, t);
    }
  }

  lemma ConnectKeeps(s: State)
    requires Inv(s) && Enabled(s, Connect)
    ensures Inv(Next(s, Connect))
  {
    FreshLink();
    M.SessionStep(s.server, M.Connect);
  }

  lemma RequestSendable(call: Call)
    requires !call.Idle? && WellFormed(call)
    ensures Sendable(Frame(0, Request(call)))
  {
  }

  lemma BeginKeeps(s: State, call: Call)
    requires Inv(s) && Enabled(s, Begin(call))
    ensures Inv(Next(s, Begin(call)))
  {
    hide Encode, Run, Room, NextRequest, Request, M.SessionShape;
    var s1 := s.(client := s.client.(call := call));
    RequestSendable(call);
    SendUpKeeps(s1, Frame(0, Request(call)));
  }

  lemma ClientWriteKeeps(s: State, ep: Byte, data: seq<Byte>)
    requires Inv(s) && Enabled(s, ClientWrite(ep, data))
    ensures Inv(Next(s, ClientWrite(ep, data)))
  {
    hide Encode, Run, Room, NextRequest, Request, M.SessionShape;
    SendUpKeeps(s, Frame(ep, data));
  }

  lemma StreamReadLinks(s: State, f: Frame)
    requires LinksAgree(s) && f.ep != 0 && Sendable(f)
    ensures var t := SendDown(s, [f]).(streamed := s.streamed + [f]);
            LinksAgree(t) && Control(InFlight(t.down)) == Control(InFlight(s.down))
  {
    hide Encode, Run, Room;
    SendDownKeeps(s, [f]);
    OneFrame(f);
    forall e: Byte ensures EndpointBytes(s.streamed + [f], e) == EndpointBytes(s.streamed, e) + EndpointBytes([f], e) {
      EndpointBytesAppend(s.streamed, [f], e);
    }
    assert Control(InFlight(s.down)) + [] == Control(InFlight(s.down));
  }

  lemma StreamReadKeeps(s: State, ep: Byte, data: seq<Byte>)
    requires Inv(s) && Enabled(s, StreamRead(ep, data))
    ensures Inv(Next(s, StreamRead(ep, data)))
  {
    hide LinksAgree, InFlight, Control, EndpointBytes, M.SessionShape, Stage, SinksAgree, SendAll;
    var t := Next(s, StreamRead(ep, data));
    StreamReadLinks(s, Frame(ep, data));
    StageSame(s, t);
    SameSinks(s, t);
  }

  lemma RegisterKeeps(s: State, ep: Byte)
    requires Inv(s) && Enabled(s, Register(ep))
    ensures Inv(Next(s, Register(ep)))
  {
    hide Encode, Run, Room, NextRequest, Request, M.SessionShape;
    assert EndpointBytes(s.gotDown, ep) + [] == EndpointBytes(s.gotDown, ep);
  }

  lemma ReapKeeps(s: State)
    requires Inv(s) && Enabled(s, Reap)
    ensures Inv(Next(s, Reap))
  {
    hide Encode, Run, Room, NextRequest, Request;
  }

  lemma ClientRecvKeeps(s: State, n: nat)
    requires Inv(s) && Enabled(s, ClientRecv(n))
    ensures Inv(Next(s, ClientRecv(n)))
  {
    hide Clean, Recv, Request, M.SessionShape, Stage, InFlight, Control, C.Accept, Feed, EndpointBytes;
    var (down, fs) := Recv(s.down, n);
    ReceiveDown(s, n);
    var t := Next(s, ClientRecv(n));
    RepliesMove(s, fs, down);
    FeedKeeps(s, fs);
    StageSame(s, t);
  }

  /** A reply that arrives goes from the wire to the empty mailbox. */
  lemma RepliesMove(s: State, fs: seq<Frame>, down: Link)
    requires WellFormed(s.client.call) && Stage(s)
    requires Control(InFlight(s.down)) == Control(fs) + Control(InFlight(down))
    ensures BoxList(C.Accept(s.client.box, fs)) + Control(InFlight(down)) == PendingReplies(s)
  {
    hide InFlight, Control, Ready, Done, Request, C.Accept;
    AcceptIsLast(s.client.box, fs);
    assert |PendingReplies(s)| <= 1;
  }

  lemma FeedKeeps(s: State, fs: seq<Frame>)
    requires SinksAgree(s)
    requires forall ep :: EndpointBytes(s.gotDown + fs, ep) == EndpointBytes(s.gotDown, ep) + EndpointBytes(fs, ep)
    ensures var fed := Feed(s.client.sinks, fs);
            forall ep :: ep in fed && ep != 0 ==> fed[ep].missed + fed[ep].bytes == EndpointBytes(s.gotDown + fs, ep)
  {
    hide EndpointBytes;
  }

  lemma ReceiveDown(s: State, n: nat)
    requires LinksAgree(s) && n <= |s.down.wire|
    ensures var (down, fs) := Recv(s.down, n);
            && LinksAgree(s.(down := down, gotDown := s.gotDown + fs))
            && InFlight(s.down) == fs + InFlight(down)
            && Control(InFlight(s.down)) == Control(fs) + Control(InFlight(down))
            && forall ep :: EndpointBytes(s.gotDown + fs, ep) == EndpointBytes(s.gotDown, ep) + EndpointBytes(fs, ep)
  {
    hide Encode, Run, Room;
    var (down, fs) := Recv(s.down, n);
    RecvDequeues(s.down, n);
    ControlAppend(fs, InFlight(down));
    assert s.gotDown + (fs + InFlight(down)) == s.gotDown + fs + InFlight(down);
    forall ep ensures EndpointBytes(s.gotDown + fs, ep) == EndpointBytes(s.gotDown, ep) + EndpointBytes(fs, ep) {
      EndpointBytesAppend(s.gotDown, fs, ep);
    }
  }

  lemma TakeKeeps(s: State)
    requires Inv(s) && Enabled(s, Take)
    ensures Inv(Next(s, Take))
  {
    hide Encode, Run, Room, NextRequest, M.SessionShape;
    var c := s.client;
    var s1 := s.(taken := s.taken + 1, client := c.(box := None));
    if c.call.Program? && Advance(c.call.file, c.call.from) < |c.call.file| {
      var call := Program(c.call.file, Advance(c.call.file, c.call.from));
      var s2 := s1.(client := s1.client.(call := call));
      RequestSendable(call);
      SendUpKeeps(s2, Frame(0, Request(call)));
    }
  }

  lemma LiveIsSession(s: State)
    requires M.SessionShape(s.server) && Live(s)
    ensures M.InSession(s.server)
  {
  }

  /** The server's side of a receive, before what it received is looked at. */
  lemma ReceiveUp(s: State, n: nat)
    requires LinksAgree(s) && n <= |s.up.wire|
    ensures var (up, fs) := Recv(s.up, n);
            && LinksAgree(s.(up := up, gotUp := s.gotUp + fs))
            && InFlight(s.up) == fs + InFlight(up)
            && PendingRequests(s) == Control(fs) + Control(InFlight(up))
  {
    hide Encode, Run, Room;
    var (up, fs) := Recv(s.up, n);
    RecvDequeues(s.up, n);
    ControlAppend(fs, InFlight(up));
    assert s.gotUp + (fs + InFlight(up)) == s.gotUp + fs + InFlight(up);
  }

  /** What one receive makes the server do: nothing, or the outstanding request once. */
  lemma ServedOnce(s: State, n: nat, envs: seq<M.Env>) returns (env: M.Env)
    requires Inv(s) && Enabled(s, ServerRecv(n, envs))
    ensures var fs, call := Recv(s.up, n).1, s.client.call;
            if Control(fs) == [] then Serve(s.server, fs, envs) == (s.server, [])
            else
              && !call.Idle? && Ready(call, s.server, s.finished)
              && Control(fs) == [Request(call)] == PendingRequests(s)
              && var (server', reply) := M.Handle(s.server, Request(call), env);
                 && reply.Some? && |reply.value| == 1 && Done(call, server', s.finished, reply.value)
                 && Serve(s.server, fs, envs) == (server', [Frame(0, reply.value)])
  {
    hide Clean, Recv, Serve, Request, M.SessionShape, M.InSession, M.Handle, M.FitsImage, Stage, Ready, Done,
      InFlight, Control, EndpointBytes, SinksAgree;
    var fs := Recv(s.up, n).1;
    env := M.Env(0, []);
    LiveIsSession(s);
    SessionRoutes(s.server);
    if Control(fs) == [] {
      ServeQuiet(s.server, fs, envs);
    } else {
      ReceiveUp(s, n);
      StageRequest(s);
      assert Control(fs) == [Request(s.client.call)];
      env := ServeOne(s.server, fs, envs, Request(s.client.call));
      HandleOutstanding(s.server, s.client.call, s.finished, env);
    }
  }

  lemma ServerRecvQuiet(s: State, n: nat, envs: seq<M.Env>)
    requires Inv(s) && Enabled(s, ServerRecv(n, envs)) && Control(Recv(s.up, n).1) == []
    ensures Inv(Next(s, ServerRecv(n, envs)))
    ensures ServedSafely(s.server, Recv(s.up, n).1, envs)
  {
    hide Clean, Recv, Serve, Request, M.SessionShape, M.InSession, Stage, InFlight, Control, EndpointBytes, SinksAgree;
    var (up, fs) := Recv(s.up, n);
    LiveIsSession(s);
    SessionRoutes(s.server);
    ReceiveUp(s, n);
    ServeQuiet(s.server, fs, envs);
    var t := s.(up := up, gotUp := s.gotUp + fs);
    assert Next(s, ServerRecv(n, envs)) == t by {
      assert s.sentDown + [] == s.sentDown;
    }
    assert [] + Control(InFlight(up)) == Control(InFlight(up));
    StageSameShorter(s, t, fs);
    assert SinksAgree(t) by { SameSinks(s, t); }
  }

  lemma SameSinks(s: State, t: State)
    requires SinksAgree(s) && t.client.sinks == s.client.sinks && t.gotDown == s.gotDown
    ensures SinksAgree(t)
  {
  }

  lemma ServerRecvRequest(s: State, n: nat, envs: seq<M.Env>)
    requires Inv(s) && Enabled(s, ServerRecv(n, envs)) && Control(Recv(s.up, n).1) != []
    ensures Inv(Next(s, ServerRecv(n, envs)))
    ensures ServedSafely(s.server, Recv(s.up, n).1, envs)
  {
    hide Clean, Recv, Serve, Request, M.SessionShape, M.InSession, M.Handle, M.FitsImage, Stage, Ready, Done,
      InFlight, Control, EndpointBytes, SinksAgree;
    var (up, fs) := Recv(s.up, n);
    LiveIsSession(s);
    SessionRoutes(s.server);
    ReceiveUp(s, n);
    StageRequest(s);
    var req := Request(s.client.call);
    assert Control(fs) == [req] && Control(InFlight(up)) == [];
    var env := ServeOne(s.server, fs, envs, req);
    HandleOutstanding(s.server, s.client.call, s.finished, env);
    var reply := M.Handle(s.server, req, env).1.value;
    var f := Frame(0, reply);
    OneFrame(f);
    var s1, t := s.(up := up, gotUp := s.gotUp + fs), Next(s, ServerRecv(n, envs));
    SendDownKeeps(s1, [f]);
    assert PendingReplies(t) == [reply] by {
      assert PendingReplies(s) == [];
    }
    StageAnswered(t, reply);
    SameSinks(s, t);
  }

  lemma ServerRecvKeeps(s: State, n: nat, envs: seq<M.Env>)
    requires Inv(s) && Enabled(s, ServerRecv(n, envs))
    ensures Inv(Next(s, ServerRecv(n, envs)))
    ensures ServedSafely(s.server, Recv(s.up, n).1, envs)
  {
    hide Inv;
    if Control(Recv(s.up, n).1) == [] {
      ServerRecvQuiet(s, n, envs);
    } else {
      ServerRecvRequest(s, n, envs);
    }
  }
}
