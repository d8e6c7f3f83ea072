/**
 * Which servers, and which clients of them, never lose a call to a jam. What matters
 * is whether a stream can come to be open: a closed one is never read.
 */
module CallsComplete {
  import opened Bytes
  import opened Frames
  import opened Link
  import opened Protocol
  import opened Session
  import opened SessionProof
  import opened SessionTheorems
  import opened Capacity
  import M = ServerModel

  /** The server reads the slot's stream, or will once it has opened its sideband streams. */
  predicate CanBeRead(server: M.Server, k: nat) {
    1 <= k < |server.streams| && server.streams[k].Stream? && (server.streams[k].sideband || server.streams[k].open)
  }

  predicate NoSideband(server: M.Server) {
    forall k :: 1 <= k < |server.streams| && server.streams[k].Stream? ==> !server.streams[k].sideband
  }

  predicate NothingOpen(server: M.Server) {
    forall k :: 1 <= k < |server.streams| && server.streams[k].Stream? ==> !server.streams[k].open
  }

  /** The call that has the server open its sideband streams. */
  const SWITCH_ON: Call := Config(true)

  // ---- runs in which no stream is open ----

  /** No stream can be read, nothing that was read is on its way, and nothing outstanding changes that. */
  ghost predicate Mute(s: State) {
    && NothingOpen(s.server)
    && (s.client.connected ==> Sidebands(InFlight(s.down)) == [])
    && (s.client.call == SWITCH_ON ==> NoSideband(s.server))
  }

  predicate SwitchesOn(p: seq<Byte>) {
    TypeOf(p) == MSG_CONFIG_SIDEBAND && ConfigArgument(p) != 0
  }

  lemma OnlyOneSwitchesOn(call: Call)
    requires !call.Idle? && WellFormed(call)
    ensures SwitchesOn(Request(call)) <==> call == SWITCH_ON
  {
    if call.Program? {
      var n := Advance(call.file, call.from);
      ParseProgramRequest(|call.file|, n >= |call.file|, call.file[call.from..n]);
    }
  }

  lemma HandleMute(server: M.Server, p: seq<Byte>, env: M.Env)
    requires NothingOpen(server) && (SwitchesOn(p) ==> NoSideband(server))
    ensures var u := M.Handle(server, p, env).0;
            NothingOpen(u) && (NoSideband(u) <==> NoSideband(server))
  {
    hide ParseProgram, ConfigArgument;
    var u := M.Handle(server, p, env).0;
    assert |u.streams| == |server.streams|;
    forall k | 1 <= k < |u.streams|
      ensures u.streams[k].Stream? ==> !u.streams[k].open
      ensures u.streams[k].Stream? <==> server.streams[k].Stream?
      ensures u.streams[k].Stream? ==> u.streams[k].sideband == server.streams[k].sideband
    {
      assert server.streams[k].Stream? ==> !server.streams[k].open;
    }
  }

  lemma StepMute(s: State, step: Step)
    requires Inv(s) && Mute(s) && Enabled(s, step) && (step == Begin(SWITCH_ON) ==> NoSideband(s.server))
    ensures Mute(Next(s, step)) && (NoSideband(Next(s, step).server) <==> NoSideband(s.server))
  {
    hide Clean, Recv, Serve, Request, M.SessionShape, M.InSession, M.Handle, Stage, Ready, Done, InFlight, Control,
      EndpointBytes, SinksAgree, Encode, NextRequest, Sidebands;
    match step
    case ServerRecv(n, envs) =>
      var replies := Serve(s.server, Recv(s.up, n).1, envs).1;
      var env := ServedOnce(s, n, envs);
      if Control(Recv(s.up, n).1) != [] {
        OnlyOneSwitchesOn(s.client.call);
        HandleMute(s.server, Request(s.client.call), env);
      }
      ServedReplies(s, n, envs);
      ServeRepliesOnly(s.server, Recv(s.up, n).1, envs);
      SendAllQueues(s.down, replies);
      SidebandsAppend(InFlight(s.down), replies);
    case ClientRecv(n) =>
      RecvDequeues(s.down, n);
      SidebandsAppend(Recv(s.down, n).1, InFlight(Recv(s.down, n).0));
    case PushDown(k) => PushKeepsQueue(s.down, k);
    case Connect => FreshMute(s);
    case StreamRead(ep, _) => assert false;
    case _ =>
  }

  lemma FreshMute(s: State)
    requires Enabled(s, Connect) && NothingOpen(s.server) && (s.client.call == SWITCH_ON ==> NoSideband(s.server))
    ensures Mute(Next(s, Connect))
  {
    FreshLink();
  }

  /** A run may open streams only where there are none to open. */
  predicate LeavesClosed(s: State, steps: seq<Step>) {
    NoSideband(s.server) || Begin(SWITCH_ON) !in steps
  }

  lemma {:induction false} RunMute(s: State, steps: seq<Step>)
    requires Inv(s) && Mute(s) && EnabledAll(s, steps) && LeavesClosed(s, steps)
    ensures Mute(After(s, steps))
    decreases |steps|
  {
    hide Inv, Mute, Enabled, Next, NoSideband;
    if steps != [] {
      StepKeeps(s, steps[0]);
      StepMute(s, steps[0]);
      RunMute(Next(s, steps[0]), steps[1..]);
    }
  }

  // ---- completion ----

  ghost predicate CanComplete(s: State, c: Caps) {
    exists steps :: Carries(s, steps, c)
  }

  lemma InitialTidy(s: State)
    requires Initial(s)
    ensures Tidy(s)
  {
  }

  lemma InitialMute(s: State)
    requires Initial(s) && NothingOpen(s.server)
    ensures Mute(s)
  {
  }

  /**
   * A server that is started with no stream open, and a client that never has it open
   * its sideband streams, or a server without any: over wires that hold a byte up and
   * a reply down no run jams, and from every state the outstanding call can be carried
   * to its end.
   */
  lemma ClosedNeverJams(s: State, steps: seq<Step>, c: Caps)
    requires Initial(s) && |s.server.streams| <= 256 && NothingOpen(s.server) && c.up >= 1 && c.down >= 7
    requires AllowedAll(s, steps, c) && EnabledAll(s, steps) && LeavesClosed(s, steps)
    ensures var t := After(s, steps);
            CanComplete(t, c) && (t.client.connected ==> !Jammed(t, c))
  {
    hide Inv, Enabled, Next, AllowedAll, EnabledAll, After, Carries, Tidy, Mute, Jammed, NothingOpen, LeavesClosed;
    InitialInv(s);
    InitialTidy(s);
    InitialMute(s);
    AllowedIsEnabled(s, steps, c);
    RunTidy(s, steps);
    RunMute(s, steps);
    var t := After(s, steps);
    if t.client.connected {
      MuteFits(t, c);
      ReplyFitsMeansNoJam(t, c);
    }
    if t.client.call.Idle? {
      NothingToDo(t, c);
    } else {
      CallConnected(t);
      var more := CallCompletes(t, c);
    }
  }

  lemma MuteFits(s: State, c: Caps)
    requires Mute(s) && s.client.connected && c.down >= 7
    ensures ReplyFits(s, c)
  {
    hide InFlight, Sidebands;
  }

  lemma NothingToDo(t: State, c: Caps)
    requires t.client.call.Idle?
    ensures CanComplete(t, c)
  {
    assert Carries(t, [], c);
  }

  lemma CallConnected(s: State)
    requires Inv(s) && !s.client.call.Idle?
    ensures s.client.connected
  {
    hide Stage, LinksAgree, SinksAgree;
  }

  // ---- opening the streams, and what follows ----

  predicate IsSideband(server: M.Server, k: nat) {
    1 <= k < |server.streams| && server.streams[k].Stream? && server.streams[k].sideband
  }

  /** The switch-on call under way or done: its request is still to come or the streams are open. */
  ghost predicate TurningOn(s: State, k: nat) {
    && IsSideband(s.server, k)
    && Inv(s) && Tidy(s) && s.client.connected && M.Agree(s.server)
    && if s.client.call.Idle? then s.server.sidebandOpen && s.up.unsent == []
       else s.client.call == SWITCH_ON && (s.server.sidebandOpen || PendingRequests(s) != [])
  }

  lemma HandleSwitchOn(server: M.Server, k: nat, env: M.Env)
    requires M.Agree(server) && IsSideband(server, k)
    ensures var u := M.Handle(server, Request(SWITCH_ON), env).0;
            M.Agree(u) && u.sidebandOpen && IsSideband(u, k)
  {
    M.SidebandStep(server, M.Request(Request(SWITCH_ON), env));
  }

  lemma StepTurningOn(s: State, step: Step, k: nat)
    requires TurningOn(s, k) && Enabled(s, step) && Internal(step)
    ensures TurningOn(Next(s, step), k)
  {
    hide Clean, Run, Serve, Request, M.SessionShape, M.InSession, M.Handle, Ready, Done, InFlight, Control,
      EndpointBytes, SinksAgree, Encode, NextRequest, M.Agree, Tight, LinksAgree, Sidebands;
    StepKeeps(s, step);
    StepTidy(s, step);
    match step
    case ServerRecv(n, envs) =>
      var env := ServedOnce(s, n, envs);
      if Control(Recv(s.up, n).1) != [] {
        StageRequest(s);
        HandleSwitchOn(s.server, k, env);
      } else if PendingRequests(s) != [] {
        RequestOrReply(s, n, envs);
      }
    case PushUp(n) => PushKeepsQueue(s.up, n);
    case _ =>
  }

  lemma {:induction false} RunTurningOn(s: State, steps: seq<Step>, k: nat, c: Caps)
    requires TurningOn(s, k) && ForwardAll(s, steps, c) && EnabledAll(s, steps)
    ensures TurningOn(After(s, steps), k)
    decreases |steps|
  {
    hide TurningOn, Enabled, Next, Within;
    if steps != [] {
      StepTurningOn(s, steps[0], k);
      RunTurningOn(Next(s, steps[0]), steps[1..], k, c);
    }
  }

  /** With a sideband stream in slot `k` the client can have it opened, and a jam follows. */
  lemma JamOnceOpen(s: State, k: Byte, c: Caps) returns (steps: seq<Step>)
    requires Inv(s) && Tidy(s) && Within(s, c) && M.Agree(s.server) && IsSideband(s.server, k)
    requires ClientFree(s) && s.client.call.Idle? && s.down == FRESH && c.up >= 1 && c.down >= 7
    ensures AllowedAll(s, steps, c) && EnabledAll(s, steps)
    ensures Jammed(After(s, steps), c) && !After(s, steps).client.call.Idle?
  {
    hide AllowedAll, EnabledAll, After, Encode, Inv, Tidy, InFlight, Control, Request, Jammed, M.Agree, ForwardAll;
    var begin := Begin(SWITCH_ON);
    var s1 := Next(s, begin);
    StepKeeps(s, begin);
    StepTidy(s, begin);
    RequestOut(s, SWITCH_ON);
    FreshFits(s1, c);
    var a := CallCompletes(s1, c);
    RunTurningOn(s1, a, k, c);
    ForwardIsAllowed(s1, a, c);
    AllowedIsEnabled(s1, a, c);
    var s2 := After(s1, a);
    OpenWhenOn(s2, k);
    var b := JamReachable(s2, k, SWITCH_ON, c);
    AllowedAppend(s1, a, b, c);
    StepThen(s, begin, a + b, c);
    steps := [begin] + (a + b);
  }

  lemma FreshFits(s: State, c: Caps)
    requires s.down == FRESH && c.down >= 7
    ensures ReplyFits(s, c)
  {
    FreshLink();
  }

  lemma OpenWhenOn(s: State, k: nat)
    requires TurningOn(s, k) && s.client.call.Idle?
    ensures HasDescriptor(s.server, k) && ClientFree(s) && Live(s)
  {
    hide Inv, Tidy, PendingRequests;
    LiveUnlessEnding(s);
  }

  // ---- which servers never lose a call ----

  /** In every state a run can reach the outstanding call can still be carried to its end. */
  ghost predicate NeverLosesACall(s: State, c: Caps) {
    forall steps {:trigger AllowedAll(s, steps, c)} ::
      AllowedAll(s, steps, c) && EnabledAll(s, steps) ==> CanComplete(After(s, steps), c)
  }

  /** From the start to a jam with a call outstanding. */
  lemma FromStartToJam(s: State, k: Byte, c: Caps) returns (steps: seq<Step>)
    requires Initial(s) && |s.server.streams| <= 256 && c.up >= 1
    requires CanBeRead(s.server, k) || c.down < 7
    ensures AllowedAll(s, steps, c) && EnabledAll(s, steps)
    ensures Jammed(After(s, steps), c) && !After(s, steps).client.call.Idle?
  {
    hide AllowedAll, EnabledAll, After, Jammed, Inv, Tidy, M.Agree;
    var s1 := Next(s, Connect);
    InitialInv(s);
    StepKeeps(s, Connect);
    FreshTidy(s);
    var rest: seq<Step>;
    if c.down < 7 {
      rest := JamOnReply(s1, c);
    } else if s.server.streams[k].open {
      rest := JamReachable(s1, k, SWITCH_ON, c);
    } else {
      M.StartedIsGood(s.server);
      assert M.Agree(s1.server) by { SameStreamsAgree(s.server, s1.server); }
      rest := JamOnceOpen(s1, k, c);
    }
    StepThen(s, Connect, rest, c);
    steps := [Connect] + rest;
  }

  lemma SameStreamsAgree(a: M.Server, b: M.Server)
    requires M.Agree(a) && b.streams == a.streams && b.sidebandOpen == a.sidebandOpen
    ensures M.Agree(b)
  {
  }

  /**
   * For a server just started and a wire to it that holds at least a byte: no call
   * is ever lost if and only if the server has no stream it could come to read and
   * the wire back holds a reply.
   */
  lemma NoCallLostIff(s: State, c: Caps)
    requires Initial(s) && |s.server.streams| <= 256 && c.up >= 1
    ensures NeverLosesACall(s, c) <==> (forall k :: !CanBeRead(s.server, k)) && c.down >= 7
  {
    hide Inv, Enabled, Next, AllowedAll, EnabledAll, After, Carries, CanComplete, Jammed, Initial;
    if (forall k :: !CanBeRead(s.server, k)) && c.down >= 7 {
      UnreadableIsClosed(s.server);
      forall steps | AllowedAll(s, steps, c) && EnabledAll(s, steps) ensures CanComplete(After(s, steps), c) {
        ClosedNeverJams(s, steps, c);
      }
    } else {
      var k: nat := if c.down < 7 then 0 else var k: nat :| CanBeRead(s.server, k); k;
      var steps := FromStartToJam(s, k, c);
      JamNotCarried(After(s, steps), c);
    }
  }

  lemma UnreadableIsClosed(server: M.Server)
    requires forall k :: !CanBeRead(server, k)
    ensures NoSideband(server) && NothingOpen(server)
  {
    forall k | 1 <= k < |server.streams| && server.streams[k].Stream?
      ensures !server.streams[k].sideband && !server.streams[k].open
    {
      assert !CanBeRead(server, k);
    }
  }

  lemma JamNotCarried(s: State, c: Caps)
    requires Jammed(s, c) && !s.client.call.Idle?
    ensures !CanComplete(s, c)
  {
    forall steps ensures !Carries(s, steps, c) {
      if steps != [] {
        assert !Forward(s, steps[0], c) by { JamBlocksForward(s, steps[0], c); }
      }
    }
  }

  lemma JamBlocksForward(s: State, step: Step, c: Caps)
    requires Jammed(s, c)
    ensures !Forward(s, step, c)
  {
    hide Serve, Recv, Encode;
  }
}
