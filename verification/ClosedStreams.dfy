/**
 * The FPGA is programmed with its sideband streams closed: always when the client's
 * own calls drive the server, and for the server alone under an exact condition.
 */
module ClosedStreams {
  import opened Bytes
  import opened Frames
  import opened Link
  import opened Protocol
  import opened Session
  import opened SessionProof
  import opened SessionTheorems
  import opened Transfers
  import M = ServerModel

  // ---- the server alone ----

  /** The flag as the requests of a run leave it: the last one that switches it decides. */
  function SwitchedOn(es: seq<M.Event>): bool {
    if es == [] then false
    else
      var e, before := es[|es| - 1], es[..|es| - 1];
      if !e.Request? then SwitchedOn(before)
      else if TypeOf(e.payload) in {MSG_SHUTDOWN, MSG_DISCONNECT} then false
      else if TypeOf(e.payload) == MSG_CONFIG_SIDEBAND then ConfigArgument(e.payload) != 0
      else if IsProgram(e) && SinceLast(before) == [] then false
      else SwitchedOn(before)
  }

  lemma FlagStep(t: M.Server, e: M.Event)
    ensures var u := M.After(t, e);
            if !e.Request? then u.sidebandOpen == t.sidebandOpen
            else if TypeOf(e.payload) in {MSG_SHUTDOWN, MSG_DISCONNECT} then !u.sidebandOpen
            else if TypeOf(e.payload) == MSG_CONFIG_SIDEBAND then u.sidebandOpen == (ConfigArgument(e.payload) != 0)
            else if IsProgram(e) && t.image.None? then !u.sidebandOpen
            else u.sidebandOpen == t.sidebandOpen
  {
  }

  lemma {:induction false} FlagFromHistory(s: M.Server, es: seq<M.Event>)
    requires M.Started(s)
    ensures M.RunEvents(s, es).sidebandOpen == SwitchedOn(es)
    decreases |es|
  {
    hide M.After, IsProgram, SinceLast, ConfigArgument, TypeOf;
    if es != [] {
      var n := |es| - 1;
      var e := es[n];
      assert es == es[..n] + [e] && [e][1..] == [];
      M.RunAppend(s, es[..n], [e]);
      FlagFromHistory(s, es[..n]);
      ImageFromHistory(s, es[..n]);
      FlagStep(M.RunEvents(s, es[..n]), e);
    }
  }

  /**
   * A request that makes the server call its backend does so with all sideband
   * streams closed if and only if it starts its transfer itself or the requests
   * before it leave the streams switched off.
   */
  lemma ClosedAtBackendCall(s: M.Server, es: seq<M.Event>, e: M.Event)
    requires M.Started(s) && e.Request? && M.CallsBackend(e.payload)
    ensures var t := M.RunEvents(s, es);
            var u := M.After(t, e);
            && |u.programmed| == |t.programmed| + 1
            && (M.AllClosed(u) <==> SinceLast(es) == [] || !SwitchedOn(es))
  {
    hide M.RunEvents, SinceLast, SwitchedOn, ParseProgram;
    var t := M.RunEvents(s, es);
    M.SidebandAgreement(s, es);
    FlagFromHistory(s, es);
    ImageFromHistory(s, es);
    M.SidebandStep(t, e);
    FlagStep(t, e);
  }

  /** A transfer of `file` with the sidebands switched on after its first `n` bytes. */
  function SwitchOnInside(file: seq<Byte>, n: nat, env: M.Env): seq<M.Event>
    requires n <= |file|
  {
    [M.Connect, M.Request(ProgramRequest(|file|, false, file[..n]), env),
     M.Request([MSG_CONFIG_SIDEBAND, 1], env), M.Request(ProgramRequest(|file|, true, file[n..]), env)]
  }

  /** Such a run programs the device with a stream open. */
  lemma ProgramsWithStreamOpen(s: M.Server, k: nat, file: seq<Byte>, n: nat, env: M.Env)
    requires M.Started(s) && 1 <= k < |s.streams| && s.streams[k].sideband
    requires n < |file| && |file| + 10 < U32
    ensures var t := M.RunEvents(s, SwitchOnInside(file, n, env));
            && M.EnabledAll(s, SwitchOnInside(file, n, env))
            && t.programmed == [M.Programmed(file, env.status)] && HasDescriptor(t, k)
  {
    hide ProgramRequest, ParseProgram;
    var es := SwitchOnInside(file, n, env);
    var s1 := M.After(s, es[0]);
    var s2 := M.After(s1, es[1]);
    var s3 := M.After(s2, es[2]);
    ReceiveChunk(s1, Chunk(file[..n]), env, |file|, 0, |file|, []);
    M.ProgramKeepsSession(s1, ParseProgram(es[1].payload), env);
    assert [] + file[..n] == file[..n] && file[..n] + file[n..] == file;
    assert s3.image == s2.image && s3.programmed == s2.programmed && s3.streams[k].open;
    ReceiveChunk(s3, Chunk(file[n..]), env, |file|, n, |file|, file[..n]);
    FourEvents(s, es);
  }

  // ---- with the client's calls ----

  /** While an image is being assembled all sideband streams are closed. */
  ghost predicate Quiet(server: M.Server) {
    M.Agree(server) && (server.image.Some? ==> M.AllClosed(server))
  }

  lemma ProgramQuiet(server: M.Server, p: seq<Byte>, env: M.Env)
    requires Quiet(server) && TypeOf(p) == MSG_PROGRAM
    ensures var u := M.Handle(server, p, env).0; M.Agree(u) && M.AllClosed(u)
  {
    hide ParseProgram;
    M.SidebandStep(server, M.Request(p, env));
  }

  lemma OtherQuiet(server: M.Server, p: seq<Byte>, env: M.Env)
    requires Quiet(server) && TypeOf(p) != MSG_PROGRAM && server.image.None?
    ensures var u := M.Handle(server, p, env).0;
            M.Agree(u) && u.image.None? && u.programmed == server.programmed
  {
    M.SidebandStep(server, M.Request(p, env));
  }

  /** The outstanding request keeps it, and calls the backend only with the streams closed. */
  lemma HandleQuiet(server: M.Server, call: Call, finished: seq<Finished>, env: M.Env)
    requires !call.Idle? && WellFormed(call) && Ready(call, server, finished) && Quiet(server)
    ensures var u := M.Handle(server, Request(call), env).0;
            Quiet(u) && (|u.programmed| > |server.programmed| ==> M.AllClosed(u))
  {
    hide ProgramRequest, M.Handle, M.Agree, M.AllClosed, M.InSession;
    if call.Program? {
      var n := Advance(call.file, call.from);
      ParseProgramRequest(|call.file|, n >= |call.file|, call.file[call.from..n]);
      ProgramQuiet(server, Request(call), env);
    } else {
      OtherQuiet(server, Request(call), env);
    }
  }

  lemma StepQuiet(s: State, step: Step)
    requires Inv(s) && Enabled(s, step) && Quiet(s.server)
    ensures var u := Next(s, step).server;
            Quiet(u) && (|u.programmed| > |s.server.programmed| ==> M.AllClosed(u))
  {
    hide Clean, Recv, Serve, Request, M.SessionShape, M.InSession, M.Handle, Stage, Ready, Done,
      InFlight, Control, EndpointBytes, SinksAgree, Encode, NextRequest;
    if step.ServerRecv? {
      var env := ServedOnce(s, step.n, step.envs);
      if Control(Recv(s.up, step.n).1) != [] {
        HandleQuiet(s.server, s.client.call, s.finished, env);
      }
    }
  }

  lemma {:induction false} RunQuiet(s: State, steps: seq<Step>)
    requires Inv(s) && Quiet(s.server) && EnabledAll(s, steps)
    ensures Quiet(After(s, steps).server)
    decreases |steps|
  {
    hide Inv, Quiet, Enabled, Next;
    if steps != [] {
      StepKeeps(s, steps[0]);
      StepQuiet(s, steps[0]);
      RunQuiet(Next(s, steps[0]), steps[1..]);
    }
  }

  /**
   * In every run of client and server all sideband streams are closed whenever an
   * image is held, and at every call of the backend.
   */
  lemma ProgrammedWhileClosed(s: State, steps: seq<Step>, step: Step)
    requires Initial(s) && |s.server.streams| <= 256 && EnabledAll(s, steps)
    ensures var t := After(s, steps);
            && (t.server.image.Some? ==> M.AllClosed(t.server))
            && (Enabled(t, step) && |Next(t, step).server.programmed| > |t.server.programmed| ==>
                  M.AllClosed(Next(t, step).server))
  {
    hide Inv, Enabled, Next, M.Agree, M.AllClosed, EnabledAll, After;
    InitialInv(s);
    Reachable(s, steps);
    M.StartedIsGood(s.server);
    RunQuiet(s, steps);
    if Enabled(After(s, steps), step) {
      StepQuiet(After(s, steps), step);
    }
  }
}
