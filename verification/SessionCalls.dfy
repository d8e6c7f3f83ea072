/**
 * The `program` calls of a session are the calls the client object makes: same
 * requests, same turns of the event loop, same return value.
 */
module SessionCalls {
  import opened Bytes
  import opened Message
  import opened Frames
  import opened Protocol
  import opened Link
  import opened Session
  import opened SessionProof
  import opened SessionTheorems
  import C = ClientModel
  import M = ServerModel

  /** What the client's event loop brings it during a run: one turn for each of its receives. */
  function TurnsOf(s: State, steps: seq<Step>): seq<C.Turn>
    requires EnabledAll(s, steps)
    decreases |steps|
  {
    if steps == [] then []
    else
      (if steps[0].ClientRecv? then [C.Arrived(Recv(s.down, steps[0].n).1)] else [])
      + TurnsOf(Next(s, steps[0]), steps[1..])
  }

  /** The waiting client looks at its mailbox after every turn: with a reply in it, it does not receive again. */
  predicate Prompt(s: State, steps: seq<Step>)
    requires EnabledAll(s, steps)
    decreases |steps|
  {
    steps == [] ||
    ((s.client.box.Some? ==> !steps[0].ClientRecv?) && Prompt(Next(s, steps[0]), steps[1..]))
  }

  /** The run is over with the step that ends the outstanding call. */
  predicate EndsWithCall(s: State, steps: seq<Step>)
    requires EnabledAll(s, steps)
    decreases |steps|
  {
    steps != [] &&
    var t := Next(s, steps[0]);
    if t.client.call.Idle? then |steps| == 1 else EndsWithCall(t, steps[1..])
  }

  /** A turn that has passed is a turn used: what it brought is in the mailbox. */
  lemma ProgramCallTurn(file: seq<Byte>, from: nat, fs: seq<Frame>, turns: seq<C.Turn>)
    requires from <= |file|
    ensures var r := C.ProgramCall(C.Accept(None, fs), file, from, turns);
            C.ProgramCall(None, file, from, [C.Arrived(fs)] + turns) == r.(used := r.used + 1)
  {
    hide C.Accept, NextRequest;
    var all := [C.Arrived(fs)] + turns;
    var o := C.Await(C.Accept(None, fs), turns);
    assert all[1..] == turns;
    assert C.Await(None, all) == C.Outcome(o.reply, o.used + 1);
    assert all[o.used + 1..] == turns[o.used..];
  }

  /** Steps of others, and client writes, do not touch the call. */
  lemma OtherStep(s: State, step: Step)
    requires Inv(s) && Enabled(s, step) && !s.client.call.Idle? && !step.Take? && !step.ClientRecv?
    ensures var t := Next(s, step);
            && t.client.call == s.client.call && t.client.box == s.client.box && t.finished == s.finished
            && Control(t.sentUp) == Control(s.sentUp)
  {
    hide InFlight, Clean, Stage, Recv, Serve, Encode, M.SessionShape, Request, Control;
    if step.ClientWrite? {
      var f := Frame(step.ep, step.data);
      ControlAppend(s.sentUp, [f]);
      OneFrame(f);
      assert Control(s.sentUp) + [] == Control(s.sentUp);
    }
  }

  /** A reply taken in mid-file sends the next request. */
  lemma TakeSends(s: State)
    requires Inv(s) && Enabled(s, Take) && s.client.call.Program?
    ensures var t, file, n := Next(s, Take), s.client.call.file, Advance(s.client.call.file, s.client.call.from);
            if n < |file| then
              && t.client.call == Program(file, n) && t.client.box.None? && t.finished == s.finished
              && Control(t.sentUp) == Control(s.sentUp) + [NextRequest(file, n)]
            else
              && t.client.call.Idle? && t.sentUp == s.sentUp
              && t.finished == s.finished + [Finished(file, if ReadU8(s.client.box.value, 0).0 == 1 then 0 else -1)]
  {
    hide InFlight, Clean, Stage, Encode, M.SessionShape, NextRequest, Control;
    var file, n := s.client.call.file, Advance(s.client.call.file, s.client.call.from);
    if n < |file| {
      var f := Frame(0, NextRequest(file, n));
      ControlAppend(s.sentUp, [f]);
      OneFrame(f);
    }
  }

  /**
   * From any point of an outstanding `program` call to its end, the session sends the
   * requests, uses the turns and records the value of `ProgramCall`, the function the
   * client object's method is proved against.
   */
  lemma {:induction false} RestOfCall(s: State, steps: seq<Step>)
    requires Inv(s) && s.client.call.Program? && EnabledAll(s, steps)
    requires Prompt(s, steps) && EndsWithCall(s, steps)
    ensures var c, t, turns := s.client.call, After(s, steps), TurnsOf(s, steps);
            var r := C.ProgramCall(s.client.box, c.file, c.from, turns);
            && r.used == |turns|
            && t.finished == s.finished + [Finished(c.file, r.ret)]
            && r.requests != [] && Control(t.sentUp) == Control(s.sentUp) + r.requests[1..]
    decreases |steps|
  {
    hide Inv, Enabled, Next, C.ProgramCall, Control, NextRequest;
    var step, rest, c := steps[0], steps[1..], s.client.call;
    var t := Next(s, step);
    StepKeeps(s, step);
    CallInFile(s);
    if step.Take? {
      TakeEnabled(s);
      TakeSends(s);
      ProgramCallTake(s.client.box.value, c.file, c.from, TurnsOf(t, rest));
      assert [] + TurnsOf(t, rest) == TurnsOf(t, rest);
      if Advance(c.file, c.from) < |c.file| {
        RestOfCall(t, rest);
        var r := C.ProgramCall(None, c.file, Advance(c.file, c.from), TurnsOf(t, rest));
        ProgramCallHead(None, c.file, Advance(c.file, c.from), TurnsOf(t, rest));
        Regroup(Control(s.sentUp), [NextRequest(c.file, Advance(c.file, c.from))], r.requests[1..]);
      } else {
        assert rest == [] && Control(s.sentUp) + [] == Control(s.sentUp);
      }
    } else if step.ClientRecv? {
      RecvOfCall(s, step.n);
      RestOfCall(t, rest);
      ProgramCallTurn(c.file, c.from, Recv(s.down, step.n).1, TurnsOf(t, rest));
    } else {
      OtherStep(s, step);
      RestOfCall(t, rest);
      assert [] + TurnsOf(t, rest) == TurnsOf(t, rest);
    }
  }

  lemma CallInFile(s: State)
    requires Inv(s) && s.client.call.Program?
    ensures s.client.call.from <= |s.client.call.file|
  {
  }

  lemma TakeEnabled(s: State)
    requires Enabled(s, Take)
    ensures s.client.box.Some?
  {
  }

  lemma RecvOfCall(s: State, n: nat)
    requires Enabled(s, ClientRecv(n))
    ensures n <= |s.down.wire|
    ensures var t := Next(s, ClientRecv(n));
            && t.client.call == s.client.call && t.finished == s.finished && t.sentUp == s.sentUp
            && t.client.box == C.Accept(s.client.box, Recv(s.down, n).1)
  {
  }

  lemma ProgramCallHead(box: Option<seq<Byte>>, file: seq<Byte>, from: nat, turns: seq<C.Turn>)
    requires from <= |file|
    ensures var r := C.ProgramCall(box, file, from, turns);
            r.requests != [] && r.requests == [NextRequest(file, from)] + r.requests[1..]
  {
    hide C.Await, NextRequest;
  }

  lemma ProgramCallTake(reply: seq<Byte>, file: seq<Byte>, from: nat, turns: seq<C.Turn>)
    requires from <= |file|
    ensures var r, n := C.ProgramCall(Some(reply), file, from, turns), Advance(file, from);
            if n < |file| then
              var more := C.ProgramCall(None, file, n, turns);
              r.requests != [] && r.requests[1..] == more.requests && r.ret == more.ret && r.used == more.used
            else
              && r.requests != [] && r.requests[1..] == [] && r.used == 0
              && r.ret == if ReadU8(reply, 0).0 == 1 then 0 else -1
  {
    hide NextRequest, ReadU8;
    assert turns[0..] == turns;
  }

  /**
   * A whole `program` call of a session: with the turns its receives make, it puts the
   * requests of `ProgramCall` on the wire and records its return value. That record is
   * what `EndToEnd` compares with the backend.
   */
  lemma CallIsProgramCall(s: State, file: seq<Byte>, steps: seq<Step>)
    requires Inv(s) && Enabled(s, Begin(Program(file, 0)))
    requires var s1 := Next(s, Begin(Program(file, 0)));
             EnabledAll(s1, steps) && Prompt(s1, steps) && EndsWithCall(s1, steps)
    ensures var s1 := Next(s, Begin(Program(file, 0)));
            var turns, t := TurnsOf(s1, steps), After(s1, steps);
            var r := C.ProgramCall(None, file, 0, turns);
            && r.used == |turns|
            && t.finished == s.finished + [Finished(file, r.ret)]
            && Control(t.sentUp) == Control(s.sentUp) + r.requests
  {
    hide C.ProgramCall, NextRequest, Prompt, EndsWithCall, TurnsOf, EnabledAll, After, Stage, Clean, InFlight, Control,
      M.SessionShape;
    var s1 := Next(s, Begin(Program(file, 0)));
    StepKeeps(s, Begin(Program(file, 0)));
    NoReplyAtRest(s);
    RestOfCall(s1, steps);
    ProgramCallHead(None, file, 0, TurnsOf(s1, steps));
    var f := Frame(0, NextRequest(file, 0));
    ControlAppend(s.sentUp, [f]);
    OneFrame(f);
    var r := C.ProgramCall(None, file, 0, TurnsOf(s1, steps));
    Regroup(Control(s.sentUp), [NextRequest(file, 0)], r.requests[1..]);
  }

  lemma NoReplyAtRest(s: State)
    requires Inv(s) && s.client.call.Idle?
    ensures s.client.box.None?
  {
    hide InFlight, Clean, Control, M.SessionShape;
  }

  // ---- the calls without data ----

  lemma ReplyIsOne(s: State)
    requires Inv(s) && Enabled(s, Take) && !s.client.call.Program?
    ensures s.client.box == Some([1])
    ensures Next(s, Take).client.call.Idle?
  {
    hide InFlight, Clean, Control, Request, M.SessionShape, M.InSession;
  }

  lemma SimpleCallTurn(fs: seq<Frame>, turns: seq<C.Turn>)
    ensures var o := C.Await(C.Accept(None, fs), turns);
            C.Await(None, [C.Arrived(fs)] + turns) == C.Outcome(o.reply, o.used + 1)
  {
    hide C.Accept;
    assert ([C.Arrived(fs)] + turns)[1..] == turns;
  }

  lemma {:induction false} RestOfSimpleCall(s: State, steps: seq<Step>)
    requires Inv(s) && !s.client.call.Idle? && !s.client.call.Program? && EnabledAll(s, steps)
    requires Prompt(s, steps) && EndsWithCall(s, steps)
    ensures C.Await(s.client.box, TurnsOf(s, steps)) == C.Outcome(Some([1]), |TurnsOf(s, steps)|)
    decreases |steps|
  {
    hide Inv, Enabled, Next, C.Accept;
    var step, rest := steps[0], steps[1..];
    var t := Next(s, step);
    StepKeeps(s, step);
    if step.Take? {
      ReplyIsOne(s);
      assert rest == [] && [] + TurnsOf(t, rest) == [];
    } else if step.ClientRecv? {
      RecvOfCall(s, step.n);
      RestOfSimpleCall(t, rest);
      SimpleCallTurn(Recv(s.down, step.n).1, TurnsOf(t, rest));
    } else {
      OtherStep(s, step);
      RestOfSimpleCall(t, rest);
      assert [] + TurnsOf(t, rest) == TurnsOf(t, rest);
    }
  }

  /** A configuration, close or shutdown call that ends in a session returns 0, as the client object computes it. */
  lemma SimpleCallsReturnZero(s: State, call: Call, steps: seq<Step>)
    requires Inv(s) && Enabled(s, Begin(call)) && !call.Program?
    requires var s1 := Next(s, Begin(call));
             EnabledAll(s1, steps) && Prompt(s1, steps) && EndsWithCall(s1, steps)
    ensures var turns := TurnsOf(Next(s, Begin(call)), steps);
            && C.Verdict(C.CallWait(true, None, turns)) == 0
            && C.CallWait(true, None, turns).used == |turns|
  {
    hide Prompt, EndsWithCall, TurnsOf, EnabledAll, Stage, Clean, InFlight, Control, M.SessionShape, C.Await, Request;
    StepKeeps(s, Begin(call));
    NoReplyAtRest(s);
    RestOfSimpleCall(Next(s, Begin(call)), steps);
  }

  /** What the calls without data ask, byte by byte. */
  lemma SimpleRequests(enable: bool)
    ensures Request(Config(enable)) == [4, if enable then 1 else 0]
    ensures Request(Close) == [3] && Request(Shutdown) == [2]
  {
  }
}
