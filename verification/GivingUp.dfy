/**
 * A call that returns because a turn of the client's event loop fails leaves its
 * reply to come. The next call takes that reply for its own, and returns before the
 * server has seen its request; once nothing is owed, calls mean what they say again.
 */
module GivingUp {
  import opened Bytes
  import opened Message
  import opened Frames
  import opened Protocol
  import opened Link
  import opened Session
  import opened SessionProof
  import opened SessionTheorems
  import opened Capacity
  import M = ServerModel

  /** The waiting call returns -1; only `program` calls are recorded. */
  function GiveUp(s: State): State
    requires !s.client.call.Idle?
  {
    var call := s.client.call;
    s.(client := s.client.(call := Idle),
       finished := if call.Program? then s.finished + [Finished(call.file, -1)] else s.finished)
  }

  /** No request is on its way and no reply is on its way or in the mailbox. */
  predicate NothingOwed(s: State) {
    PendingRequests(s) == [] && PendingReplies(s) == []
  }

  /** A call that gives up always leaves exactly one request or reply behind. */
  lemma GivingUpOwesOne(s: State)
    requires Inv(s) && !s.client.call.Idle? && s.client.box.None?
    ensures |PendingRequests(GiveUp(s))| + |PendingReplies(GiveUp(s))| == 1
  {
    hide InFlight, Clean, Request, M.SessionShape, Ready, Done, Control;
  }

  // ---- the late reply ----

  /** Steps of the link and the server, which do not depend on what the client is waiting for. */
  predicate Passive(step: Step) {
    Internal(step) && !step.Take?
  }

  lemma PassiveCommutes(s: State, step: Step)
    requires !s.client.call.Idle? && Passive(step) && Enabled(s, step)
    ensures var t := Next(s, step);
            && t.client.call == s.client.call && t.finished == s.finished
            && (!step.PushUp? ==> t.up.unsent == s.up.unsent)
            && Enabled(GiveUp(s), step) && Next(GiveUp(s), step) == GiveUp(t)
  {
    hide Run, Serve, Feed;
  }

  lemma {:induction false} PassiveRunCommutes(s: State, steps: seq<Step>)
    requires !s.client.call.Idle? && (forall step :: step in steps ==> Passive(step)) && EnabledAll(s, steps)
    ensures After(s, steps).client.call == s.client.call && After(s, steps).finished == s.finished
    ensures EnabledAll(GiveUp(s), steps) && After(GiveUp(s), steps) == GiveUp(After(s, steps))
    decreases |steps|
  {
    hide Enabled, Next, Passive;
    if steps != [] {
      assert Passive(steps[0]);
      PassiveCommutes(s, steps[0]);
      PassiveRunCommutes(Next(s, steps[0]), steps[1..]);
    }
  }

  /** The reply to the outstanding request gets to the mailbox. */
  lemma {:induction false} ReplyArrives(s: State) returns (steps: seq<Step>)
    requires Inv(s) && Tidy(s) && !s.client.call.Idle? && s.up.unsent == []
    ensures (forall step :: step in steps ==> Passive(step)) && EnabledAll(s, steps)
    ensures Inv(After(s, steps)) && After(s, steps).client.box.Some? && After(s, steps).up.unsent == []
    decreases Remaining(s.client.call), Distance(s), OnWires(s)
  {
    hide Inv, Tidy, Enabled, Next, Remaining, Distance, OnWires;
    steps := [];
    if s.client.box.None? {
      var c := Caps(|s.up.wire| + 1, |s.down.wire| + 1);
      var step := StepForward(s, c);
      OnlyTakeNeedsReply(s, step);
      PassiveCommutes(s, step);
      InternalDecreases(s, step);
      StepTidy(s, step);
      var rest := ReplyArrives(Next(s, step));
      steps := [step] + rest;
      assert steps[1..] == rest;
    }
  }

  lemma OnlyTakeNeedsReply(s: State, step: Step)
    requires Enabled(s, step) && s.client.box.None? && s.up.unsent == []
    ensures !step.Take? && !step.PushUp?
  {
  }

  /** With a reply in the mailbox a one-slice `program` call returns as soon as its request is written. */
  function Hasty(file: seq<Byte>): seq<Step> {
    [Begin(Program(file, 0)), PushUp(|Encode(Frame(0, NextRequest(file, 0)))|), Take]
  }

  lemma HastyCall(s: State, file: seq<Byte>)
    requires ClientFree(s) && s.client.call.Idle? && s.client.box.Some? && |file| <= BLOCK
    requires LinksAgree(s) && PendingRequests(s) == []
    ensures EnabledAll(s, Hasty(file))
    ensures var t := After(s, Hasty(file));
            && t.client.call.Idle? && t.server == s.server
            && t.finished == s.finished + [Finished(file, if ReadU8(s.client.box.value, 0).0 == 1 then 0 else -1)]
            && PendingRequests(t) == [NextRequest(file, 0)]
  {
    hide Encode, Run, Room, NextRequest, Control, EndpointBytes, ReadU8;
    var call, f := Program(file, 0), Frame(0, NextRequest(file, 0));
    var steps := Hasty(file);
    RequestSendable(call);
    var s0 := s.(client := s.client.(call := call));
    var s1 := Next(s, steps[0]);
    SendUpKeeps(s0, f);
    assert s1.up.unsent == Encode(f) by { assert [] + Encode(f) == Encode(f); }
    assert Encode(f) != [] by { FrameLength(f); }
    var s2 := Next(s1, steps[1]);
    PushKeepsQueue(s1.up, |Encode(f)|);
    assert s2.up.unsent == [] && PendingRequests(s2) == PendingRequests(s1);
    var s3 := Next(s2, steps[2]);
    assert PendingRequests(s1) == [] + [f.payload] == [f.payload];
    assert steps[1..] == [steps[1], steps[2]] && steps[1..][1..] == [steps[2]] && [steps[2]][1..] == [];
    assert EnabledAll(s3, []) && After(s3, []) == s3;
    assert EnabledAll(s2, [steps[2]]) && After(s2, [steps[2]]) == s3;
    assert EnabledAll(s1, steps[1..]) && After(s1, steps[1..]) == s3;
  }

  lemma {:induction false} RunThen(s: State, a: seq<Step>, b: seq<Step>)
    requires EnabledAll(s, a) && EnabledAll(After(s, a), b)
    ensures EnabledAll(s, a + b) && After(s, a + b) == After(After(s, a), b)
    decreases |a|
  {
    hide Enabled, Next;
    if a == [] {
      assert a + b == b;
    } else {
      assert (a + b)[0] == a[0] && (a + b)[1..] == a[1..] + b;
      RunThen(Next(s, a[0]), a[1..], b);
    }
  }

  lemma ReplyInBox(s: State)
    requires Inv(s) && !s.client.call.Idle? && s.client.box.Some?
    ensures s.client.connected && LinksAgree(s) && PendingRequests(s) == []
    ensures Done(s.client.call, s.server, s.finished, s.client.box.value)
  {
    hide InFlight, Clean, Request, M.SessionShape, Ready, Done, Control, LinksAgree;
  }

  /**
   * Whatever call gives up: there is a run in which the next `program` call, of any
   * file of one slice, returns what the reply to the other says, and its own request
   * has not reached the server.
   */
  lemma NextCallTakesLateReply(s: State, file: seq<Byte>) returns (wait: seq<Step>, late: seq<Byte>)
    requires Inv(s) && Tidy(s) && !s.client.call.Idle? && s.client.box.None? && s.up.unsent == []
    requires |file| <= BLOCK
    ensures (forall step :: step in wait ==> Passive(step)) && EnabledAll(GiveUp(s), wait + Hasty(file))
    ensures var t := After(GiveUp(s), wait + Hasty(file));
            && t.client.call.Idle? && PendingRequests(t) == [NextRequest(file, 0)]
            && t.finished == GiveUp(s).finished + [Finished(file, if ReadU8(late, 0).0 == 1 then 0 else -1)]
            && Done(s.client.call, t.server, s.finished, late)
  {
    hide Inv, Tidy, Enabled, Next, EnabledAll, After, NextRequest, ReadU8, Hasty, Passive, Done, LinksAgree,
      InFlight, Control;
    wait := ReplyArrives(s);
    PassiveRunCommutes(s, wait);
    var a := After(s, wait);
    late := a.client.box.value;
    ReplyInBox(a);
    SameLinksAgree(a, GiveUp(a));
    HastyCall(GiveUp(a), file);
    RunThen(GiveUp(s), wait, Hasty(file));
  }

  lemma SameLinksAgree(s: State, t: State)
    requires LinksAgree(s) && t.up == s.up && t.down == s.down && t.streamed == s.streamed
    requires t.sentUp == s.sentUp && t.gotUp == s.gotUp && t.sentDown == s.sentDown && t.gotDown == s.gotDown
    ensures LinksAgree(t)
  {
    hide Clean, InFlight, EndpointBytes;
  }

  /** After a configuration call that gave up, `program` can return 0 for a file the backend is never given. */
  lemma ClaimsUnprogrammed(s: State, file: seq<Byte>) returns (wait: seq<Step>)
    requires Inv(s) && Tidy(s) && s.client.call.Config? && s.client.box.None? && s.up.unsent == []
    requires |file| <= BLOCK
    ensures EnabledAll(GiveUp(s), wait + Hasty(file))
    ensures var t := After(GiveUp(s), wait + Hasty(file));
            t.finished == s.finished + [Finished(file, 0)] && |t.server.programmed| == |s.finished|
  {
    hide Inv, Tidy, EnabledAll, After, Hasty, Passive, NextRequest, PendingRequests;
    var late;
    wait, late := NextCallTakesLateReply(s, file);
  }

  // ---- nothing owed ----

  /** Between two calls, with nothing owed and no image left; what earlier calls returned does not matter. */
  ghost predicate Settled(s: State) {
    && M.SessionShape(s.server) && |s.server.streams| <= 256
    && s.client.connected && s.client.call.Idle? && LinksAgree(s) && SinksAgree(s)
    && InService(s.server) && s.server.image.None? && NothingOwed(s)
  }

  /** A new connection settles it, if the mailbox is empty and no image is left over. */
  lemma ConnectSettles(s: State)
    requires M.SessionShape(s.server) && |s.server.streams| <= 256 && Enabled(s, Connect)
    requires s.client.call.Idle? && s.client.box.None? && s.server.image.None?
    ensures Settled(Next(s, Connect))
  {
    FreshLink();
    M.SessionStep(s.server, M.Connect);
  }

  /** The records that calls would have made had each told of one backend call. */
  function Verdicts(ps: seq<M.Programmed>): seq<Finished> {
    seq(|ps|, i requires 0 <= i < |ps| => Finished(ps[i].image, if ps[i].status == 0 then 0 else -1))
  }

  /** The same state with such a past. */
  function Rebased(s: State): State {
    s.(finished := Verdicts(s.server.programmed), taken := |Control(s.sentUp)|)
  }

  lemma RebasedInv(s: State)
    requires Settled(s)
    ensures Inv(Rebased(s))
  {
    hide Clean, InFlight, Control, EndpointBytes, M.SessionShape, M.InSession;
    SameLinksAgree(s, Rebased(s));
  }

  /** Two states that differ in their past only, and have recorded the same since. */
  predicate Alike(s: State, t: State, m: nat, n: nat) {
    && t == s.(finished := t.finished, taken := t.taken)
    && m <= |s.finished| && n <= |t.finished| && s.finished[m..] == t.finished[n..]
  }

  lemma StepAlike(s: State, t: State, m: nat, n: nat, step: Step)
    requires Alike(s, t, m, n) && Enabled(s, step)
    ensures Enabled(t, step) && Alike(Next(s, step), Next(t, step), m, n)
  {
    hide Run, Serve, Feed, Encode, NextRequest, Request, EndpointBytes, ReadU8;
    if step.Take? && s.client.call.Program? {
      forall f: Finished ensures (s.finished + [f])[m..] == (t.finished + [f])[n..] {
        assert (s.finished + [f])[m..] == s.finished[m..] + [f];
        assert (t.finished + [f])[n..] == t.finished[n..] + [f];
      }
    }
  }

  lemma {:induction false} RunAlike(s: State, t: State, m: nat, n: nat, steps: seq<Step>)
    requires Alike(s, t, m, n) && EnabledAll(s, steps)
    ensures EnabledAll(t, steps) && Alike(After(s, steps), After(t, steps), m, n)
    decreases |steps|
  {
    hide Alike, Enabled, Next;
    if steps != [] {
      StepAlike(s, t, m, n, steps[0]);
      RunAlike(Next(s, steps[0]), Next(t, steps[0]), m, n, steps[1..]);
    }
  }

  /**
   * Once nothing is owed, every later call is answered for what it asked, whatever
   * happened before: each `program` call begun since makes one backend call with its
   * file, and returns 0 exactly when that one does.
   */
  lemma SettledCallsAreOwn(s: State, steps: seq<Step>)
    requires Settled(s) && EnabledAll(s, steps) && !After(s, steps).client.call.Program?
    ensures var t, files := After(s, steps), Begun(steps);
            var m, n := |s.finished|, |s.server.programmed|;
            && |t.finished| == m + |files| && |t.server.programmed| == n + |files|
            && t.server.image.None?
            && forall i :: 0 <= i < |files| ==>
                 && t.finished[m + i].file == files[i] == t.server.programmed[n + i].image
                 && t.finished[m + i].ret == if t.server.programmed[n + i].status == 0 then 0 else -1
  {
    hide Inv, Settled, Enabled, Next, EnabledAll, After, Begun;
    var r, m, n := Rebased(s), |s.finished|, |s.server.programmed|;
    RebasedInv(s);
    assert s.finished[m..] == [] == r.finished[n..];
    RunAlike(s, r, m, n, steps);
    RunKeeps(r, steps);
    CallsBegun(r, steps);
    var t, u := After(s, steps), After(r, steps);
    NothingLeft(u);
    assert Current(r.client.call) == [] by { SettledIdle(s); }
    assert FilesOf(u.finished) == FilesOf(r.finished) + Begun(steps) by {
      assert FilesOf(u.finished) + [] == FilesOf(u.finished);
      assert FilesOf(r.finished) + [] + Begun(steps) == FilesOf(r.finished) + Begun(steps);
    }
    forall i | 0 <= i < |Begun(steps)|
      ensures t.finished[m + i] == u.finished[n + i] && u.finished[n + i].file == Begun(steps)[i]
    {
      assert t.finished[m..][i] == u.finished[n..][i];
      assert FilesOf(u.finished)[n + i] == u.finished[n + i].file;
    }
  }

  lemma SettledIdle(s: State)
    requires Settled(s)
    ensures s.client.call.Idle?
  {
  }
}
