/** What the client does with what arrives, and how one `program` call goes, as functions. */
module ClientModel {
  import opened Bytes
  import opened Message
  import opened Frames
  import opened Protocol
  import opened Mux

  /** One turn of the client's event loop: it fails, or frames are handed to the client. */
  datatype Turn = LinkDown | Arrived(frames: seq<Frame>)

  /** The mailbox has one slot: a later reply overwrites an earlier one. */
  function Accept(box: Option<seq<Byte>>, fs: seq<Frame>): Option<seq<Byte>>
    decreases |fs|
  {
    if fs == [] then box
    else Accept(if fs[0].ep == 0 then Some(fs[0].payload) else box, fs[1..])
  }

  /** The writes on sideband handlers; an endpoint without a handler loses its frame. */
  function SidebandWrites(handlers: seq<Option<nat>>, fs: seq<Frame>): seq<Write<nat>> {
    if fs == [] then []
    else
      var f := fs[0];
      (if f.ep != 0 && f.ep < |handlers| && handlers[f.ep].Some?
       then [Write(handlers[f.ep].value, f.payload)] else [])
      + SidebandWrites(handlers, fs[1..])
  }

  /** The handlers frames can get to: the frame handler's table must lead from their endpoint to the client. */
  function Routed(handlers: seq<Option<nat>>, table: seq<bool>): seq<Option<nat>> {
    seq(|handlers|, i requires 0 <= i < |handlers| => if i < |table| && table[i] then handlers[i] else None)
  }

  /** A new connection has a new table: handlers of an earlier one get nothing until they are registered again. */
  lemma {:induction false} ReconnectForgets(handlers: seq<Option<nat>>, fs: seq<Frame>)
    ensures SidebandWrites(Routed(handlers, [true]), fs) == []
    decreases |fs|
  {
    if fs != [] {
      ReconnectForgets(handlers, fs[1..]);
    }
  }

  lemma {:induction false} AcceptAppend(box: Option<seq<Byte>>, a: seq<Frame>, b: seq<Frame>)
    ensures Accept(box, a + b) == Accept(Accept(box, a), b)
    decreases |a|
  {
    if a == [] {
      assert a + b == b;
    } else {
      assert (a + b)[0] == a[0] && (a + b)[1..] == a[1..] + b;
      AcceptAppend(if a[0].ep == 0 then Some(a[0].payload) else box, a[1..], b);
    }
  }

  lemma {:induction false} SidebandWritesAppend(handlers: seq<Option<nat>>, a: seq<Frame>, b: seq<Frame>)
    ensures SidebandWrites(handlers, a + b) == SidebandWrites(handlers, a) + SidebandWrites(handlers, b)
    decreases |a|
  {
    if a == [] {
      assert a + b == b;
    } else {
      assert (a + b)[0] == a[0] && (a + b)[1..] == a[1..] + b;
      SidebandWritesAppend(handlers, a[1..], b);
      var f := a[0];
      var mine := if f.ep != 0 && f.ep < |handlers| && handlers[f.ep].Some?
                  then [Write(handlers[f.ep].value, f.payload)] else [];
      Regroup(mine, SidebandWrites(handlers, a[1..]), SidebandWrites(handlers, b));
    }
  }

  /** What a wait for a reply ends with: the mailbox, or nothing when the link fails first. */
  datatype Outcome = Outcome(reply: Option<seq<Byte>>, used: nat)

  function Await(box: Option<seq<Byte>>, turns: seq<Turn>): (o: Outcome)
    ensures o.used <= |turns|
    decreases |turns|
  {
    if box.Some? then Outcome(box, 0)
    else if turns == [] then Outcome(None, 0)
    else if turns[0].LinkDown? then Outcome(None, 1)
    else
      var o := Await(Accept(None, turns[0].frames), turns[1..]);
      Outcome(o.reply, o.used + 1)
  }

  /** A turn that brings no reply. */
  ghost predicate BringsNoReply(t: Turn) {
    t.Arrived? && forall f :: f in t.frames ==> f.ep != 0
  }

  /** The last frame on endpoint 0 among them carries `r`. */
  ghost predicate IsLastReply(fs: seq<Frame>, r: seq<Byte>) {
    exists k :: 0 <= k < |fs| && fs[k] == Frame(0, r) && forall j :: k < j < |fs| ==> fs[j].ep != 0
  }

  /** `r` is what ends a wait: the mailbox, or the last reply of the first turn that brings any, none failing before. */
  ghost predicate Answers(box: Option<seq<Byte>>, turns: seq<Turn>, r: seq<Byte>) {
    || box == Some(r)
    || (box.None? && exists n :: 0 <= n < |turns| && (forall i :: 0 <= i < n ==> BringsNoReply(turns[i]))
                                 && turns[n].Arrived? && IsLastReply(turns[n].frames, r))
  }

  lemma {:induction false} AcceptKeepsLast(box: Option<seq<Byte>>, fs: seq<Frame>)
    ensures BringsNoReply(Arrived(fs)) ==> Accept(box, fs) == box
    ensures !BringsNoReply(Arrived(fs)) ==> Accept(box, fs).Some? && IsLastReply(fs, Accept(box, fs).value)
    decreases |fs|
  {
    if fs != [] {
      var f, rest := fs[0], fs[1..];
      var box' := if f.ep == 0 then Some(f.payload) else box;
      AcceptKeepsLast(box', rest);
      assert forall g :: g in fs <==> g == f || g in rest;
      if BringsNoReply(Arrived(rest)) {
        if f.ep == 0 {
          assert fs[0] == Frame(0, f.payload) && forall j :: 0 < j < |fs| ==> fs[j] == rest[j - 1];
        }
      } else {
        var r := Accept(box', rest).value;
        var k :| 0 <= k < |rest| && rest[k] == Frame(0, r) && forall j :: k < j < |rest| ==> rest[j].ep != 0;
        assert fs[k + 1] == Frame(0, r) && forall j :: k + 1 < j < |fs| ==> fs[j] == rest[j - 1];
      }
    }
  }

  /**
   * The wait passes turns without a reply. It ends with the first that brings one,
   * and with its last reply; or with the first that fails; or with the turns.
   */
  lemma {:induction false} AwaitEnds(box: Option<seq<Byte>>, turns: seq<Turn>)
    ensures box.Some? ==> Await(box, turns) == Outcome(box, 0)
    ensures box.None? ==>
              var o := Await(None, turns);
              && (forall i :: 0 <= i < o.used - 1 ==> BringsNoReply(turns[i]))
              && (o.reply.Some? ==>
                    o.used > 0 && turns[o.used - 1].Arrived? && IsLastReply(turns[o.used - 1].frames, o.reply.value))
              && (o.reply.None? ==>
                    if o.used > 0 && turns[o.used - 1].LinkDown? then true
                    else o.used == |turns| && forall i :: 0 <= i < |turns| ==> BringsNoReply(turns[i]))
    decreases |turns|
  {
    if box.None? && turns != [] && turns[0].Arrived? {
      var fs, rest := turns[0].frames, turns[1..];
      AcceptKeepsLast(None, fs);
      assert turns[0] == Arrived(fs);
      AwaitEnds(Accept(None, fs), rest);
      assert forall i :: 0 < i < |turns| ==> turns[i] == rest[i - 1];
    }
  }

  lemma OneLastReply(fs: seq<Frame>, r: seq<Byte>, r': seq<Byte>)
    requires IsLastReply(fs, r) && IsLastReply(fs, r')
    ensures r == r' && !BringsNoReply(Arrived(fs))
  {
    var k :| 0 <= k < |fs| && fs[k] == Frame(0, r) && forall j :: k < j < |fs| ==> fs[j].ep != 0;
    var k' :| 0 <= k' < |fs| && fs[k'] == Frame(0, r') && forall j :: k' < j < |fs| ==> fs[j].ep != 0;
    assert fs[k] in fs;
  }

  /** The wait comes back with `r` exactly when `r` is what ends it. */
  lemma {:induction false} AwaitAnswers(box: Option<seq<Byte>>, turns: seq<Turn>, r: seq<Byte>)
    ensures Await(box, turns).reply == Some(r) <==> Answers(box, turns, r)
    decreases |turns|
  {
    AwaitEnds(box, turns);
    if box.None? && Await(box, turns).reply != Some(r) && Answers(box, turns, r) {
      var n :| 0 <= n < |turns| && (forall i :: 0 <= i < n ==> BringsNoReply(turns[i]))
               && turns[n].Arrived? && IsLastReply(turns[n].frames, r);
      var fs, rest := turns[0].frames, turns[1..];
      AcceptKeepsLast(None, fs);
      assert turns[0] == Arrived(fs);
      if n == 0 {
        OneLastReply(fs, r, r);
        OneLastReply(fs, r, Accept(None, fs).value);
      } else {
        assert BringsNoReply(turns[0]);
        assert rest[n - 1] == turns[n] && forall i :: 0 <= i < n - 1 ==> rest[i] == turns[i + 1];
        AwaitAnswers(None, rest, r);
      }
      assert false;
    }
  }

  /** The frames handed over during some turns. */
  function FramesOf(turns: seq<Turn>): seq<Frame> {
    if turns == [] then []
    else (if turns[0].Arrived? then turns[0].frames else []) + FramesOf(turns[1..])
  }

  lemma {:induction false} FramesOfAppend(a: seq<Turn>, b: seq<Turn>)
    ensures FramesOf(a + b) == FramesOf(a) + FramesOf(b)
    decreases |a|
  {
    if a == [] {
      assert a + b == b;
    } else {
      assert (a + b)[0] == a[0] && (a + b)[1..] == a[1..] + b;
      FramesOfAppend(a[1..], b);
    }
  }

  /** The sideband writes made while the first `n` turns go by. */
  function WritesDuring(handlers: seq<Option<nat>>, turns: seq<Turn>, n: nat): seq<Write<nat>>
    requires n <= |turns|
  {
    SidebandWrites(handlers, FramesOf(turns[..n]))
  }

  lemma WritesDuringMore(handlers: seq<Option<nat>>, turns: seq<Turn>, a: nat, b: nat)
    requires a <= |turns| && b <= |turns| - a
    ensures WritesDuring(handlers, turns, a + b)
         == WritesDuring(handlers, turns, a) + WritesDuring(handlers, turns[a..], b)
  {
    hide FramesOf, SidebandWrites;
    assert turns[..a + b] == turns[..a] + turns[a..][..b];
    FramesOfAppend(turns[..a], turns[a..][..b]);
    SidebandWritesAppend(handlers, FramesOf(turns[..a]), FramesOf(turns[a..][..b]));
  }

  /** The wait of a call without data: none when its request did not go out. */
  function CallWait(accepted: bool, box: Option<seq<Byte>>, turns: seq<Turn>): (o: Outcome)
    ensures o.used <= |turns|
  {
    if accepted then Await(box, turns) else Outcome(None, 0)
  }

  /** What such a call returns: 0 for a reply of 1. */
  function Verdict(o: Outcome): int {
    if o.reply.Some? && ReadU8(o.reply.value, 0).0 == 1 then 0 else -1
  }

  /** It is 0 exactly when the request went out and the reply that ended the wait starts with 1, and else -1. */
  lemma VerdictMeans(accepted: bool, box: Option<seq<Byte>>, turns: seq<Turn>)
    ensures var ret := Verdict(CallWait(accepted, box, turns));
            && (ret == 0 || ret == -1)
            && (ret == 0 <==> accepted && exists r :: Answers(box, turns, r) && r != [] && r[0] == 1)
  {
    hide Await, Answers;
    var o := Await(box, turns);
    if o.reply.Some? {
      AwaitAnswers(box, turns, o.reply.value);
    }
    if accepted && exists r :: Answers(box, turns, r) && r != [] && r[0] == 1 {
      var r :| Answers(box, turns, r) && r != [] && r[0] == 1;
      AwaitAnswers(box, turns, r);
    }
  }

  /** A `program` call: the requests it sends, the replies it gets, what it returns, the turns it takes. */
  datatype Progress = Progress(requests: seq<seq<Byte>>, replies: seq<seq<Byte>>, ret: int, used: nat)

  function ProgramCall(box: Option<seq<Byte>>, file: seq<Byte>, sent: nat, turns: seq<Turn>): (r: Progress)
    requires sent <= |file|
    ensures r.used <= |turns|
    decreases |file| - sent
  {
    var req := NextRequest(file, sent);
    var o := Await(box, turns);
    if o.reply.None? then Progress([req], [], -1, o.used)
    else if Advance(file, sent) < |file| then
      var r := ProgramCall(None, file, Advance(file, sent), turns[o.used..]);
      Progress([req] + r.requests, [o.reply.value] + r.replies, r.ret, o.used + r.used)
    else Progress([req], [o.reply.value], if ReadU8(o.reply.value, 0).0 == 1 then 0 else -1, o.used)
  }

  /**
   * The call sends the file's requests in order up to the first reply that does not
   * come, and returns 0 exactly when all were answered and the last answer was 1.
   */
  lemma {:induction false} ProgramOutcome(box: Option<seq<Byte>>, file: seq<Byte>, sent: nat, turns: seq<Turn>)
    requires sent <= |file|
    ensures var r, all := ProgramCall(box, file, sent, turns), Requests(file, sent);
            && 0 < |r.requests| <= |all| && r.requests == all[..|r.requests|]
            && |r.requests| - 1 <= |r.replies| <= |r.requests|
            && (|r.replies| == |r.requests| ==> r.requests == all)
            && (r.ret == 0 || r.ret == -1)
            && (r.ret == 0 <==> |r.replies| == |all| && ReadU8(r.replies[|all| - 1], 0).0 == 1)
    decreases |file| - sent
  {
    var o := Await(box, turns);
    var n := Advance(file, sent);
    if o.reply.Some? && n < |file| {
      ProgramOutcome(None, file, n, turns[o.used..]);
      var r := ProgramCall(None, file, n, turns[o.used..]);
      assert Requests(file, sent)[1..] == Requests(file, n);
      assert [NextRequest(file, sent)] + r.requests == Requests(file, sent)[..|r.requests| + 1];
    }
  }
}
