/**
 * Image transfers: what the server's buffer holds while a transfer's chunks arrive,
 * and exactly when the backend ends up with the image that was sent.
 */
module Transfers {
  import opened Bytes
  import opened Protocol
  import opened ServerModel

  /** What arrives during a transfer: its chunks in order, and other requests in between. */
  datatype Arrival = Chunk(data: seq<Byte>) | Other(payload: seq<Byte>)

  predicate HarmlessType(t: Byte) {
    t != MSG_PROGRAM && t != MSG_SHUTDOWN && t != MSG_DISCONNECT
  }

  function DataOf(x: Arrival): seq<Byte> {
    if x.Chunk? then x.data else []
  }

  /** The image bytes a list of arrivals brings. */
  function DataOfAll(xs: seq<Arrival>): seq<Byte> {
    if xs == [] then [] else DataOf(xs[0]) + DataOfAll(xs[1..])
  }

  /** The bytes on the wire: a chunk says `last` when it brings the transfer to its total. */
  function Payload(x: Arrival, total: nat, before: nat): seq<Byte> {
    match x
    case Chunk(data) => ProgramRequest(total, before + |data| >= total, data)
    case Other(payload) => payload
  }

  /** The state after a list of arrivals, when `before` bytes of the image came earlier. */
  function Receive(s: Server, xs: seq<Arrival>, envs: seq<Env>, total: nat, before: nat): Server
    requires |envs| == |xs|
    decreases |xs|
  {
    if xs == [] then s
    else
      var s' := Handle(s, Payload(xs[0], total, before), envs[0]).0;
      Receive(s', xs[1..], envs[1..], total, before + |DataOf(xs[0])|)
  }

  /** Each request of the list is one the buffer has room for when it comes. */
  predicate FitAll(s: Server, xs: seq<Arrival>, envs: seq<Env>, total: nat, before: nat)
    requires |envs| == |xs|
    decreases |xs|
  {
    xs == [] ||
    (FitsImage(s, Payload(xs[0], total, before)) &&
     FitAll(Handle(s, Payload(xs[0], total, before), envs[0]).0, xs[1..], envs[1..], total, before + |DataOf(xs[0])|))
  }

  /** The buffer of `capacity` bytes holds `content`; before a transfer's first chunk there is none yet. */
  predicate Holds(s: Server, capacity: nat, content: seq<Byte>, total: nat) {
    s.image == Some(Image(capacity, content)) || (s.image.None? && content == [] && capacity == total)
  }

  /** A chunk that fits a message, or a request that does not end the transfer. */
  predicate Acceptable(x: Arrival) {
    if x.Chunk? then |x.data| + 10 < U32 else HarmlessType(TypeOf(x.payload))
  }

  lemma ReceiveOther(s: Server, x: Arrival, env: Env, total: nat, before: nat)
    requires x.Other? && Acceptable(x)
    ensures var p := Payload(x, total, before);
            var s' := Handle(s, p, env).0;
            FitsImage(s, p) && s'.image == s.image && s'.programmed == s.programmed
  {
  }

  /** One chunk: it fits exactly when the buffer has room for it behind what it holds. */
  lemma ReceiveChunk(s: Server, x: Arrival, env: Env, total: nat, before: nat, capacity: nat, content: seq<Byte>)
    requires Holds(s, capacity, content, total) && total < U32
    requires x.Chunk? && Acceptable(x) && before + |x.data| <= total
    ensures var p := Payload(x, total, before);
            var s' := Handle(s, p, env).0;
            && (FitsImage(s, p) <==> |content| + |x.data| <= capacity)
            && (before + |x.data| < total ==>
                  s'.image == Some(Image(capacity, content + x.data)) && s'.programmed == s.programmed)
            && (before + |x.data| == total ==>
                  s'.image.None? && s'.programmed == s.programmed + [Programmed(content + x.data, env.status)])
  {
    ParseProgramRequest(total, before + |x.data| >= total, x.data);
    assert [] + x.data == x.data;
  }

  /** A request before the last chunk leaves the server holding its bytes after the earlier ones. */
  lemma ReceiveMore(s: Server, x: Arrival, env: Env, total: nat, before: nat, capacity: nat, content: seq<Byte>)
    requires Holds(s, capacity, content, total) && before <= total < U32 && Acceptable(x)
    requires x.Chunk? ==> before + |DataOf(x)| < total
    ensures before + |DataOf(x)| <= total
    ensures var p := Payload(x, total, before);
            var s' := Handle(s, p, env).0;
            && (|content| + |DataOf(x)| <= capacity ==> FitsImage(s, p))
            && Holds(s', capacity, content + DataOf(x), total) && s'.programmed == s.programmed
  {
    if x.Chunk? {
      ReceiveChunk(s, x, env, total, before, capacity, content);
    } else {
      ReceiveOther(s, x, env, total, before);
      assert content + [] == content;
    }
  }

  /** Every chunk of the list leaves the transfer short of its total. */
  predicate Short(xs: seq<Arrival>, total: nat, before: nat)
    decreases |xs|
  {
    xs == [] ||
    (Acceptable(xs[0]) && (xs[0].Chunk? ==> before + |DataOf(xs[0])| < total)
     && Short(xs[1..], total, before + |DataOf(xs[0])|))
  }

  /**
   * Any interleaving of one transfer's chunks with other requests: until the last
   * chunk the write index stands behind what the buffer held and exactly what has
   * arrived, the backend is left alone, and with room for it all every chunk fits.
   */
  lemma {:induction false} Reassembly(s: Server, xs: seq<Arrival>, envs: seq<Env>, total: nat, before: nat,
                                      capacity: nat, content: seq<Byte>)
    requires |envs| == |xs| && before <= total < U32
    requires Holds(s, capacity, content, total) && Short(xs, total, before)
    ensures |content + DataOfAll(xs)| <= capacity ==> FitAll(s, xs, envs, total, before)
    ensures Holds(Receive(s, xs, envs, total, before), capacity, content + DataOfAll(xs), total)
    ensures Receive(s, xs, envs, total, before).programmed == s.programmed
    decreases |xs|
  {
    hide Handle, FitsImage, Payload, Holds, Acceptable, DataOf;
    if xs == [] {
      assert content + DataOfAll(xs) == content;
    } else {
      var x := xs[0];
      ReceiveMore(s, x, envs[0], total, before, capacity, content);
      var s' := Handle(s, Payload(x, total, before), envs[0]).0;
      assert content + DataOf(x) + DataOfAll(xs[1..]) == content + DataOfAll(xs);
      Reassembly(s', xs[1..], envs[1..], total, before + |DataOf(x)|, capacity, content + DataOf(x));
    }
  }

  // ---- whole transfers, from any state ----

  /** What a buffer left over from an earlier transfer already holds. */
  function Leftover(s: Server): seq<Byte> {
    if s.image.Some? then s.image.value.filled else []
  }

  /** A transfer of `total` bytes: chunks among other requests, and the final chunk. */
  predicate IsTransfer(xs: seq<Arrival>, total: nat, final: seq<Byte>) {
    total < U32 && |final| + 10 < U32 && Short(xs, total, 0) && |DataOfAll(xs)| + |final| == total
  }

  /** No request of the transfer writes past the end of the image buffer. */
  predicate TransferFits(s: Server, xs: seq<Arrival>, envs: seq<Env>, total: nat, final: seq<Byte>)
    requires |envs| == |xs|
  {
    FitAll(s, xs, envs, total, 0) && FitsImage(Receive(s, xs, envs, total, 0), ProgramRequest(total, true, final))
  }

  /** The state after the final chunk. */
  function Completed(s: Server, xs: seq<Arrival>, envs: seq<Env>, total: nat, final: seq<Byte>, env: Env): Server
    requires |envs| == |xs|
  {
    Handle(Receive(s, xs, envs, total, 0), ProgramRequest(total, true, final), env).0
  }

  /** The backend is called once more, with exactly what was sent. */
  predicate ArrivesExactly(s: Server, xs: seq<Arrival>, envs: seq<Env>, total: nat, final: seq<Byte>, env: Env)
    requires |envs| == |xs|
  {
    Completed(s, xs, envs, total, final, env).programmed
    == s.programmed + [Programmed(DataOfAll(xs) + final, env.status)]
  }

  /** No buffer, or an empty one that is large enough. */
  predicate Clear(s: Server, total: nat) {
    s.image.None? || (s.image.value.filled == [] && total <= s.image.value.capacity)
  }

  /**
   * From every state: the transfer stays within the buffer exactly when there is
   * none yet or it has room for the transfer behind what it holds; when it does, the
   * backend gets what was left before what was sent; and so the transfer both fits
   * and arrives exactly if and only if the server is clear for it.
   */
  lemma TransferCompletes(s: Server, xs: seq<Arrival>, envs: seq<Env>, total: nat, final: seq<Byte>, env: Env)
    requires |envs| == |xs| && IsTransfer(xs, total, final)
    ensures TransferFits(s, xs, envs, total, final) <==>
            s.image.None? || |Leftover(s)| + total <= s.image.value.capacity
    ensures TransferFits(s, xs, envs, total, final) ==>
            var t := Completed(s, xs, envs, total, final, env);
            && t.image.None?
            && t.programmed == s.programmed + [Programmed(Leftover(s) + (DataOfAll(xs) + final), env.status)]
    ensures TransferFits(s, xs, envs, total, final) && ArrivesExactly(s, xs, envs, total, final, env) <==>
            Clear(s, total)
  {
    hide Handle, FitsImage, Short, Receive, FitAll, ProgramRequest;
    var content, sofar := Leftover(s), DataOfAll(xs);
    var capacity := if s.image.Some? then s.image.value.capacity else total;
    Reassembly(s, xs, envs, total, 0, capacity, content);
    LastChunk(Receive(s, xs, envs, total, 0), total, final, env, |sofar|, capacity, content + sofar);
    assert content + sofar + final == content + (sofar + final);
    ExactIffNothingLeft(s.programmed, content, sofar + final, env.status);
  }

  lemma LastChunk(s: Server, total: nat, final: seq<Byte>, env: Env, before: nat, capacity: nat, content: seq<Byte>)
    requires Holds(s, capacity, content, total) && before + |final| == total < U32 && |final| + 10 < U32
    ensures var p := ProgramRequest(total, true, final);
            var s' := Handle(s, p, env).0;
            && (FitsImage(s, p) <==> |content| + |final| <= capacity)
            && s'.image.None?
            && s'.programmed == s.programmed + [Programmed(content + final, env.status)]
  {
    ReceiveChunk(s, Chunk(final), env, total, before, capacity, content);
  }

  lemma ExactIffNothingLeft(log: seq<Programmed>, left: seq<Byte>, whole: seq<Byte>, status: int)
    ensures log + [Programmed(left + whole, status)] == log + [Programmed(whole, status)] <==> left == []
  {
    if left == [] {
      assert left + whole == whole;
    } else {
      assert |left + whole| != |whole|;
      assert (log + [Programmed(left + whole, status)])[|log|] != (log + [Programmed(whole, status)])[|log|];
    }
  }

  // ---- the same, told from the requests sent before ----

  predicate IsProgram(e: Event) {
    e.Request? && TypeOf(e.payload) == MSG_PROGRAM
  }

  /** The PROGRAM requests of a run after the last one that was flagged last. */
  function SinceLast(es: seq<Event>): seq<ProgramMsg> {
    if es == [] then []
    else
      var e, earlier := es[|es| - 1], SinceLast(es[..|es| - 1]);
      if !IsProgram(e) then earlier
      else if ParseProgram(e.payload).last then []
      else earlier + [ParseProgram(e.payload)]
  }

  function TotalSize(qs: seq<ProgramMsg>): nat {
    if qs == [] then 0 else TotalSize(qs[..|qs| - 1]) + qs[|qs| - 1].size
  }

  /** The buffer is the one the first of those requests asked for, and its index where their sizes put it. */
  lemma {:induction false} ImageFromHistory(s: Server, es: seq<Event>)
    requires Started(s)
    ensures var t, qs := RunEvents(s, es), SinceLast(es);
            && (t.image.None? <==> qs == [])
            && (t.image.Some? ==> t.image.value.capacity == qs[0].total && |t.image.value.filled| == TotalSize(qs))
    decreases |es|
  {
    if es != [] {
      var n := |es| - 1;
      var e, t := es[n], RunEvents(s, es[..n]);
      assert es == es[..n] + [e] && [e][1..] == [];
      RunAppend(s, es[..n], [e]);
      ImageFromHistory(s, es[..n]);
      ImageStep(t, e, SinceLast(es[..n]));
    }
  }

  lemma ImageStep(t: Server, e: Event, qs: seq<ProgramMsg>)
    requires t.image.None? <==> qs == []
    requires t.image.Some? ==> t.image.value.capacity == qs[0].total && |t.image.value.filled| == TotalSize(qs)
    ensures var u := After(t, e);
            var rs := if !IsProgram(e) then qs
                      else if ParseProgram(e.payload).last then [] else qs + [ParseProgram(e.payload)];
            && (u.image.None? <==> rs == [])
            && (u.image.Some? ==> u.image.value.capacity == rs[0].total && |u.image.value.filled| == TotalSize(rs))
  {
    if IsProgram(e) {
      var q := ParseProgram(e.payload);
      assert (qs + [q])[..|qs|] == qs;
      assert |ChunkOf(q, e.env)| == q.size;
    }
  }

  /** The bytes the PROGRAM requests of a run brought after the last one that was flagged last. */
  function BytesSinceLast(es: seq<Event>): seq<Byte> {
    if es == [] then []
    else
      var e, before := es[|es| - 1], BytesSinceLast(es[..|es| - 1]);
      if !IsProgram(e) then before
      else if ParseProgram(e.payload).last then []
      else before + ChunkOf(ParseProgram(e.payload), e.env)
  }

  /** One call for each PROGRAM request that is flagged last: with all the bytes since the one before it. */
  function BackendCalls(es: seq<Event>): seq<Programmed> {
    if es == [] then []
    else
      var e, n := es[|es| - 1], |es| - 1;
      if IsProgram(e) && ParseProgram(e.payload).last
      then BackendCalls(es[..n])
           + [Programmed(BytesSinceLast(es[..n]) + ChunkOf(ParseProgram(e.payload), e.env), e.env.status)]
      else BackendCalls(es[..n])
  }

  /** Over every run of a started server these are the calls of the backend, in this order, and no others. */
  lemma {:induction false} BackendCallsFromHistory(s: Server, es: seq<Event>)
    requires Started(s)
    ensures RunEvents(s, es).programmed == BackendCalls(es)
    ensures BytesSinceLast(es) == if RunEvents(s, es).image.Some? then RunEvents(s, es).image.value.filled else []
    decreases |es|
  {
    hide ParseProgram, ChunkOf;
    if es != [] {
      var n := |es| - 1;
      var e, t := es[n], RunEvents(s, es[..n]);
      assert es == es[..n] + [e] && [e][1..] == [];
      RunAppend(s, es[..n], [e]);
      BackendCallsFromHistory(s, es[..n]);
      assert RunEvents(s, es) == After(t, e);
      if !IsProgram(e) {
        OnlyProgramReachesBackend(t, e);
      }
    }
  }

  /** All PROGRAM requests since the last complete transfer were empty, and asked for a large enough buffer. */
  predicate ClearHistory(qs: seq<ProgramMsg>, total: nat) {
    (forall i :: 0 <= i < |qs| ==> qs[i].size == 0) && (qs != [] ==> total <= qs[0].total)
  }

  lemma {:induction false} TotalSizeZero(qs: seq<ProgramMsg>)
    ensures TotalSize(qs) == 0 <==> forall i :: 0 <= i < |qs| ==> qs[i].size == 0
  {
    if qs != [] {
      var n := |qs| - 1;
      TotalSizeZero(qs[..n]);
      assert forall i :: 0 <= i < n ==> qs[..n][i] == qs[i];
    }
  }

  /**
   * After any run of a started server, a transfer fits and arrives exactly if and
   * only if no PROGRAM request since the last one flagged last has carried data or
   * made the buffer too small.
   */
  lemma TransferAfterRun(s: Server, es: seq<Event>, xs: seq<Arrival>, envs: seq<Env>,
                         total: nat, final: seq<Byte>, env: Env)
    requires Started(s) && |envs| == |xs| && IsTransfer(xs, total, final)
    ensures var t := RunEvents(s, es);
            TransferFits(t, xs, envs, total, final) && ArrivesExactly(t, xs, envs, total, final, env) <==>
            ClearHistory(SinceLast(es), total)
  {
    hide TransferFits, ArrivesExactly, IsTransfer, Started, RunEvents, SinceLast;
    ImageFromHistory(s, es);
    TotalSizeZero(SinceLast(es));
    TransferCompletes(RunEvents(s, es), xs, envs, total, final, env);
  }

  // ---- a run that leaves something ----

  /** A transfer of `file` that stops after `n` bytes, a disconnect, and a new connection. */
  function Abandon(file: seq<Byte>, n: nat, e1: Env, e2: Env): seq<Event>
    requires n <= |file|
  {
    [Connect, Request(ProgramRequest(|file|, false, file[..n]), e1), Request([MSG_DISCONNECT], e2), Connect]
  }

  /** Every request of such a run is in order, yet sending the same file again writes past the buffer. */
  lemma RetryOverruns(s: Server, file: seq<Byte>, n: nat, e1: Env, e2: Env)
    requires Started(s) && 0 < n < |file| && |file| + 10 < U32
    ensures var t := RunEvents(s, Abandon(file, n, e1, e2));
            && EnabledAll(s, Abandon(file, n, e1, e2)) && InSession(t)
            && FitsImage(After(s, Connect), ProgramRequest(|file|, false, file[..n]))
            && !FitsImage(t, ProgramRequest(|file|, true, file))
  {
    var s1 := After(s, Connect);
    var p := ProgramRequest(|file|, false, file[..n]);
    var s2 := After(s1, Request(p, e1));
    var s3 := After(s2, Request([MSG_DISCONNECT], e2));
    var es := Abandon(file, n, e1, e2);
    StartedIsGood(s);
    ReceiveChunk(s1, Chunk(file[..n]), e1, |file|, 0, |file|, []);
    SessionStep(s1, Request(p, e1));
    assert s2.image == Some(Image(|file|, file[..n])) by {
      assert [] + file[..n] == file[..n];
    }
    assert InSession(s2) by {
      ParseProgramRequest(|file|, false, file[..n]);
      ProgramKeepsSession(s1, ParseProgram(p), e1);
    }
    FourEvents(s, es);
    var t := After(s3, Connect);
    assert t.image == s2.image;
    ReceiveChunk(t, Chunk(file), e1, |file|, 0, |file|, file[..n]);
  }

  lemma FourEvents(s: Server, es: seq<Event>)
    requires |es| == 4
    ensures var s1 := After(s, es[0]);
            var s2 := After(s1, es[1]);
            var s3 := After(s2, es[2]);
            && RunEvents(s, es) == After(s3, es[3])
            && (Enabled(s, es[0]) && Enabled(s1, es[1]) && Enabled(s2, es[2]) && Enabled(s3, es[3])
                ==> EnabledAll(s, es))
  {
    hide After, Enabled;
    var a, b, c := es[1..], es[2..], es[3..];
    assert a[1..] == b && b[1..] == c && c[1..] == [];
    var s1 := After(s, es[0]);
    var s2 := After(s1, es[1]);
    var s3 := After(s2, es[2]);
    assert RunEvents(s, es) == RunEvents(s1, a) == RunEvents(s2, b) == RunEvents(s3, c);
    assert RunEvents(s3, c) == RunEvents(After(s3, es[3]), []);
    if Enabled(s, es[0]) && Enabled(s1, es[1]) && Enabled(s2, es[2]) && Enabled(s3, es[3]) {
      assert EnabledAll(After(s3, es[3]), []);
      assert EnabledAll(s3, c);
      assert EnabledAll(s2, b);
      assert EnabledAll(s1, a);
    }
  }
}
