/**
 * The server's state and what each request, connect and shutdown does to it, as
 * functions; and what every run of it keeps.
 */
module ServerModel {
  import opened Bytes
  import opened Protocol

  /** A slot of the sideband table. `faults` counts opens made while the stream was already open. */
  datatype Stream = NoStream | Stream(sideband: bool, open: bool, faults: nat)

  /** What the mux holds: a stream and the data handler its bytes go to. */
  datatype StreamRef = ConnectRef | ClientRef | SidebandRef(ep: nat)
  datatype HandlerRef = FrameRef | ServerRef | SidebandHandlerRef(ep: nat)

  /** The image under assembly: the size of its buffer and the bytes up to the write index. */
  datatype Image = Image(capacity: nat, filled: seq<Byte>)

  /** One call of the backend: what it was given and what it returned. */
  datatype Programmed = Programmed(image: seq<Byte>, status: int)

  datatype Server = Server(
    streams: seq<Stream>,
    sidebandOpen: bool,
    shutdownReq: bool,
    image: Option<Image>,
    client: bool,
    handler: Option<seq<Option<HandlerRef>>>,
    muxStreams: seq<StreamRef>,
    muxHandlers: seq<Option<HandlerRef>>,
    programmed: seq<Programmed>)

  /** What the world decides during one request: the backend's status, and bytes of fresh memory a read left alone. */
  datatype Env = Env(status: int, garbage: seq<Byte>)

  // ---- sideband streams ----

  function OpenStream(x: Stream): Stream {
    if x.Stream? && x.sideband then x.(open := true, faults := if x.open then x.faults + 1 else x.faults) else x
  }

  function CloseStream(x: Stream): Stream {
    if x.Stream? && x.sideband then x.(open := false) else x
  }

  /** Slot 0 is never touched. */
  function OpenFrom(xs: seq<Stream>, first: nat): seq<Stream> {
    seq(|xs|, i requires 0 <= i < |xs| => if i < first then xs[i] else OpenStream(xs[i]))
  }

  function CloseFrom(xs: seq<Stream>, first: nat): seq<Stream> {
    seq(|xs|, i requires 0 <= i < |xs| => if i < first then xs[i] else CloseStream(xs[i]))
  }

  function OpenSideband(s: Server): Server {
    if s.sidebandOpen then s else s.(streams := OpenFrom(s.streams, 1), sidebandOpen := true)
  }

  function CloseSideband(s: Server): Server {
    if s.sidebandOpen then s.(streams := CloseFrom(s.streams, 1), sidebandOpen := false) else s
  }

  // ---- session ----

  function InitWaitConnect(s: Server): Server {
    s.(client := false, handler := None, muxStreams := [ConnectRef], muxHandlers := [None])
  }

  /** References to endpoints 1 up to, not including, `n`. */
  function SidebandRefs(n: nat): seq<StreamRef> {
    if n <= 1 then [] else SidebandRefs(n - 1) + [SidebandRef(n - 1)]
  }

  function SidebandHandlers(n: nat): seq<Option<HandlerRef>> {
    if n <= 1 then [] else SidebandHandlers(n - 1) + [Some(SidebandHandlerRef(n - 1))]
  }

  function HandleConnect(s: Server): Server {
    var n := |s.streams|;
    s.(client := true,
       handler := Some([Some(ServerRef)] + SidebandHandlers(n)),
       muxStreams := [ClientRef] + SidebandRefs(n),
       muxHandlers := [Some(FrameRef)] + SidebandHandlers(n))
  }

  // ---- requests ----

  function Fill(garbage: seq<Byte>, size: nat): (r: seq<Byte>)
    ensures |r| == size
  {
    seq(size, i => if 0 <= i < |garbage| then garbage[i] else 0)
  }

  /** The bytes the write index moves over: the request's data, or what the buffer held. */
  function ChunkOf(p: ProgramMsg, env: Env): seq<Byte> {
    if p.data.Some? then p.data.value else Fill(env.garbage, p.size)
  }

  /** The image a PROGRAM request adds to; the first of a transfer closes the sidebands and makes the buffer. */
  function Prepare(s: Server, p: ProgramMsg): Server {
    if s.image.None? then CloseSideband(s).(image := Some(Image(p.total, []))) else s
  }

  function HandleProgram(s: Server, p: ProgramMsg, env: Env): (Server, seq<Byte>) {
    var s1 := Prepare(s, p);
    var filled := s1.image.value.filled + ChunkOf(p, env);
    if p.last then
      (s1.(image := None, programmed := s1.programmed + [Programmed(filled, env.status)]),
       [if env.status == 0 then 1 else 0])
    else
      (s1.(image := Some(s1.image.value.(filled := filled))), [1])
  }

  /** The state after one message on endpoint 0, and the reply sent. */
  function Handle(s: Server, p: seq<Byte>, env: Env): (Server, Option<seq<Byte>>) {
    var t := TypeOf(p);
    if t == MSG_SHUTDOWN then (CloseSideband(s).(shutdownReq := true), Some([1]))
    else if t == MSG_PROGRAM then
      var (s1, reply) := HandleProgram(s, ParseProgram(p), env);
      (s1, Some(reply))
    else if t == MSG_DISCONNECT then (InitWaitConnect(CloseSideband(s)), Some([1]))
    else if t == MSG_CONFIG_SIDEBAND then
      (if ConfigArgument(p) != 0 then OpenSideband(s) else CloseSideband(s), Some([1]))
    else if t == MSG_PING then (s, Some([1]))
    else (s, None)
  }

  /** The image buffer a request writes to has room for what it announces, and no cursor overflows 32 bits. */
  predicate FitsImage(s: Server, p: seq<Byte>) {
    TypeOf(p) == MSG_PROGRAM ==>
      var q := ParseProgram(p);
      && ParseHeader(p).3 + q.size < U32
      && match s.image
         case None => q.size <= q.total
         case Some(image) => |image.filled| + q.size <= image.capacity
  }

  // ---- runs ----

  /** Everything that can happen to the server; `Reap` is the clean-up after a shutdown request. */
  datatype Event = Connect | Request(payload: seq<Byte>, env: Env) | Reap

  predicate Enabled(s: Server, e: Event) {
    match e
    case Connect => ConnectRef in s.muxStreams && !s.shutdownReq
    case Request(_, _) => s.handler.Some? && ClientRef in s.muxStreams
    case Reap => s.shutdownReq
  }

  function After(s: Server, e: Event): Server {
    match e
    case Connect => HandleConnect(s)
    case Request(p, env) => Handle(s, p, env).0
    case Reap => s.(client := false, handler := None)
  }

  function RunEvents(s: Server, es: seq<Event>): Server
    decreases |es|
  {
    if es == [] then s else RunEvents(After(s, es[0]), es[1..])
  }

  predicate EnabledAll(s: Server, es: seq<Event>)
    decreases |es|
  {
    es == [] || (Enabled(s, es[0]) && EnabledAll(After(s, es[0]), es[1..]))
  }

  lemma {:induction false} RunAppend(s: Server, a: seq<Event>, b: seq<Event>)
    ensures RunEvents(s, a + b) == RunEvents(RunEvents(s, a), b)
    ensures EnabledAll(s, a + b) <==> EnabledAll(s, a) && EnabledAll(RunEvents(s, a), b)
    decreases |a|
  {
    hide After, Enabled;
    if a == [] {
      assert a + b == b;
    } else {
      assert (a + b)[0] == a[0] && (a + b)[1..] == a[1..] + b;
      RunAppend(After(s, a[0]), a[1..], b);
    }
  }

  /** A started server whose sideband streams are all closed; it neither opens nor closes the others. */
  predicate Started(s: Server) {
    && s == InitWaitConnect(s) && !s.sidebandOpen && !s.shutdownReq && s.image.None? && s.programmed == []
    && forall k :: 1 <= k < |s.streams| ==>
         s.streams[k].Stream? && s.streams[k].faults == 0 && (s.streams[k].sideband ==> !s.streams[k].open)
  }

  predicate IsDisconnect(e: Event) {
    e.Request? && TypeOf(e.payload) == MSG_DISCONNECT
  }

  // ---- one session at a time ----

  predicate Waiting(s: Server) {
    s.muxStreams == [ConnectRef] && s.muxHandlers == [None] && s.handler.None? && !s.client
  }

  predicate InSession(s: Server) {
    var n := |s.streams|;
    && s.client
    && s.muxStreams == [ClientRef] + SidebandRefs(n)
    && s.muxHandlers == [Some(FrameRef)] + SidebandHandlers(n)
    && s.handler == Some([Some(ServerRef)] + SidebandHandlers(n))
  }

  /** Endpoint k's stream and both its handlers sit at index k. */
  lemma {:induction false} TablesInOrder(n: nat, k: nat)
    requires 1 <= k < n
    ensures |SidebandRefs(n)| == |SidebandHandlers(n)| == n - 1
    ensures SidebandRefs(n)[k - 1] == SidebandRef(k)
    ensures SidebandHandlers(n)[k - 1] == Some(SidebandHandlerRef(k))
    decreases n
  {
    if k < n - 1 {
      TablesInOrder(n - 1, k);
    } else if n > 2 {
      TablesInOrder(n - 1, 1);
    }
  }

  lemma {:induction false} NoConnectRef(n: nat)
    ensures ConnectRef !in SidebandRefs(n)
  {
    if n > 1 {
      NoConnectRef(n - 1);
    }
  }

  /** In every reachable state that is not shutting down exactly one of the two mux layouts is in place. */
  ghost predicate SessionShape(s: Server) {
    !s.shutdownReq ==> Waiting(s) || InSession(s)
  }

  lemma SessionStep(s: Server, e: Event)
    requires SessionShape(s) && Enabled(s, e)
    ensures SessionShape(After(s, e)) && |After(s, e).streams| == |s.streams|
    ensures s.shutdownReq ==> After(s, e).shutdownReq
    ensures !s.shutdownReq && InSession(s) ==> !e.Connect?
    ensures !s.shutdownReq && InSession(s) && Waiting(After(s, e)) ==> IsDisconnect(e)
  {
    hide HandleProgram, ParseProgram, SidebandRefs, SidebandHandlers;
    NoConnectRef(|s.streams|);
    if e.Request? {
      ProgramKeepsSession(s, ParseProgram(e.payload), e.env);
    }
  }

  lemma ProgramKeepsSession(s: Server, p: ProgramMsg, env: Env)
    ensures var t := HandleProgram(s, p, env).0;
            && t.handler == s.handler && t.muxStreams == s.muxStreams && t.muxHandlers == s.muxHandlers
            && t.client == s.client && t.shutdownReq == s.shutdownReq && |t.streams| == |s.streams|
  {
  }

  lemma {:induction false} ShapeKept(s: Server, es: seq<Event>)
    requires SessionShape(s) && EnabledAll(s, es)
    ensures SessionShape(RunEvents(s, es)) && |RunEvents(s, es).streams| == |s.streams|
    ensures s.shutdownReq ==> RunEvents(s, es).shutdownReq
    decreases |es|
  {
    if es != [] {
      SessionStep(s, es[0]);
      ShapeKept(After(s, es[0]), es[1..]);
    }
  }

  /**
   * Every run of a started server: one of the two mux layouts is in place until a
   * shutdown is requested, and the request is never taken back.
   */
  lemma SessionInvariant(s: Server, es: seq<Event>, more: seq<Event>)
    requires Started(s) && EnabledAll(s, es + more)
    ensures SessionShape(RunEvents(s, es)) && |RunEvents(s, es).streams| == |s.streams|
    ensures RunEvents(s, es).shutdownReq ==> RunEvents(s, es + more).shutdownReq
  {
    hide After, Enabled;
    StartedIsGood(s);
    RunAppend(s, es, more);
    ShapeKept(s, es);
    ShapeKept(RunEvents(s, es), more);
  }

  /** While a session lasts, no connect can happen before a disconnect has. */
  lemma {:induction false} NextConnect(s: Server, es: seq<Event>)
    requires SessionShape(s) && !s.shutdownReq && InSession(s) && EnabledAll(s, es)
    requires es != [] && es[|es| - 1].Connect?
    ensures exists i :: 0 <= i < |es| - 1 && IsDisconnect(es[i])
    decreases |es|
  {
    var s' := After(s, es[0]);
    SessionStep(s, es[0]);
    if !IsDisconnect(es[0]) {
      if s'.shutdownReq {
        LastConnectNotShut(s', es[1..]);
      } else {
        NextConnect(s', es[1..]);
        var i :| 0 <= i < |es[1..]| - 1 && IsDisconnect(es[1..][i]);
        assert es[i + 1] == es[1..][i];
      }
    } else {
      assert |es| > 1;
    }
  }

  /** After a shutdown request no connect is possible at all. */
  lemma {:induction false} LastConnectNotShut(s: Server, es: seq<Event>)
    requires SessionShape(s) && s.shutdownReq && EnabledAll(s, es)
    ensures es != [] ==> !es[|es| - 1].Connect?
    decreases |es|
  {
    if es != [] {
      SessionStep(s, es[0]);
      LastConnectNotShut(After(s, es[0]), es[1..]);
    }
  }

  /** Between any two connects of a run there is a disconnect. */
  lemma ConnectNeedsDisconnect(s: Server, es: seq<Event>, i: nat, j: nat)
    requires Started(s) && EnabledAll(s, es)
    requires i < j < |es| && es[i].Connect? && es[j].Connect?
    ensures exists k :: i < k < j && IsDisconnect(es[k])
  {
    hide After, Enabled, SessionShape, InSession;
    var before, between, rest := es[..i], es[i + 1..j + 1], es[j + 1..];
    assert es == before + ([Connect] + (between + rest));
    StartedIsGood(s);
    RunAppend(s, before, [Connect] + (between + rest));
    ShapeKept(s, before);
    var t := RunEvents(s, before);
    ConnectOpens(t, between + rest);
    RunAppend(After(t, Connect), between, rest);
    NextConnect(After(t, Connect), between);
    var k :| 0 <= k < |between| - 1 && IsDisconnect(between[k]);
    assert es[i + 1 + k] == between[k];
  }

  lemma ConnectOpens(t: Server, rest: seq<Event>)
    requires SessionShape(t) && EnabledAll(t, [Connect] + rest)
    ensures var u := After(t, Connect);
            SessionShape(u) && InSession(u) && !u.shutdownReq && EnabledAll(u, rest)
  {
    assert ([Connect] + rest)[1..] == rest;
  }

  // ---- replies ----

  /** The replies a run sends. */
  function RepliesOf(s: Server, es: seq<Event>): seq<seq<Byte>>
    decreases |es|
  {
    if es == [] then []
    else
      var e := es[0];
      var reply := if e.Request? then Handle(s, e.payload, e.env).1 else None;
      (if reply.Some? then [reply.value] else []) + RepliesOf(After(s, e), es[1..])
  }

  predicate Known(p: seq<Byte>) {
    TypeOf(p) in {MSG_PROGRAM, MSG_SHUTDOWN, MSG_DISCONNECT, MSG_CONFIG_SIDEBAND, MSG_PING}
  }

  /** The request makes the server call its backend. */
  predicate CallsBackend(p: seq<Byte>) {
    TypeOf(p) == MSG_PROGRAM && ParseProgram(p).last
  }

  /** What the requests of a run deserve: one answer each, and 0 only for a backend that fails. */
  function AnswersTo(es: seq<Event>): seq<seq<Byte>> {
    if es == [] then []
    else
      var e := es[0];
      (if e.Request? && Known(e.payload) then [[if CallsBackend(e.payload) && e.env.status != 0 then 0 else 1]] else [])
      + AnswersTo(es[1..])
  }

  /** Every run answers its known requests once, in order, whatever state they met; unknown ones get nothing. */
  lemma {:induction false} RepliesMatchRequests(s: Server, es: seq<Event>)
    ensures RepliesOf(s, es) == AnswersTo(es)
    decreases |es|
  {
    if es != [] {
      RepliesMatchRequests(After(s, es[0]), es[1..]);
    }
  }

  // ---- sideband streams and the flag ----

  /** Every sideband stream is open exactly when the flag says so, and none was ever opened twice. */
  predicate Agree(s: Server) {
    forall k :: 1 <= k < |s.streams| && s.streams[k].Stream? ==>
      s.streams[k].faults == 0 && (s.streams[k].sideband ==> s.streams[k].open == s.sidebandOpen)
  }

  predicate AllClosed(s: Server) {
    && !s.sidebandOpen
    && forall k :: 1 <= k < |s.streams| && s.streams[k].Stream? && s.streams[k].sideband ==> !s.streams[k].open
  }

  lemma SidebandStep(s: Server, e: Event)
    requires Agree(s)
    ensures Agree(After(s, e))
    ensures e.Request? && TypeOf(e.payload) in {MSG_SHUTDOWN, MSG_DISCONNECT} ==> AllClosed(After(s, e))
    ensures e.Request? && TypeOf(e.payload) == MSG_PROGRAM && s.image.None? ==> AllClosed(After(s, e))
    ensures e.Request? && TypeOf(e.payload) == MSG_CONFIG_SIDEBAND ==>
              After(s, e).sidebandOpen == (ConfigArgument(e.payload) != 0)
  {
  }

  lemma {:induction false} AgreeKept(s: Server, es: seq<Event>)
    requires Agree(s)
    ensures Agree(RunEvents(s, es))
    decreases |es|
  {
    if es != [] {
      SidebandStep(s, es[0]);
      AgreeKept(After(s, es[0]), es[1..]);
    }
  }

  /** Every run of a started server. */
  lemma SidebandAgreement(s: Server, es: seq<Event>)
    requires Started(s)
    ensures Agree(RunEvents(s, es))
  {
    StartedIsGood(s);
    AgreeKept(s, es);
  }

  lemma StartedIsGood(s: Server)
    requires Started(s)
    ensures Agree(s) && SessionShape(s) && Waiting(s)
  {
  }

  // ---- what each event leaves alone ----

  predicate IsShutdown(e: Event) {
    e.Request? && TypeOf(e.payload) == 2
  }

  /** Only a PROGRAM request touches the image, and only one flagged last calls the backend, once. */
  lemma OnlyProgramReachesBackend(s: Server, e: Event)
    ensures !(e.Request? && TypeOf(e.payload) == 1) ==> After(s, e).image == s.image
    ensures !(e.Request? && CallsBackend(e.payload)) ==> After(s, e).programmed == s.programmed
    ensures e.Request? && CallsBackend(e.payload) ==>
              && |After(s, e).programmed| == |s.programmed| + 1
              && After(s, e).programmed[..|s.programmed|] == s.programmed
              && After(s, e).programmed[|s.programmed|].status == e.env.status
  {
    hide ParseProgram;
  }

  /** Only SHUTDOWN asks for the shutdown. */
  lemma OnlyShutdownShutsDown(s: Server, e: Event)
    ensures After(s, e).shutdownReq <==> s.shutdownReq || IsShutdown(e)
  {
    hide ParseProgram;
  }

  /** No request but DISCONNECT touches the session, and DISCONNECT ends it. */
  lemma OnlyDisconnectEndsSession(s: Server, e: Event)
    requires e.Request?
    ensures IsDisconnect(e) ==> Waiting(After(s, e))
    ensures !IsDisconnect(e) ==>
              && After(s, e).client == s.client && After(s, e).handler == s.handler
              && After(s, e).muxStreams == s.muxStreams && After(s, e).muxHandlers == s.muxHandlers
  {
    hide ParseProgram;
  }

  /** The same slots of the same kinds; slot 0 and the streams that are not of the sideband type as they were. */
  predicate OthersKept(xs: seq<Stream>, ys: seq<Stream>) {
    && |ys| == |xs|
    && forall k :: 0 <= k < |xs| ==>
         if k > 0 && xs[k].Stream? && xs[k].sideband then ys[k].Stream? && ys[k].sideband else ys[k] == xs[k]
  }

  lemma SwitchingKeepsOthers(s: Server)
    ensures OthersKept(s.streams, OpenSideband(s).streams) && OthersKept(s.streams, CloseSideband(s).streams)
  {
  }

  lemma OnlySidebandsSwitch(s: Server, e: Event)
    ensures OthersKept(s.streams, After(s, e).streams)
  {
    hide ParseProgram, OpenSideband, CloseSideband, OthersKept, ChunkOf;
    SwitchingKeepsOthers(s);
    assert OthersKept(s.streams, s.streams) by { SameKept(s.streams); }
  }

  lemma SameKept(xs: seq<Stream>)
    ensures OthersKept(xs, xs)
  {
  }

  /** Requests that are none of PROGRAM, SHUTDOWN, DISCONNECT and CONFIG change nothing at all. */
  lemma OtherRequestsChangeNothing(s: Server, p: seq<Byte>, env: Env)
    requires TypeOf(p) == 0 || TypeOf(p) >= 5
    ensures Handle(s, p, env).0 == s
  {
  }

  /** A connect makes a session and a clean-up ends one; neither touches anything else. */
  lemma ConnectAndReap(s: Server)
    ensures InSession(After(s, Connect))
    ensures After(s, Connect) == s.(client := After(s, Connect).client, handler := After(s, Connect).handler,
                                    muxStreams := After(s, Connect).muxStreams,
                                    muxHandlers := After(s, Connect).muxHandlers)
    ensures !After(s, Reap).client && forall p, env :: !Enabled(After(s, Reap), Request(p, env))
    ensures After(s, Reap) == s.(client := false, handler := None)
  {
  }
}
