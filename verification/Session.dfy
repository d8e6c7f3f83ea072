/**
 * Client and server as two machines joined by two byte channels. Every step of
 * either side, every short write of a frame and every way the bytes can be cut on
 * arrival is a `Step`; while a side is in its write loop it does nothing else.
 */
module Session {
  import opened Bytes
  import opened Message
  import opened Frames
  import opened Protocol
  import opened Link
  import opened Mux
  import C = ClientModel
  import M = ServerModel

  /** The call a client is in; `from` is where in the file the outstanding request starts. */
  datatype Call = Idle | Program(file: seq<Byte>, from: nat) | Config(enable: bool) | Close | Shutdown

  /** What a registered sideband handler has been given, and what came before it was registered. */
  datatype Sink = Sink(missed: seq<Byte>, bytes: seq<Byte>)

  datatype Client = Client(connected: bool, call: Call, box: Option<seq<Byte>>, sinks: map<Byte, Sink>)

  /** A completed `program` call. */
  datatype Finished = Finished(file: seq<Byte>, ret: int)

  /**
   * `sentUp`, `gotUp`, `sentDown` and `gotDown` are this connection's history of
   * frames, `streamed` the bytes taken from sideband streams, `taken` the replies the
   * client has consumed; `finished` spans all connections.
   */
  datatype State = State(
    client: Client, server: M.Server, up: Link, down: Link,
    sentUp: seq<Frame>, gotUp: seq<Frame>, sentDown: seq<Frame>, gotDown: seq<Frame>,
    streamed: seq<Frame>, taken: nat, finished: seq<Finished>)

  datatype Step =
    | Connect
    | Begin(call: Call)
    | Take
    | ServerRecv(n: nat, envs: seq<M.Env>)
    | ClientRecv(n: nat)
    | StreamRead(ep: Byte, data: seq<Byte>)
    | ClientWrite(ep: Byte, data: seq<Byte>)
    | PushUp(k: nat)
    | PushDown(k: nat)
    | Register(ep: Byte)
    | Reap

  // ---- what the calls ask ----

  predicate WellFormed(call: Call) {
    call.Program? ==> |call.file| < U32 && (call.from == 0 || call.from < |call.file|)
  }

  function Request(call: Call): seq<Byte>
    requires !call.Idle? && WellFormed(call)
  {
    match call
    case Program(file, from) => NextRequest(file, from)
    case Config(enable) => [MSG_CONFIG_SIDEBAND, if enable then 1 else 0]
    case Close => [MSG_DISCONNECT]
    case Shutdown => [MSG_SHUTDOWN]
  }

  /** Calls after which the connection is gone. */
  predicate Ends(call: Call) {
    call.Close? || call.Shutdown?
  }

  // ---- what the server does with what it receives ----

  predicate ToServer(s: M.Server, ep: Byte) {
    s.handler.Some? && ep < |s.handler.value| && s.handler.value[ep] == Some(M.ServerRef)
  }

  /** Frames in order: those for the server object are handled, the others go to sideband streams. */
  function Serve(s: M.Server, fs: seq<Frame>, envs: seq<M.Env>): (M.Server, seq<Frame>)
    requires |envs| == |fs|
    decreases |fs|
  {
    if fs == [] then (s, [])
    else if !ToServer(s, fs[0].ep) then Serve(s, fs[1..], envs[1..])
    else
      var (s1, reply) := M.Handle(s, fs[0].payload, envs[0]);
      var (s2, replies) := Serve(s1, fs[1..], envs[1..]);
      (s2, (if reply.Some? then [Frame(0, reply.value)] else []) + replies)
  }

  /** Each request is one the image buffer has room for when its turn comes. */
  predicate ServedSafely(s: M.Server, fs: seq<Frame>, envs: seq<M.Env>)
    requires |envs| == |fs|
    decreases |fs|
  {
    fs == [] ||
    (if !ToServer(s, fs[0].ep) then ServedSafely(s, fs[1..], envs[1..])
     else M.FitsImage(s, fs[0].payload) && ServedSafely(M.Handle(s, fs[0].payload, envs[0]).0, fs[1..], envs[1..]))
  }

  // ---- steps ----

  predicate Live(s: State) {
    s.client.connected && s.server.client && !s.server.shutdownReq
  }

  /** The client is not in the middle of sending a frame. */
  predicate ClientFree(s: State) {
    s.client.connected && s.up.unsent == []
  }

  predicate ServerFree(s: State) {
    Live(s) && s.down.unsent == []
  }

  /** Only an open stream has a descriptor for the mux to select. */
  predicate HasDescriptor(s: M.Server, ep: nat) {
    1 <= ep < |s.streams| && s.streams[ep].Stream? && s.streams[ep].open
  }

  predicate Enabled(s: State, step: Step) {
    match step
    case Connect => !s.client.connected && s.down.unsent == [] && M.Enabled(s.server, M.Connect)
    case Begin(call) =>
      ClientFree(s) && s.client.call.Idle? && !call.Idle? && WellFormed(call) && (call.Program? ==> call.from == 0)
    case Take => ClientFree(s) && !s.client.call.Idle? && s.client.box.Some? && WellFormed(s.client.call)
    case ServerRecv(n, envs) =>
      ServerFree(s) && 1 <= n <= BUFFER && n <= |s.up.wire| && |envs| == |Recv(s.up, n).1|
    case ClientRecv(n) => ClientFree(s) && 1 <= n <= BUFFER && n <= |s.down.wire|
    case StreamRead(ep, data) => ServerFree(s) && HasDescriptor(s.server, ep) && 1 <= |data| <= BUFFER
    case ClientWrite(ep, data) =>
      ClientFree(s) && ep != 0 && 0 < |data| <= MSG_LIMIT && !Ends(s.client.call)
    case PushUp(k) => s.client.connected && 1 <= k <= |s.up.unsent|
    case PushDown(k) => 1 <= k <= |s.down.unsent|
    case Register(ep) => ClientFree(s)
    case Reap => s.server.shutdownReq && s.down.unsent == []
  }

  /** The client puts a frame on the wire. */
  function SendUp(s: State, f: Frame): State {
    s.(up := Send(s.up, f), sentUp := s.sentUp + [f])
  }

  function SendDown(s: State, fs: seq<Frame>): State {
    s.(down := SendAll(s.down, fs), sentDown := s.sentDown + fs)
  }

  function NextServerRecv(s: State, n: nat, envs: seq<M.Env>): State
    requires n <= |s.up.wire| && |envs| == |Recv(s.up, n).1|
  {
    var (up, fs) := Recv(s.up, n);
    var (server, replies) := Serve(s.server, fs, envs);
    SendDown(s.(up := up, gotUp := s.gotUp + fs, server := server), replies)
  }

  /** Endpoint 0 is the mailbox's; a handler registered for it is never called. */
  function Feed(sinks: map<Byte, Sink>, fs: seq<Frame>): map<Byte, Sink> {
    map ep | ep in sinks ::
      if ep == 0 then sinks[ep] else sinks[ep].(bytes := sinks[ep].bytes + EndpointBytes(fs, ep))
  }

  function NextClientRecv(s: State, n: nat): State
    requires n <= |s.down.wire|
  {
    var (down, fs) := Recv(s.down, n);
    var c := s.client;
    s.(down := down, gotDown := s.gotDown + fs,
       client := c.(box := C.Accept(c.box, fs), sinks := Feed(c.sinks, fs)))
  }

  /** The client consumes a reply: the next slice, or the end of the call. */
  function NextTake(s: State): State
    requires !s.client.call.Idle? && s.client.box.Some? && WellFormed(s.client.call)
  {
    var c := s.client;
    var ret := if ReadU8(c.box.value, 0).0 == 1 then 0 else -1;
    var s1 := s.(taken := s.taken + 1, client := c.(box := None));
    match c.call
    case Program(file, from) =>
      var n := Advance(file, from);
      if n < |file| then
        SendUp(s1.(client := s1.client.(call := Program(file, n))), Frame(0, NextRequest(file, n)))
      else s1.(client := s1.client.(call := Idle), finished := s.finished + [Finished(file, ret)])
    case Config(_) => s1.(client := s1.client.(call := Idle))
    case Close => s1.(client := s1.client.(call := Idle, connected := false))
    case Shutdown => s1.(client := s1.client.(call := Idle, connected := false))
  }

  function Next(s: State, step: Step): State
    requires Enabled(s, step)
  {
    match step
    case Connect =>
      State(s.client.(connected := true, sinks := map[]), M.HandleConnect(s.server), FRESH, FRESH,
            [], [], [], [], [], 0, s.finished)
    case Begin(call) => SendUp(s.(client := s.client.(call := call)), Frame(0, Request(call)))
    case Take => NextTake(s)
    case ServerRecv(n, envs) => NextServerRecv(s, n, envs)
    case ClientRecv(n) => NextClientRecv(s, n)
    case StreamRead(ep, data) =>
      SendDown(s, [Frame(ep, data)]).(streamed := s.streamed + [Frame(ep, data)])
    case ClientWrite(ep, data) => SendUp(s, Frame(ep, data))
    case PushUp(k) => s.(up := Push(s.up, k))
    case PushDown(k) => s.(down := Push(s.down, k))
    case Register(ep) =>
      s.(client := s.client.(sinks := s.client.sinks[ep := Sink(EndpointBytes(s.gotDown, ep), [])]))
    case Reap => s.(server := M.After(s.server, M.Reap))
  }

  predicate Initial(s: State) {
    && M.Started(s.server)
    && s.client == Client(false, Idle, None, map[])
    && s.up == FRESH && s.down == FRESH
    && s.finished == []
  }

  predicate EnabledAll(s: State, steps: seq<Step>)
    decreases |steps|
  {
    steps == [] || (Enabled(s, steps[0]) && EnabledAll(Next(s, steps[0]), steps[1..]))
  }

  function After(s: State, steps: seq<Step>): State
    requires EnabledAll(s, steps)
    decreases |steps|
  {
    if steps == [] then s else After(Next(s, steps[0]), steps[1..])
  }
}
