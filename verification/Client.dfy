/** The client object: requests, the one-slot mailbox and the sideband handlers. */
module Client {
  import opened Bytes
  import opened Message
  import opened Frames
  import opened Protocol
  import opened Mux
  import M = ClientModel

  /** One frame on endpoint 0 for each request. */
  function Framed(requests: seq<seq<Byte>>): seq<Frame> {
    seq(|requests|, i requires 0 <= i < |requests| => Frame(0, requests[i]))
  }

  class FpgaMgrClient {
    var haveMsg: bool
    const msg: Msg
    var sidebandHandlers: seq<Option<nat>>
    var connected: bool
    /** The frame handler's table: which endpoints lead to this client. It is new with each connection. */
    var table: seq<bool>
    /** Messages handed to the frame handler, oldest first. */
    var sent: seq<Frame>
    /** Writes made on sideband handlers, oldest first. */
    var writes: seq<Write<nat>>
    /** What the coming turns of the event loop will bring; running out is a failing link. */
    var turns: seq<M.Turn>

    ghost predicate Valid()
      reads this, msg, msg.data
    {
      && msg.Valid() && msg.getIdx == 0
      && (connected ==> table != [] && table[0])
      && forall t :: t in turns && t.Arrived? ==> forall f :: f in t.frames ==> |f.payload| <= MSG_LIMIT
    }

    function Box(): Option<seq<Byte>>
      requires msg.putIdx <= msg.data.Length
      reads this, msg, msg.data
    {
      if haveMsg then Some(msg.Contents()) else None
    }

    /** The sideband handlers of this connection. */
    function Handlers(): seq<Option<nat>>
      reads this`sidebandHandlers, this`table
    {
      M.Routed(sidebandHandlers, table)
    }

    constructor (turns: seq<M.Turn>)
      requires forall t :: t in turns && t.Arrived? ==> forall f :: f in t.frames ==> |f.payload| <= MSG_LIMIT
      ensures Valid() && fresh(msg) && fresh(msg.data)
      ensures Box() == None && sent == [] && writes == [] && sidebandHandlers == [] && !connected && this.turns == turns
    {
      haveMsg, connected := false, false;
      msg := new Msg();
      sidebandHandlers, sent, writes, table := [], [], [], [];
      this.turns := turns;
    }

    /** `reached` is whether the server could be reached; a new frame handler knows endpoint 0 alone. */
    method Connect(reached: bool) returns (ret: int)
      requires Valid() && !connected
      modifies this`connected, this`table
      ensures Valid() && connected == reached && ret == (if reached then 0 else -1)
      ensures table == if reached then [true] else old(table)
    {
      if !reached { return -1; }
      table := [true];
      connected := true;
      ret := 0;
    }

    /** The frame handler's part of a registration. */
    method RegisterEndpoint(ep: Byte)
      requires Valid() && connected
      modifies this`table
      ensures Valid()
      ensures |table| == if ep < old(|table|) then old(|table|) else ep + 1
      ensures table[ep]
      ensures forall i :: 0 <= i < |table| && i != ep ==> table[i] == (i < old(|table|) && old(table)[i])
    {
      while |table| <= ep
        invariant old(|table|) <= |table|
        invariant |table| <= if ep < old(|table|) then old(|table|) else ep + 1
        invariant forall i :: 0 <= i < |table| ==> table[i] == (i < old(|table|) && old(table)[i])
        decreases ep as int + 1 - |table|
      {
        table := table + [false];
      }
      table := table[ep := true];
    }

    /** Registers the client for the endpoint's frames, which takes a connection, and then the handler. */
    method SetSidebandHandler(ep: Byte, handler: nat)
      requires Valid() && connected
      modifies this`sidebandHandlers, this`table
      ensures Valid()
      ensures |table| == if ep < old(|table|) then old(|table|) else ep + 1
      ensures table[ep]
      ensures forall i :: 0 <= i < |table| && i != ep ==> table[i] == (i < old(|table|) && old(table)[i])
      ensures |sidebandHandlers| == if ep < old(|sidebandHandlers|) then old(|sidebandHandlers|) else ep + 1
      ensures sidebandHandlers[ep] == Some(handler) == Handlers()[ep]
      ensures forall i :: 0 <= i < |sidebandHandlers| && i != ep ==>
                sidebandHandlers[i] == if i < old(|sidebandHandlers|) then old(sidebandHandlers[i]) else None
    {
      RegisterEndpoint(ep);
      while |sidebandHandlers| <= ep
        invariant old(|sidebandHandlers|) <= |sidebandHandlers|
        invariant |sidebandHandlers| <= if ep < old(|sidebandHandlers|) then old(|sidebandHandlers|) else ep + 1
        invariant forall i :: 0 <= i < |sidebandHandlers| ==>
                    sidebandHandlers[i] == if i < old(|sidebandHandlers|) then old(sidebandHandlers[i]) else None
        decreases ep as int + 1 - |sidebandHandlers|
        modifies this`sidebandHandlers
      {
        sidebandHandlers := sidebandHandlers + [None];
      }
      sidebandHandlers := sidebandHandlers[ep := Some(handler)];
    }

    /** One frame from the frame handler. */
    method Message(ep: Byte, m: Msg)
      requires Valid() && m.Valid() && m != msg && m.getIdx == 0
      modifies this`haveMsg, this`writes, msg
      ensures Valid() && (msg.data == old(msg.data) || fresh(msg.data))
      ensures Box() == M.Accept(old(Box()), [Frame(ep, m.Contents())])
      ensures writes == old(writes) + M.SidebandWrites(sidebandHandlers, [Frame(ep, m.Contents())])
    {
      ghost var f := [Frame(ep, m.Contents())];
      assert f[1..] == [];
      if ep == 0 {
        haveMsg := true;
        msg.Assign(m);
      } else if |sidebandHandlers| > ep && sidebandHandlers[ep].Some? {
        writes := writes + [Write(sidebandHandlers[ep].value, m.Contents())];
      }
    }

    /** One frame, as the message the frame handler assembled; an endpoint not in its table loses it. */
    method DeliverOne(f: Frame)
      requires Valid() && connected && |f.payload| <= MSG_LIMIT
      modifies this`haveMsg, this`writes, msg
      ensures Valid() && (msg.data == old(msg.data) || fresh(msg.data))
      ensures Box() == M.Accept(old(Box()), [f])
      ensures writes == old(writes) + M.SidebandWrites(Handlers(), [f])
    {
      hide M.Accept, M.SidebandWrites;
      var m := new Msg();
      m.Write(f.payload);
      assert m.Contents() == f.payload;
      if f.ep < |table| && table[f.ep] {
        RoutedOne(sidebandHandlers, table, f);
        Message(f.ep, m);
      } else {
        RoutedOne(sidebandHandlers, table, f);
        assert writes + [] == writes;
      }
    }

    /** The frames of one turn, in order. */
    method DeliverAll(fs: seq<Frame>)
      requires Valid() && connected && forall f :: f in fs ==> |f.payload| <= MSG_LIMIT
      modifies this`haveMsg, this`writes, msg
      ensures Valid() && (msg.data == old(msg.data) || fresh(msg.data))
      ensures Box() == M.Accept(old(Box()), fs)
      ensures writes == old(writes) + M.SidebandWrites(Handlers(), fs)
    {
      hide M.Accept, M.SidebandWrites;
      NothingDelivered(Box(), Handlers());
      for i := 0 to |fs|
        invariant Valid() && (msg.data == old(msg.data) || fresh(msg.data))
        invariant Box() == M.Accept(old(Box()), fs[..i])
        invariant writes == old(writes) + M.SidebandWrites(Handlers(), fs[..i])
      {
        assert fs[..i + 1] == fs[..i] + [fs[i]];
        M.AcceptAppend(old(Box()), fs[..i], [fs[i]]);
        M.SidebandWritesAppend(Handlers(), fs[..i], [fs[i]]);
        DeliverOne(fs[i]);
      }
      assert fs[..|fs|] == fs;
    }

    /** A turn of the event loop: its frames, or failure; without a connection there is nothing to wait for. */
    method RecvAndDispatch() returns (ok: bool)
      requires Valid()
      modifies this`haveMsg, this`writes, this`turns, msg
      ensures Valid() && (msg.data == old(msg.data) || fresh(msg.data))
      ensures ok == (connected && old(turns) != [] && old(turns)[0].Arrived?)
      ensures turns == old(turns)[if !connected || old(turns) == [] then 0 else 1..]
      ensures Box() == if ok then M.Accept(old(Box()), old(turns)[0].frames) else old(Box())
      ensures writes == old(writes) + if ok then M.SidebandWrites(Handlers(), old(turns)[0].frames) else []
    {
      hide M.Accept, M.SidebandWrites;
      if !connected || turns == [] { return false; }
      var t := turns[0];
      assert t in turns;
      turns := turns[1..];
      if t.LinkDown? { return false; }
      DeliverAll(t.frames);
      ok := true;
    }

    /** Waits for a reply and takes it out of the mailbox. */
    method Recv() returns (ok: bool, reply: Msg)
      requires Valid() && connected
      modifies this`haveMsg, this`writes, this`turns, msg
      ensures Valid() && (msg.data == old(msg.data) || fresh(msg.data))
      ensures Box() == None
      ensures fresh(reply) && fresh(reply.data) && reply.Valid() && reply.getIdx == 0
      ensures var o := M.Await(old(Box()), old(turns));
              && ok == o.reply.Some?
              && (ok ==> reply.Contents() == o.reply.value)
              && turns == old(turns)[o.used..]
              && writes == old(writes) + M.WritesDuring(Handlers(), old(turns), o.used)
    {
      hide M.Accept, M.SidebandWrites, M.FramesOf, M.Routed, M.WritesDuring, M.Await;
      ghost var hs := Handlers();
      ghost var was, coming := writes, turns;
      ghost var o := M.Await(Box(), turns);
      ghost var n := 0;
      NoWrites(hs, turns);
      while !haveMsg
        invariant Valid() && (msg.data == old(msg.data) || fresh(msg.data))
        invariant hs == Handlers()
        invariant n <= |coming| && turns == coming[n..]
        invariant o == M.Outcome(M.Await(Box(), turns).reply, n + M.Await(Box(), turns).used)
        invariant writes == was + M.WritesDuring(hs, coming, n)
        decreases |turns|
      {
        AwaitTurn(turns);
        if turns != [] {
          TurnWrites(hs, coming, n, was);
          n := n + 1;
        }
        var alive := RecvAndDispatch();
        if !alive {
          break;
        }
      }
      AwaitFull(Box(), turns);
      ok := haveMsg;
      haveMsg := false;
      reply := new Msg.Copy(msg);
    }

    /** Sends bytes to an endpoint; `accepted` is what the frame handler answers. */
    method WriteEndpoint(ep: Byte, data: seq<Byte>, accepted: bool) returns (n: nat)
      requires connected && |data| <= MSG_LIMIT
      modifies this`sent
      ensures sent == old(sent) + [Frame(ep, data)]
      ensures n == if accepted then |data| else 0
    {
      var m := new Msg();
      m.Write(data);
      assert m.Contents() == data;
      sent := sent + [Frame(ep, m.Contents())];
      n := if accepted then |data| else 0;
    }

    /** Builds the next request field by field. */
    method BuildRequest(total: nat, last: bool, chunk: seq<Byte>) returns (req: Msg)
      requires total < U32 && |chunk| <= BLOCK
      ensures fresh(req) && fresh(req.data) && req.Valid() && req.Contents() == ProgramRequest(total, last, chunk)
    {
      req := new Msg();
      hide Le32;
      req.Put8(MSG_PROGRAM);
      assert req.Contents() == [MSG_PROGRAM];
      req.Put32(total);
      req.Put8(if last then 1 else 0);
      req.Put32(|chunk|);
      req.Write(chunk);
    }

    /** Sends the slice of `file` that starts at `from` and awaits the reply; `ok` is its first byte. */
    method Exchange(file: seq<Byte>, from: nat, size: nat) returns (got: bool, ok: Byte)
      requires Valid() && connected && |file| < U32 && from <= |file| && size == Min(BLOCK, |file| - from)
      modifies this`haveMsg, this`writes, this`turns, this`sent, msg
      ensures Valid() && (msg.data == old(msg.data) || fresh(msg.data))
      ensures Box() == None && sent == old(sent) + [Frame(0, NextRequest(file, from))]
      ensures var o := M.Await(old(Box()), old(turns));
              && got == o.reply.Some?
              && (got ==> ok == ReadU8(o.reply.value, 0).0)
              && turns == old(turns)[o.used..]
              && writes == old(writes) + M.WritesDuring(Handlers(), old(turns), o.used)
    {
      hide M.Await, M.WritesDuring;
      var req := BuildRequest(|file|, from + size >= |file|, file[from..from + size]);
      sent := sent + [Frame(0, req.Contents())];
      var rsp;
      got, rsp := Recv();
      ok := 0;
      if got {
        ok := rsp.Get8();
      }
    }

    /** Sends a file in slices, one reply awaited for each; `None` is a file that cannot be opened. */
    method Program(path: Option<seq<Byte>>) returns (ret: int)
      requires Valid() && (path.Some? ==> connected && |path.value| < U32)
      modifies this`haveMsg, this`writes, this`turns, this`sent, msg
      ensures Valid()
      ensures path.None? ==>
                ret == -1 && sent == old(sent) && turns == old(turns) && writes == old(writes) && Box() == old(Box())
      ensures path.Some? ==>
                var r := M.ProgramCall(old(Box()), path.value, 0, old(turns));
                && ret == r.ret
                && sent == old(sent) + Framed(r.requests)
                && turns == old(turns)[r.used..]
                && writes == old(writes) + M.WritesDuring(Handlers(), old(turns), r.used)
                && Box() == None
    {
      hide M.Await, M.ProgramCall, NextRequest, Framed, Advance, ReadU8, M.WritesDuring;
      if path.None? { return -1; }
      var file := path.value;
      var xmit := 0;
      ghost var all := M.ProgramCall(Box(), file, 0, turns);
      ghost var todo, asked: seq<seq<Byte>>, used: nat := all, [], 0;
      assert Framed([]) == [] && [] + all.requests == all.requests by { FramedNothing(); }
      NoWrites(Handlers(), turns);
      var ok: Byte := 0;
      var more := true;
      while more
        invariant Valid() && (msg.data == old(msg.data) || fresh(msg.data))
        invariant 0 <= xmit <= |file| && 0 <= used <= |old(turns)|
        invariant sent == old(sent) + Framed(asked) && turns == old(turns)[used..]
        invariant writes == old(writes) + M.WritesDuring(Handlers(), old(turns), used)
        invariant more ==> todo == M.ProgramCall(Box(), file, xmit, turns)
        invariant more ==> all.requests == asked + todo.requests && all.ret == todo.ret && all.used == used + todo.used
        invariant !more ==> all.requests == asked && all.ret == (if ok == 1 then 0 else -1) && all.used == used
        invariant !more ==> Box() == None
        decreases more, |file| - xmit
      {
        ghost var o := M.Await(Box(), turns);
        var sz := Min(BLOCK, |file| - xmit);
        FramedNext(asked, NextRequest(file, xmit));
        ProgramCallStep(Box(), file, xmit, turns);
        AskedNext(asked, NextRequest(file, xmit), todo.requests);
        asked := asked + [NextRequest(file, xmit)];
        var got;
        DropTwice(old(turns), used, o.used);
        M.WritesDuringMore(Handlers(), old(turns), used, o.used);
        got, ok := Exchange(file, xmit, sz);
        xmit := xmit + sz;
        used := used + o.used;
        if !got {
          return -1;
        }
        more := xmit < |file|;
        if more {
          todo := M.ProgramCall(None, file, xmit, turns);
        }
      }
      ret := if ok == 1 then 0 else -1;
    }

    /** A request without data: -1 when the link does not take it, no reply comes or the reply is not 1. */
    method Ask(req: seq<Byte>, accepted: bool) returns (ret: int, answered: bool)
      requires Valid() && connected && |req| <= 2
      modifies this`haveMsg, this`writes, this`turns, this`sent, msg
      ensures Valid() && sent == old(sent) + [Frame(0, req)]
      ensures Box() == if accepted then None else old(Box())
      ensures var o := M.CallWait(accepted, old(Box()), old(turns));
              && answered == o.reply.Some? && ret == M.Verdict(o)
              && turns == old(turns)[o.used..]
              && writes == old(writes) + M.WritesDuring(Handlers(), old(turns), o.used)
    {
      NoWrites(Handlers(), turns);
      var n := WriteEndpoint(0, req, accepted);
      if !accepted {
        return -1, false;
      }
      var rsp;
      answered, rsp := Recv();
      if !answered {
        return -1, false;
      }
      var ok := rsp.Get8();
      ret := if ok == 1 then 0 else -1;
    }

    method ConfigSideband(enable: bool, accepted: bool) returns (ret: int)
      requires Valid() && connected
      modifies this`haveMsg, this`writes, this`turns, this`sent, msg
      ensures Valid() && sent == old(sent) + [Frame(0, [MSG_CONFIG_SIDEBAND, if enable then 1 else 0])]
      ensures Box() == if accepted then None else old(Box())
      ensures var o := M.CallWait(accepted, old(Box()), old(turns));
              && turns == old(turns)[o.used..]
              && writes == old(writes) + M.WritesDuring(Handlers(), old(turns), o.used)
      ensures ret == 0 || ret == -1
      ensures ret == 0 <==> accepted && exists r :: M.Answers(old(Box()), old(turns), r) && r != [] && r[0] == 1
    {
      M.VerdictMeans(accepted, Box(), turns);
      var answered;
      ret, answered := Ask([MSG_CONFIG_SIDEBAND, if enable then 1 else 0], accepted);
    }

    /** `close` and `shutdown_server` drop the connection only after a reply; only `close` checks that there is one. */
    method End(request: Byte, accepted: bool) returns (ret: int)
      requires Valid() && request in {MSG_DISCONNECT, MSG_SHUTDOWN} && (request == MSG_SHUTDOWN ==> connected)
      modifies this`haveMsg, this`writes, this`turns, this`sent, this`connected, this`table, msg
      ensures Valid()
      ensures !old(connected) ==>
                && ret == -1 && sent == old(sent) && !connected && table == old(table)
                && turns == old(turns) && writes == old(writes) && Box() == old(Box())
      ensures old(connected) ==>
                var o := M.CallWait(accepted, old(Box()), old(turns));
                && sent == old(sent) + [Frame(0, [request])]
                && connected == o.reply.None?
                && table == (if o.reply.None? then old(table) else [])
                && turns == old(turns)[o.used..]
                && writes == old(writes) + M.WritesDuring(old(Handlers()), old(turns), o.used)
                && Box() == if accepted then None else old(Box())
      ensures ret == 0 || ret == -1
      ensures ret == 0 <==>
                old(connected) && accepted
                && exists r :: M.Answers(old(Box()), old(turns), r) && r != [] && r[0] == 1
    {
      M.VerdictMeans(accepted, Box(), turns);
      if request == MSG_DISCONNECT && !connected {
        return -1;
      }
      var answered;
      ret, answered := Ask([request], accepted);
      if answered {
        connected, table := false, [];
      }
    }
  }

  /** A frame the table leads nowhere makes no write; one it leads to the client goes to the client's own handler. */
  lemma RoutedOne(handlers: seq<Option<nat>>, table: seq<bool>, f: Frame)
    ensures f.ep < |table| && table[f.ep] ==>
              M.SidebandWrites(M.Routed(handlers, table), [f]) == M.SidebandWrites(handlers, [f])
    ensures !(f.ep < |table| && table[f.ep]) ==> M.SidebandWrites(M.Routed(handlers, table), [f]) == []
    ensures f.ep != 0 ==> forall box :: M.Accept(box, [f]) == box
  {
    assert [f][1..] == [];
  }

  lemma NoWrites(handlers: seq<Option<nat>>, turns: seq<M.Turn>)
    ensures M.WritesDuring(handlers, turns, 0) == []
  {
  }

  lemma AskedNext(asked: seq<seq<Byte>>, req: seq<Byte>, todo: seq<seq<Byte>>)
    requires todo != [] && todo == [req] + todo[1..]
    ensures asked + todo == asked + [req] + todo[1..]
    ensures todo[1..] == [] ==> asked + todo == asked + [req]
  {
  }

  lemma DropTwice(turns: seq<M.Turn>, a: nat, b: nat)
    requires a <= |turns| && b <= |turns| - a
    ensures turns[a..][b..] == turns[a + b..]
  {
  }

  lemma FramedNothing()
    ensures Framed([]) == []
  {
  }

  lemma ProgramCallStep(box: Option<seq<Byte>>, file: seq<Byte>, from: nat, turns: seq<M.Turn>)
    requires from <= |file|
    ensures var r, o, n := M.ProgramCall(box, file, from, turns), M.Await(box, turns), from + Min(BLOCK, |file| - from);
            && r.requests != [] && r.requests == [NextRequest(file, from)] + r.requests[1..]
            && (o.reply.None? ==> r.requests[1..] == [] && r.ret == -1 && r.used == o.used)
            && (o.reply.Some? && n >= |file| ==>
                  && r.requests[1..] == [] && r.used == o.used
                  && r.ret == if ReadU8(o.reply.value, 0).0 == 1 then 0 else -1)
            && (o.reply.Some? && n < |file| ==>
                  var more := M.ProgramCall(None, file, n, turns[o.used..]);
                  r.requests[1..] == more.requests && r.ret == more.ret && r.used == o.used + more.used)
  {
    hide M.Await, NextRequest;
  }

  lemma FramedNext(asked: seq<seq<Byte>>, req: seq<Byte>)
    ensures Framed(asked + [req]) == Framed(asked) + [Frame(0, req)]
  {
  }

  lemma NothingDelivered(box: Option<seq<Byte>>, handlers: seq<Option<nat>>)
    ensures M.Accept(box, []) == box && M.SidebandWrites(handlers, []) == [] && M.FramesOf([]) == []
  {
  }

  lemma AwaitTurn(turns: seq<M.Turn>)
    ensures turns == [] ==> M.Await(None, turns) == M.Outcome(None, 0)
    ensures turns != [] && turns[0].LinkDown? ==> M.Await(None, turns) == M.Outcome(None, 1)
    ensures turns != [] && turns[0].Arrived? ==>
              var o := M.Await(M.Accept(None, turns[0].frames), turns[1..]);
              M.Await(None, turns) == M.Outcome(o.reply, o.used + 1)
  {
  }

  lemma AwaitFull(box: Option<seq<Byte>>, turns: seq<M.Turn>)
    ensures box.Some? ==> M.Await(box, turns) == M.Outcome(box, 0)
  {
  }

  /** The writes of one more turn follow those of the turns before it. */
  lemma TurnWrites(handlers: seq<Option<nat>>, turns: seq<M.Turn>, n: nat, before: seq<Write<nat>>)
    requires n < |turns|
    ensures before + M.WritesDuring(handlers, turns, n + 1)
         == before + M.WritesDuring(handlers, turns, n)
            + if turns[n].Arrived? then M.SidebandWrites(handlers, turns[n].frames) else []
  {
    hide M.SidebandWrites, M.FramesOf;
    var a, b := M.FramesOf(turns[..n]), if turns[n].Arrived? then turns[n].frames else [];
    FramesOfNext(turns, n);
    NothingDelivered(None, handlers);
    M.SidebandWritesAppend(handlers, a, b);
    Regroup(before, M.SidebandWrites(handlers, a), M.SidebandWrites(handlers, b));
  }

  lemma {:induction false} FramesOfNext(turns: seq<M.Turn>, n: nat)
    requires n < |turns|
    ensures M.FramesOf(turns[..n + 1]) == M.FramesOf(turns[..n]) + if turns[n].Arrived? then turns[n].frames else []
    decreases n
  {
    if n == 0 {
      assert turns[..1][1..] == [];
    } else {
      assert turns[..n + 1][1..] == turns[1..][..n] && turns[..n][1..] == turns[1..][..n - 1];
      FramesOfNext(turns[1..], n - 1);
    }
  }
}
