/** The server object: its fields are updated by each request as ServerModel's functions say. */
module Server {
  import opened Bytes
  import opened Message
  import opened Frames
  import opened Protocol
  import M = ServerModel
  import opened Mux

  class FpgaMgrServer {
    /** Sideband streams by endpoint; slot 0 is not a sideband. */
    var streams: seq<M.Stream>
    var sidebandOpen: bool
    var shutdownReq: bool
    var programData: array?<Byte>
    var programDataIdx: nat
    var clientStream: bool
    /** The handler table of the client's frame handler; `None` is a null handler. */
    var msgHandler: Option<seq<Option<M.HandlerRef>>>
    const mux: MuxDemux<M.StreamRef, M.HandlerRef>
    /** Messages handed to the frame handler, oldest first. */
    var sent: seq<Frame>
    /** Calls of the backend, oldest first. */
    var programmed: seq<M.Programmed>

    ghost predicate Valid()
      reads this, mux
    {
      mux.Valid() && (programData != null ==> programDataIdx <= programData.Length)
    }

    /** The source dereferences every slot from 1 on. */
    predicate NoHoles()
      reads this
    {
      forall k :: 1 <= k < |streams| ==> streams[k].Stream?
    }

    ghost function Abs(): M.Server
      requires Valid()
      reads this, mux, programData
    {
      M.Server(streams, sidebandOpen, shutdownReq,
               if programData == null then None else Some(M.Image(programData.Length, programData[..programDataIdx])),
               clientStream, msgHandler, mux.streams, mux.handlers, programmed)
    }

    /** A server that `start_server` has started. */
    constructor (streams: seq<M.Stream>)
      ensures Valid() && fresh(mux) && sent == []
      ensures Abs() == M.InitWaitConnect(M.Server(streams, false, false, None, false, None, [], [], []))
    {
      this.streams, sidebandOpen, shutdownReq := streams, false, false;
      programData, programDataIdx := null, 0;
      clientStream, msgHandler := false, None;
      mux := new MuxDemux();
      sent, programmed := [], [];
      new;
      mux.AddDataStream(M.ConnectRef, None);
    }

    method SetSidebandStream(ep: Byte, stream: M.Stream)
      modifies this`streams
      ensures |streams| == if ep < old(|streams|) then old(|streams|) else ep + 1
      ensures streams[ep] == stream
      ensures forall i :: 0 <= i < |streams| && i != ep ==>
                streams[i] == if i < old(|streams|) then old(streams[i]) else M.NoStream
    {
      while ep >= |streams|
        invariant |streams| <= if ep < old(|streams|) then old(|streams|) else ep + 1
        invariant |streams| >= old(|streams|)
        invariant forall i :: 0 <= i < |streams| ==>
                    streams[i] == if i < old(|streams|) then old(streams[i]) else M.NoStream
        decreases ep as int + 1 - |streams|
      {
        streams := streams + [M.NoStream];
      }
      streams := streams[ep := stream];
    }

    method CloseSidebandStreams()
      requires Valid() && NoHoles()
      modifies this`streams, this`sidebandOpen
      ensures Valid() && NoHoles() && Abs() == M.CloseSideband(old(Abs()))
    {
      if sidebandOpen {
        var i := 1;
        while i < |streams|
          invariant 1 <= i && |streams| == old(|streams|)
          invariant forall k :: 0 <= k < |streams| ==>
                      streams[k] == if 1 <= k < i then M.CloseStream(old(streams[k])) else old(streams[k])
        {
          if streams[i].sideband {
            streams := streams[i := streams[i].(open := false)];
          }
          i := i + 1;
        }
        sidebandOpen := false;
      }
    }

    method OpenSidebandStreams()
      requires Valid() && NoHoles()
      modifies this`streams, this`sidebandOpen
      ensures Valid() && NoHoles() && Abs() == M.OpenSideband(old(Abs()))
    {
      if !sidebandOpen {
        var i := 1;
        while i < |streams|
          invariant 1 <= i && |streams| == old(|streams|)
          invariant forall k :: 0 <= k < |streams| ==>
                      streams[k] == if 1 <= k < i then M.OpenStream(old(streams[k])) else old(streams[k])
        {
          if streams[i].sideband {
            streams := streams[i := M.OpenStream(streams[i])];
          }
          i := i + 1;
        }
        sidebandOpen := true;
      }
    }

    method InitWaitConnect()
      requires Valid()
      modifies this`clientStream, this`msgHandler, mux
      ensures Valid() && Abs() == M.InitWaitConnect(old(Abs()))
    {
      clientStream := false;
      msgHandler := None;
      mux.Init();
      mux.AddDataStream(M.ConnectRef, None);
    }

    method HandleConnect()
      requires Valid()
      modifies this`clientStream, this`msgHandler, mux
      ensures Valid() && Abs() == M.HandleConnect(old(Abs()))
    {
      mux.Init();
      mux.AddDataStream(M.ClientRef, Some(M.FrameRef));
      clientStream := true;
      var table := [Some(M.ServerRef)];
      var i := 1;
      while i < |streams|
        invariant 1 <= i && (i > 1 ==> i <= |streams|)
        invariant clientStream && mux.Valid()
        invariant mux.streams == [M.ClientRef] + M.SidebandRefs(i)
        invariant mux.handlers == [Some(M.FrameRef)] + M.SidebandHandlers(i)
        invariant table == [Some(M.ServerRef)] + M.SidebandHandlers(i)
      {
        mux.AddDataStream(M.SidebandRef(i), Some(M.SidebandHandlerRef(i)));
        table := table + [Some(M.SidebandHandlerRef(i))];
        i := i + 1;
      }
      assert M.SidebandRefs(|streams|) == M.SidebandRefs(i) && M.SidebandHandlers(|streams|) == M.SidebandHandlers(i);
      msgHandler := Some(table);
    }

    /** After a turn of the mux: a shutdown request drops the client and ends the loop. */
    method Reap(muxRet: int) returns (ret: int)
      requires Valid()
      modifies this`clientStream, this`msgHandler
      ensures Valid() && ret == (if shutdownReq then -1 else muxRet)
      ensures Abs() == if shutdownReq then M.After(old(Abs()), M.Reap) else old(Abs())
    {
      ret := muxRet;
      if shutdownReq {
        clientStream := false;
        msgHandler := None;
        ret := -1;
      }
    }

    /** Replies through the client's frame handler. */
    method Reply(status: Byte)
      requires msgHandler.Some?
      modifies this`sent
      ensures sent == old(sent) + [Frame(0, [status])]
    {
      var rsp := new Msg();
      rsp.Put8(status);
      assert rsp.Contents() == [status];
      sent := sent + [Frame(0, rsp.Contents())];
    }

    /** Before a chunk: the first of a transfer closes the sidebands and makes the buffer. */
    method Prepare(totalSz: nat, ghost p: ProgramMsg)
      requires Valid() && NoHoles() && totalSz == p.total
      modifies this
      ensures Valid() && NoHoles() && programData != null
      ensures Abs() == M.Prepare(old(Abs()), p)
      ensures programData == old(programData) || fresh(programData)
      ensures msgHandler == old(msgHandler) && sent == old(sent)
    {
      if programData == null {
        CloseSidebandStreams();
        programData := new Byte[totalSz];
        programDataIdx := 0;
        assert programData[..0] == [];
      }
    }

    /** The chunk itself; the index moves even when the message holds fewer bytes than it says. */
    method StoreChunk(req: Msg, size: nat) returns (ghost garbage: seq<Byte>)
      requires Valid() && programData != null
      requires req.Valid() && req.data != programData && req.getIdx + size < U32
      requires programDataIdx + size <= programData.Length
      modifies this`programDataIdx, programData, req`getIdx
      ensures Valid() && |garbage| == size
      ensures var data := ReadBlob(req.Contents(), old(req.getIdx), size).0;
              programData[..programDataIdx]
              == old(programData[..programDataIdx]) + if data.Some? then data.value else garbage
    {
      ghost var at, was := programDataIdx, programData[..];
      ghost var data := ReadBlob(req.Contents(), req.getIdx, size).0;
      req.Read(programData, programDataIdx, size);
      programDataIdx := programDataIdx + size;
      garbage := was[at..at + size];
      assert was[..at] == old(programData[..programDataIdx]);
      if data.None? {
        assert programData[..programDataIdx] == was[..at] + garbage;
      } else {
        assert programData[..programDataIdx] == was[..at] + data.value;
      }
    }

    /** After a chunk: the last one programs the device and drops the buffer. */
    method Finish(last: bool, status: int)
      requires Valid() && programData != null && msgHandler.Some?
      modifies this
      ensures Valid() && streams == old(streams)
      ensures var s, filled := old(Abs()), old(programData[..programDataIdx]);
              && Abs() == (if last then s.(image := None, programmed := s.programmed + [M.Programmed(filled, status)])
                           else s)
              && sent == old(sent) + [Frame(0, [if last && status != 0 then 0 else 1])]
    {
      var result := 0;
      if last {
        programmed := programmed + [M.Programmed(programData[..programDataIdx], status)];
        result := status;
        programData := null;
        programDataIdx := 0;
      }
      Reply(if result == 0 then 1 else 0);
    }

    /**
     * A PROGRAM request whose type byte has been read; `status` is what the backend
     * would return. `overrun` marks a chunk the buffer has no room for. The source
     * copies it past the end or, when the message is shorter than the size it
     * declares, copies nothing and moves only the index past the end, to where a
     * later chunk is copied or the backend reads. Either way what follows is undefined.
     */
    method ProgramDevice(req: Msg, status: int) returns (overrun: bool, ghost garbage: seq<Byte>)
      requires Valid() && NoHoles() && msgHandler.Some?
      requires req.Valid() && req.data != programData
      requires TypeOf(req.Contents()) == MSG_PROGRAM && req.getIdx == ReadU8(req.Contents(), 0).1
      modifies this, programData, req`getIdx
      ensures Valid() && NoHoles()
      ensures overrun == !M.FitsImage(old(Abs()), old(req.Contents()))
      ensures !overrun ==>
                var env := M.Env(status, garbage);
                var (s, reply) := M.HandleProgram(old(Abs()), ParseProgram(old(req.Contents())), env);
                Abs() == s && sent == old(sent) + [Frame(0, reply)]
    {
      hide M.CloseSideband, ReadU8, ReadU32, ReadBlob;
      ghost var c := req.Contents();
      ghost var p := ParseProgram(c);
      var totalSz := req.Get32();
      var last := req.Get8();
      var thisSz := req.Get32();
      assert p == ProgramMsg(totalSz, last != 0, thisSz, ReadBlob(c, req.getIdx, thisSz).0);
      Prepare(totalSz, p);
      garbage := [];
      overrun := req.getIdx + thisSz >= U32 || programDataIdx + thisSz > programData.Length;
      if overrun {
        return;
      }
      garbage := StoreChunk(req, thisSz);
      assert M.Fill(garbage, thisSz) == garbage;
      Finish(last != 0, status);
    }

    /**
     * One message on endpoint 0. The mail's own cursor is copied with it and is at the
     * start. Only a chunk that overruns the image buffer leaves the outcome open.
     */
    method Message(ep: Byte, msg: Msg, status: int) returns (ok: bool, overrun: bool, ghost garbage: seq<Byte>)
      requires Valid() && NoHoles() && msgHandler.Some?
      requires msg.Valid() && msg.getIdx == 0
      modifies this, mux, programData
      ensures Valid() && NoHoles()
      ensures overrun == !M.FitsImage(old(Abs()), old(msg.Contents()))
      ensures !overrun ==>
                var (s, reply) := M.Handle(old(Abs()), old(msg.Contents()), M.Env(status, garbage));
                && ok && Abs() == s
                && sent == old(sent) + if reply.Some? then [Frame(0, reply.value)] else []
    {
      hide M.HandleProgram, M.CloseSideband, M.OpenSideband, M.InitWaitConnect, ParseProgram;
      var req := new Msg.Copy(msg);
      ghost var p := req.Contents();
      garbage := [];
      ok, overrun := true, false;
      var t := req.Get8();
      if t == MSG_SHUTDOWN {
        Reply(1);
        CloseSidebandStreams();
        shutdownReq := true;
      } else if t == MSG_PROGRAM {
        overrun, garbage := ProgramDevice(req, status);
      } else if t == MSG_DISCONNECT {
        CloseSidebandStreams();
        Reply(1);
        InitWaitConnect();
      } else if t == MSG_CONFIG_SIDEBAND {
        var en := req.Get8();
        if en != 0 {
          OpenSidebandStreams();
        } else {
          CloseSidebandStreams();
        }
        Reply(1);
      } else if t == MSG_PING {
        Reply(1);
      }
    }
  }
}
