/** The endpoint of the framed link: receive state machine, handler table and sender. */
module MsgDataHandler {
  import opened Bytes
  import opened Message
  import opened Frames
  import opened Streams

  datatype RecvState = RsMarker | RsHeader | RsData

  class FrameHandler {
    var recvState: RecvState
    const hdr: array<Byte>
    var hdrIdx: nat
    var dataSz: nat
    var ep: Byte
    const msg: Msg
    var handlers: Table
    var stream: DataStream
    /** Calls made on registered handlers, oldest first. */
    var calls: seq<Call>

    ghost predicate Valid()
      reads this, hdr, msg, msg.data
    {
      && hdr.Length == 5
      && hdr != msg.data
      && msg.Valid()
      && (recvState.RsHeader? ==> hdrIdx < 5)
      && (recvState.RsData? ==> dataSz < U32 && (msg.putIdx < dataSz || msg.putIdx == 0))
    }

    /** The state of the abstract machine these fields stand for. */
    ghost function Abs(): (rx: Rx)
      requires Valid()
      reads this, hdr, msg, msg.data
      ensures Proper(rx)
    {
      match recvState
      case RsMarker => Marker
      case RsHeader => Header(hdr[..hdrIdx])
      case RsData => Data(dataSz, ep, msg.Contents())
    }

    constructor (stream: DataStream)
      ensures Valid() && fresh(hdr) && fresh(msg) && fresh(msg.data)
      ensures Abs() == Marker && handlers == [] && calls == [] && this.stream == stream
    {
      recvState, hdrIdx, dataSz, ep := RsMarker, 0, 0, 0;
      hdr := new Byte[5];
      msg := new Msg();
      handlers, calls := [], [];
      this.stream := stream;
    }

    /** Growing the table pads it with null entries and keeps the registered ones. */
    method SetMsgHandler(id: nat, handler: Option<nat>)
      modifies this`handlers
      ensures |handlers| == if id < old(|handlers|) then old(|handlers|) else id + 1
      ensures handlers[id] == handler
      ensures forall i :: 0 <= i < |handlers| && i != id ==>
                handlers[i] == if i < old(|handlers|) then old(handlers[i]) else None
    {
      if id >= |handlers| {
        for i := |handlers| to id + 1
          invariant |handlers| == i
          invariant forall j :: 0 <= j < i ==> handlers[j] == if j < old(|handlers|) then old(handlers[j]) else None
        {
          handlers := handlers + [None];
        }
      }
      handlers := handlers[id := handler];
    }

    /** Hands the assembled message to the handler of its endpoint, if there is one. */
    method Deliver()
      requires msg.Valid()
      modifies this`calls
      ensures calls == old(calls) + Dispatch(handlers, [Frame(ep, msg.Contents())])
    {
      var f := Frame(ep, msg.Contents());
      assert [f][1..] == [];
      if ep < |handlers| && handlers[ep].Some? {
        calls := calls + [Call(handlers[ep].value, f)];
      }
    }

    /** One byte of the receive loop. */
    method Receive(b: Byte)
      requires Valid() && Room(Abs(), [b])
      modifies this`recvState, this`hdrIdx, this`dataSz, this`ep, this`calls, hdr, msg, msg.data
      ensures Valid() && (msg.data == old(msg.data) || fresh(msg.data))
      ensures Abs() == Step(old(Abs()), b).0
      ensures calls == old(calls) + Dispatch(handlers, Step(old(Abs()), b).1)
    {
      match recvState {
        case RsMarker =>
          if b == 0x5a {
            recvState := RsHeader;
            hdrIdx := 0;
          }
        case RsHeader =>
          hdr[hdrIdx] := b;
          hdrIdx := hdrIdx + 1;
          assert hdr[..hdrIdx] == old(hdr[..hdrIdx]) + [b];
          if hdrIdx >= 5 {
            assert hdr[..4] == [hdr[0], hdr[1], hdr[2], hdr[3]] && hdr[..5][..4] == hdr[..4];
            dataSz := hdr[0] as int + 256 * (hdr[1] as int) + 65536 * (hdr[2] as int) + 16777216 * (hdr[3] as int);
            ep := hdr[4];
            recvState := RsData;
            msg.ResetPut();
          }
        case RsData =>
          hide Room;
          msg.Put8(b);
          if msg.putIdx >= dataSz {
            Deliver();
            recvState := RsMarker;
          }
      }
    }

    /** A chunk of any size moves the machine exactly as its bytes one by one would. */
    method Write(p: seq<Byte>)
      requires Valid() && Room(Abs(), p)
      modifies this`recvState, this`hdrIdx, this`dataSz, this`ep, this`calls, hdr, msg, msg.data
      ensures Valid() && (msg.data == old(msg.data) || fresh(msg.data))
      ensures Abs() == Run(old(Abs()), p).0
      ensures calls == old(calls) + Dispatch(handlers, Run(old(Abs()), p).1)
      ensures Delivered(handlers, Run(old(Abs()), p).1, calls[|old(calls)|..])
    {
      ghost var start := Abs();
      for i := 0 to |p|
        invariant Valid() && (msg.data == old(msg.data) || fresh(msg.data))
        invariant Abs() == Run(start, p[..i]).0
        invariant calls == old(calls) + Dispatch(handlers, Run(start, p[..i]).1)
      {
        hide Step, Run, Room, Dispatch, Proper;
        RoomAt(start, p, i);
        RunSnoc(start, p, i);
        DispatchAppend(handlers, Run(start, p[..i]).1, Step(Abs(), p[i]).1);
        Receive(p[i]);
      }
      assert p[..|p|] == p;
      DispatchDelivers(handlers, Run(start, p).1);
      assert calls[|old(calls)|..] == Dispatch(handlers, Run(start, p).1);
    }

    /** Sends one frame; true exactly when the stream took all of it. */
    method Message(ep: Byte, m: Msg) returns (ok: bool)
      requires m.Valid()
      modifies stream
      ensures var f := Frame(ep, m.Contents());
              var n := FrameOut(old(stream.script), |f.payload|);
              && ok == (n == |Encode(f)|)
              && stream.written == old(stream.written) + Encode(f)[..n]
              && (n < 6 ==> stream.script == Rest(old(stream.script)))
              && (6 <= n < |Encode(f)| ==> stream.script == AfterFailure(Rest(old(stream.script))))
    {
      var data := m.Contents();
      var sz := |data|;
      var hdr6 := [0x5A, sz % 256, sz / 256 % 256, sz / 65536 % 256, sz / 16777216 % 256, ep];
      EncodePrefix(Frame(ep, data), hdr6);
      var ret := stream.Write(hdr6);
      if ret != 6 {
        return false;
      }
      var sent := stream.WriteAll(data);
      return sent == sz;
    }
  }

  lemma EncodePrefix(f: Frame, hdr6: seq<Byte>)
    requires hdr6 == [MARKER] + Le32(|f.payload|) + [f.ep]
    ensures forall n :: 0 <= n <= 6 ==> Encode(f)[..n] == hdr6[..n]
    ensures forall n :: 0 <= n <= |f.payload| ==> Encode(f)[..6 + n] == hdr6[..6] + f.payload[..n]
  {
  }

  lemma RunSnoc(rx: Rx, p: seq<Byte>, i: nat)
    requires i < |p|
    ensures Run(rx, p[..i + 1]) == (Step(Run(rx, p[..i]).0, p[i]).0,
                                    Run(rx, p[..i]).1 + Step(Run(rx, p[..i]).0, p[i]).1)
  {
    var rx1 := Run(rx, p[..i]).0;
    assert p[..i + 1] == p[..i] + [p[i]];
    RunAppend(rx, p[..i], [p[i]]);
    assert Step(rx1, p[i]).1 + [] == Step(rx1, p[i]).1;
    assert Run(rx1, [p[i]]).1 == Step(rx1, p[i]).1;
  }

  lemma RoomAt(rx: Rx, p: seq<Byte>, i: nat)
    requires Room(rx, p) && i < |p|
    ensures Room(Run(rx, p[..i]).0, [p[i]])
  {
    assert p == p[..i] + p[i..];
    RoomAppend(rx, p[..i], p[i..]);
  }
}
