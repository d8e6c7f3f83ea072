/** The two directions of one sideband endpoint: stream bytes to frames, frame payloads to the stream. */
module Sideband {
  import opened Bytes
  import opened Message
  import opened Frames
  import opened Streams
  import opened MsgDataHandler

  class SidebandHandler {
    const ep: Byte
    var stream: DataStream
    var link: FrameHandler

    constructor (ep: Byte, stream: DataStream, link: FrameHandler)
      ensures this.ep == ep && this.stream == stream && this.link == link
    {
      this.ep := ep;
      this.stream, this.link := stream, link;
    }

    /** Bytes read from the sideband stream leave as one frame for this endpoint. */
    method Write(p: seq<Byte>)
      requires |p| <= MSG_LIMIT
      modifies link.stream
      ensures link.stream.written
           == old(link.stream.written) + Encode(Frame(ep, p))[..FrameOut(old(link.stream.script), |p|)]
    {
      var m := new Msg();
      m.Write(p);
      assert [] + p == p;
      var ok := link.Message(ep, m);
    }

    /** A payload goes out in as many writes as it takes; false exactly when some write accepted nothing. */
    method Message(ep: Byte, m: Msg) returns (ok: bool)
      requires m.Valid() && |m.Contents()| < U32
      modifies stream
      ensures var sent := Pushed(old(stream.script), |m.Contents()|);
              && stream.written == old(stream.written) + m.Contents()[..sent]
              && ok == (sent == |m.Contents()|)
              && (!ok ==> stream.script == AfterFailure(old(stream.script)))
    {
      var data := m.Contents();
      var sent := stream.WriteAll(data);
      return sent == |data|;
    }
  }
}
