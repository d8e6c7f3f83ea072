/** Data streams and message handlers, the two interfaces the link code talks to. */
module Streams {
  import opened Bytes
  import opened Frames

  /**
   * A byte stream as its writer sees it. `script` says how much each coming write
   * accepts, 0 for a failing one; every behaviour of the device is some script.
   */
  class DataStream {
    var written: seq<Byte>
    var script: seq<nat>

    constructor (script: seq<nat>)
      ensures written == [] && this.script == script
    {
      written, this.script := [], script;
    }

    method Write(p: seq<Byte>) returns (n: nat)
      modifies this
      ensures n == Accepted(old(script), |p|)
      ensures written == old(written) + p[..n]
      ensures script == Rest(old(script))
    {
      n := Accepted(script, |p|);
      written := written + p[..n];
      script := Rest(script);
    }

    /** As many writes as it takes to get `data` out, or up to the first that accepts nothing. */
    method WriteAll(data: seq<Byte>) returns (sent: nat)
      modifies this
      ensures sent == Pushed(old(script), |data|)
      ensures written == old(written) + data[..sent]
      ensures sent < |data| ==> script == AfterFailure(old(script))
    {
      sent := 0;
      while sent < |data|
        invariant 0 <= sent <= |data|
        invariant AfterFailure(script) == AfterFailure(old(script))
        invariant written == old(written) + data[..sent]
        invariant sent + Pushed(script, |data| - sent) == Pushed(old(script), |data|)
      {
        var ret := Write(data[sent..]);
        if ret == 0 {
          return;
        }
        assert data[..sent] + data[sent..][..ret] == data[..sent + ret];
        sent := sent + ret;
      }
    }
  }

  function Accepted(script: seq<nat>, offered: nat): (n: nat)
    ensures n <= offered
  {
    if script == [] then 0 else if script[0] < offered then script[0] else offered
  }

  function Rest(script: seq<nat>): seq<nat> {
    if script == [] then [] else script[1..]
  }

  /** How many of `size` bytes a loop of writes gets through before a write accepts nothing. */
  function Pushed(script: seq<nat>, size: nat): (n: nat)
    ensures n <= size
    decreases size
  {
    var k := Accepted(script, size);
    if k == 0 then 0 else k + Pushed(Rest(script), size - k)
  }

  /** How many bytes of a frame get out: its six-byte head must go in one write, the payload need not. */
  function FrameOut(script: seq<nat>, size: nat): (n: nat)
    ensures n <= 6 + size
  {
    if Accepted(script, 6) == 6 then 6 + Pushed(Rest(script), size) else Accepted(script, 6)
  }

  /** What the writes accept up to the first that accepts nothing. */
  function UpToFailure(script: seq<nat>): seq<nat> {
    if script == [] || script[0] == 0 then [] else [script[0]] + UpToFailure(script[1..])
  }

  function Sum(xs: seq<nat>): nat {
    if xs == [] then 0 else xs[0] + Sum(xs[1..])
  }

  /** The writes that are left after one that accepts nothing. */
  function AfterFailure(script: seq<nat>): seq<nat> {
    if script == [] then [] else if script[0] == 0 then script[1..] else AfterFailure(script[1..])
  }

  /** The loop gets out what the writes accept together up to the first failing one, and no more than there is. */
  lemma {:induction false} PushedStops(script: seq<nat>, size: nat)
    ensures Pushed(script, size) == Min(size, Sum(UpToFailure(script)))
    decreases size
  {
    if size > 0 && script != [] && script[0] != 0 {
      if script[0] < size {
        PushedStops(script[1..], size - script[0]);
      } else {
        assert Pushed(Rest(script), 0) == 0;
      }
    }
  }

  /** A head that is not taken whole is all that goes out; otherwise the payload follows as its loop gets it out. */
  lemma FrameOutStops(script: seq<nat>, size: nat)
    ensures script == [] ==> FrameOut(script, size) == 0
    ensures script != [] && script[0] < 6 ==> FrameOut(script, size) == script[0]
    ensures script != [] && script[0] >= 6 ==>
              FrameOut(script, size) == 6 + Min(size, Sum(UpToFailure(script[1..])))
  {
    PushedStops(Rest(script), size);
  }

  /** A head that goes out whole and writes that never fail get the whole frame out. */
  lemma FrameOutAll(script: seq<nat>, size: nat)
    requires |script| > size && script[0] >= 6
    requires forall i :: 1 <= i <= size ==> script[i] > 0
    ensures FrameOut(script, size) == 6 + size
  {
    PushedAll(Rest(script), size);
  }

  /** Writes that always accept something get everything through, however short each one is. */
  lemma {:induction false} PushedAll(script: seq<nat>, size: nat)
    requires |script| >= size
    requires forall i :: 0 <= i < size ==> script[i] > 0
    ensures Pushed(script, size) == size
    decreases size
  {
    if size > 0 {
      PushedAll(Rest(script), size - Accepted(script, size));
    }
  }

  /** Who a frame was handed to: the handler's identity stands for the virtual call made on it. */
  datatype Call = Call(handler: nat, frame: Frame)

  type Table = seq<Option<nat>>

  function HandlerFor(table: Table, ep: Byte): Option<nat> {
    if ep < |table| then table[ep] else None
  }

  /** The calls a list of received frames causes; a frame nobody is registered for causes none. */
  function Dispatch(table: Table, fs: seq<Frame>): seq<Call> {
    if fs == [] then []
    else
      var h := HandlerFor(table, fs[0].ep);
      (if h.Some? then [Call(h.value, fs[0])] else []) + Dispatch(table, fs[1..])
  }

  lemma {:induction false} DispatchAppend(table: Table, a: seq<Frame>, b: seq<Frame>)
    ensures Dispatch(table, a + b) == Dispatch(table, a) + Dispatch(table, b)
    decreases |a|
  {
    if a == [] {
      assert a + b == b;
    } else {
      assert (a + b)[0] == a[0] && (a + b)[1..] == a[1..] + b;
      DispatchAppend(table, a[1..], b);
    }
  }

  /** A frame goes to the handler at its endpoint's place in the table, and nowhere else. */
  lemma DispatchOne(table: Table, f: Frame)
    ensures Dispatch(table, [f]) ==
            if f.ep < |table| && table[f.ep].Some? then [Call(table[f.ep].value, f)] else []
  {
    assert [f][1..] == [];
  }

  /** The frames a handler was called with, in order. */
  function CallsOn(cs: seq<Call>, h: nat): seq<Frame> {
    if cs == [] then [] else (if cs[0].handler == h then [cs[0].frame] else []) + CallsOn(cs[1..], h)
  }

  /** The frames of one endpoint, in order. */
  function FramesAt(fs: seq<Frame>, ep: Byte): seq<Frame> {
    if fs == [] then [] else (if fs[0].ep == ep then [fs[0]] else []) + FramesAt(fs[1..], ep)
  }

  /** Handler `h` stands in the table at `ep` alone. */
  predicate OnlyAt(table: Table, h: nat, ep: Byte) {
    && ep < |table| && table[ep] == Some(h)
    && forall i :: 0 <= i < |table| && i != ep ==> table[i] != Some(h)
  }

  /** Every call is for a received frame whose endpoint leads to that handler, and no such frame is left out. */
  ghost predicate Delivered(table: Table, fs: seq<Frame>, cs: seq<Call>) {
    && (forall c :: c in cs ==> c.frame in fs && c.frame.ep < |table| && table[c.frame.ep] == Some(c.handler))
    && (forall h, ep :: OnlyAt(table, h, ep) ==> CallsOn(cs, h) == FramesAt(fs, ep))
  }

  lemma {:induction false} DispatchDelivers(table: Table, fs: seq<Frame>)
    ensures Delivered(table, fs, Dispatch(table, fs))
    decreases |fs|
  {
    if fs != [] {
      var all, rest := Dispatch(table, fs), Dispatch(table, fs[1..]);
      DispatchDelivers(table, fs[1..]);
      assert all == rest || (all != [] && all[1..] == rest);
      forall h, ep | OnlyAt(table, h, ep) ensures CallsOn(all, h) == FramesAt(fs, ep) {
        assert CallsOn(rest, h) == FramesAt(fs[1..], ep);
      }
    }
  }
}
