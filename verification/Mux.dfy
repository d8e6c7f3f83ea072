/** The multiplexer: parallel lists of streams and data handlers, and one turn of its dispatch loop. */
module Mux {
  import opened Bytes

  /** The most one read of a stream returns. */
  const BUFFER: nat := 4096

  /** What one read takes of the bytes a stream has. */
  function ReadOnce(available: seq<Byte>): (r: seq<Byte>)
    ensures |r| <= 4096 && r <= available
    ensures |r| < 4096 ==> r == available
  {
    available[..Min(BUFFER, |available|)]
  }

  /** One call of a data handler. */
  datatype Write<H> = Write(handler: H, bytes: seq<Byte>)

  /** What one turn hands to the handlers, in the order of the streams. */
  function Deliveries<H>(handlers: seq<Option<H>>, fds: seq<int>, readable: set<int>, inputs: seq<seq<Byte>>)
    : seq<Write<H>>
    requires |fds| == |handlers| == |inputs|
    decreases |fds|
  {
    if fds == [] then []
    else
      (if fds[0] >= 0 && fds[0] in readable && inputs[0] != [] && handlers[0].Some?
       then [Write(handlers[0].value, ReadOnce(inputs[0]))] else [])
      + Deliveries(handlers[1..], fds[1..], readable, inputs[1..])
  }

  /** A stream that is selected and has bytes makes one call of its handler, with what one read takes. */
  lemma DeliveriesOne<H>(h: Option<H>, fd: int, readable: set<int>, input: seq<Byte>)
    ensures Deliveries([h], [fd], readable, [input]) ==
            if fd >= 0 && fd in readable && input != [] && h.Some? then [Write(h.value, ReadOnce(input))] else []
  {
    assert [h][1..] == [] && [fd][1..] == [] && [input][1..] == [];
  }

  /** The streams are served in the order of the lists. */
  lemma {:induction false} DeliveriesAppend<H>(hs: seq<Option<H>>, hs': seq<Option<H>>, fds: seq<int>, fds': seq<int>,
                                               readable: set<int>, ins: seq<seq<Byte>>, ins': seq<seq<Byte>>)
    requires |hs| == |fds| == |ins| && |hs'| == |fds'| == |ins'|
    ensures Deliveries(hs + hs', fds + fds', readable, ins + ins')
         == Deliveries(hs, fds, readable, ins) + Deliveries(hs', fds', readable, ins')
    decreases |fds|
  {
    if fds == [] {
      assert hs + hs' == hs' && fds + fds' == fds' && ins + ins' == ins';
    } else {
      assert (hs + hs')[1..] == hs[1..] + hs' && (fds + fds')[1..] == fds[1..] + fds';
      assert (ins + ins')[1..] == ins[1..] + ins';
      DeliveriesAppend(hs[1..], hs', fds[1..], fds', readable, ins[1..], ins');
      var mine: seq<Write<H>> := if fds[0] >= 0 && fds[0] in readable && ins[0] != [] && hs[0].Some?
                  then [Write(hs[0].value, ReadOnce(ins[0]))] else [];
      Regroup(mine, Deliveries(hs[1..], fds[1..], readable, ins[1..]), Deliveries(hs', fds', readable, ins'));
    }
  }

  /** The bytes a handler received, in order. */
  function ReceivedBy<H(==)>(ws: seq<Write<H>>, h: H): seq<Byte> {
    if ws == [] then [] else (if ws[0].handler == h then ws[0].bytes else []) + ReceivedBy(ws[1..], h)
  }

  /** No handler is ever called without bytes, or with more than the buffer holds. */
  lemma {:induction false} DeliveriesNonEmpty<H>(handlers: seq<Option<H>>, fds: seq<int>, readable: set<int>,
                                                 inputs: seq<seq<Byte>>)
    requires |fds| == |handlers| == |inputs|
    ensures forall w :: w in Deliveries(handlers, fds, readable, inputs) ==> 0 < |w.bytes| <= BUFFER
    decreases |fds|
  {
    if fds != [] {
      DeliveriesNonEmpty(handlers[1..], fds[1..], readable, inputs[1..]);
    }
  }

  /** A handler registered once receives exactly what one read of its own stream takes. */
  lemma {:induction false} OwnStreamOnly<H>(handlers: seq<Option<H>>, fds: seq<int>, readable: set<int>,
                                            inputs: seq<seq<Byte>>, h: H, k: nat)
    requires |fds| == |handlers| == |inputs|
    requires k < |handlers| ==> handlers[k] == Some(h)
    requires forall i :: 0 <= i < |handlers| && i != k ==> handlers[i] != Some(h)
    ensures ReceivedBy(Deliveries(handlers, fds, readable, inputs), h)
         == if k < |handlers| && fds[k] >= 0 && fds[k] in readable then ReadOnce(inputs[k]) else []
    decreases |fds|
  {
    if fds != [] {
      var all := Deliveries(handlers, fds, readable, inputs);
      var rest := Deliveries(handlers[1..], fds[1..], readable, inputs[1..]);
      OwnStreamOnly(handlers[1..], fds[1..], readable, inputs[1..], h, if k == 0 then |handlers| else k - 1);
      assert all == rest || all[1..] == rest;
    }
  }

  lemma DeliveriesFrom<H>(handlers: seq<Option<H>>, fds: seq<int>, readable: set<int>, inputs: seq<seq<Byte>>,
                          i: nat, sofar: seq<Write<H>>)
    requires |fds| == |handlers| == |inputs| && i < |fds|
    ensures var mine := if fds[i] >= 0 && fds[i] in readable && inputs[i] != [] && handlers[i].Some?
                        then [Write(handlers[i].value, ReadOnce(inputs[i]))] else [];
            sofar + Deliveries(handlers[i..], fds[i..], readable, inputs[i..]) ==
            sofar + mine + Deliveries(handlers[i + 1..], fds[i + 1..], readable, inputs[i + 1..])
  {
    assert handlers[i..][1..] == handlers[i + 1..] && fds[i..][1..] == fds[i + 1..];
    assert inputs[i..][1..] == inputs[i + 1..];
  }

  lemma DeliveriesEnds<H>(handlers: seq<Option<H>>, fds: seq<int>, readable: set<int>, inputs: seq<seq<Byte>>)
    requires |fds| == |handlers| == |inputs|
    ensures var n := |fds|;
            && Deliveries(handlers[0..], fds[0..], readable, inputs[0..]) == Deliveries(handlers, fds, readable, inputs)
            && Deliveries(handlers[n..], fds[n..], readable, inputs[n..]) == []
  {
    assert handlers[0..] == handlers && fds[0..] == fds && inputs[0..] == inputs;
  }

  class MuxDemux<S, H> {
    var streams: seq<S>
    var handlers: seq<Option<H>>

    ghost predicate Valid()
      reads this
    {
      |streams| == |handlers|
    }

    constructor ()
      ensures Valid() && streams == []
    {
      streams, handlers := [], [];
    }

    method Init()
      modifies this
      ensures Valid() && streams == []
    {
      handlers := [];
      streams := [];
    }

    method AddDataStream(stream: S, handler: Option<H>)
      requires Valid()
      modifies this
      ensures Valid()
      ensures streams == old(streams) + [stream] && handlers == old(handlers) + [handler]
    {
      streams := streams + [stream];
      handlers := handlers + [handler];
    }

    /**
     * One turn. `fds` are the streams' descriptors, `sret` and `readable` what
     * `select` answers, `inputs` the bytes each stream has.
     */
    method RecvAndDispatch(fds: seq<int>, sret: int, readable: set<int>, inputs: seq<seq<Byte>>)
      returns (ret: int, writes: seq<Write<H>>)
      requires Valid() && |fds| == |inputs| == |streams|
      ensures var idle := sret == -1 || forall i :: 0 <= i < |fds| ==> fds[i] <= 0;
              && ret == (if idle then -1 else sret)
              && writes == if idle then [] else Deliveries(handlers, fds, readable, inputs)
    {
      hide Deliveries, ReadOnce;
      var nfds := HighestFd(fds);
      writes := [];
      if nfds < 0 || sret == -1 {
        return -1, [];
      }
      DeliveriesEnds(handlers, fds, readable, inputs);
      for i := 0 to |streams|
        invariant writes + Deliveries(handlers[i..], fds[i..], readable, inputs[i..])
               == Deliveries(handlers, fds, readable, inputs)
      {
        DeliveriesFrom(handlers, fds, readable, inputs, i, writes);
        if fds[i] >= 0 && fds[i] in readable && inputs[i] != [] && handlers[i].Some? {
          writes := writes + [Write(handlers[i].value, ReadOnce(inputs[i]))];
        }
      }
      ret := sret;
    }
  }

  /** The largest usable descriptor, -1 when there is none; 0 is not one. */
  method HighestFd(fds: seq<int>) returns (nfds: int)
    ensures nfds < 0 <==> forall i :: 0 <= i < |fds| ==> fds[i] <= 0
    ensures nfds >= 0 ==> nfds in fds && forall i :: 0 <= i < |fds| ==> fds[i] <= nfds
  {
    nfds := -1;
    for i := 0 to |fds|
      invariant nfds == -1 || nfds > 0
      invariant nfds == -1 ==> forall j :: 0 <= j < i ==> fds[j] <= 0
      invariant nfds > 0 ==> nfds in fds && forall j :: 0 <= j < i ==> fds[j] <= nfds
    {
      if fds[i] > 0 {
        if fds[i] > nfds {
          nfds := fds[i];
        }
      }
    }
  }
}
