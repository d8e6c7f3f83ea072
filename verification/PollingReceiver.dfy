/** The polling receiver: a byte queue kept in one array that is reallocated on write and shifted on read. */
module PollingReceiver {
  import opened Bytes

  /** One turn of the event loop: it fails, or it delivers some bytes to the receiver. */
  datatype Turn = Failed | Delivered(bytes: seq<Byte>)

  /** What the turns of a waiting `read` deliver: it stops at the first that brings bytes or fails. */
  function Arrived(turns: seq<Turn>): seq<Byte> {
    if turns == [] || turns[0].Failed? then []
    else if turns[0].bytes != [] then turns[0].bytes
    else Arrived(turns[1..])
  }

  /** How many turns such a `read` lets pass. */
  function Waited(turns: seq<Turn>): (n: nat)
    ensures n <= |turns|
  {
    if turns == [] then 0
    else if turns[0].Failed? || turns[0].bytes != [] then 1
    else 1 + Waited(turns[1..])
  }

  /** The wait passes turns that bring nothing and ends with the one that brings bytes or fails; its bytes are all. */
  lemma {:induction false} WaitEnds(turns: seq<Turn>)
    ensures var n := Waited(turns);
            && (forall i :: 0 <= i < n - 1 ==> turns[i] == Delivered([]))
            && (n < |turns| ==> n > 0 && turns[n - 1] != Delivered([]))
            && Arrived(turns) == if n > 0 && turns[n - 1].Delivered? then turns[n - 1].bytes else []
  {
    if turns != [] && turns[0] == Delivered([]) {
      WaitEnds(turns[1..]);
      assert forall i :: 0 < i < |turns| ==> turns[i] == turns[1..][i - 1];
    }
  }

  lemma ArrivedFrom(turns: seq<Turn>, t: nat)
    requires t <= |turns|
    ensures Waited(turns[t..]) ==
            if t == |turns| then 0
            else if turns[t].Failed? || turns[t].bytes != [] then 1
            else 1 + Waited(turns[t + 1..])
    ensures Arrived(turns[t..]) ==
            if t == |turns| || turns[t].Failed? then []
            else if turns[t].bytes != [] then turns[t].bytes
            else Arrived(turns[t + 1..])
  {
    assert t < |turns| ==> turns[t..][1..] == turns[t + 1..];
  }

  class Receiver {
    var cached: array<Byte>
    var size: nat
    /** Never updated after construction. */
    const max: nat := 0

    ghost predicate Valid()
      reads this
    {
      size <= cached.Length && size < U32
    }

    function Queue(): seq<Byte>
      requires size <= cached.Length
      reads this, cached
    {
      cached[..size]
    }

    constructor ()
      ensures Valid() && fresh(cached) && Queue() == []
    {
      cached := new Byte[0];
      size := 0;
    }

    method Write(p: seq<Byte>)
      requires Valid() && size + |p| < U32
      modifies this, cached
      ensures Valid() && (cached == old(cached) || fresh(cached))
      ensures Queue() == old(Queue()) + p
    {
      if max < size + |p| {
        var t := cached;
        cached := new Byte[size + |p|];
        forall i | 0 <= i < size {
          cached[i] := t[i];
        }
      }
      var from := size;
      forall i | 0 <= i < |p| {
        cached[from + i] := p[i];
      }
      size := size + |p|;
      assert Queue() == old(Queue()) + p;
    }

    /** Drops the first `n` bytes by moving the others down in place. */
    method Shift(n: nat)
      requires Valid() && n < size
      modifies this`size, cached
      ensures Valid() && Queue() == old(Queue())[n..]
    {
      for i := n to size
        invariant Valid() && size == old(size)
        invariant forall k :: i - n <= k < size ==> cached[k] == old(cached[k])
        invariant forall k :: 0 <= k < i - n ==> cached[k] == old(cached[k + n])
      {
        cached[i - n] := cached[i];
      }
      size := size - n;
    }

    /** Takes up to `want` bytes from the front. */
    method TakeFront(want: nat) returns (got: seq<Byte>)
      requires Valid()
      modifies this`size, cached
      ensures Valid() && cached == old(cached)
      ensures got == old(Queue())[..Min(want, old(size))] && Queue() == old(Queue())[Min(want, old(size))..]
    {
      got := [];
      if size != 0 {
        var n := if size >= want then want else size;
        got := cached[..n];
        if size > n {
          Shift(n);
        } else {
          size := 0;
        }
      }
    }

    /** Waits for the queue to be non-empty. */
    method Wait(turns: seq<Turn>) returns (used: nat)
      requires Valid()
      requires size + |Arrived(turns)| < U32
      modifies this, cached
      ensures Valid() && (cached == old(cached) || fresh(cached))
      ensures Queue() == old(Queue()) + if old(size) == 0 then Arrived(turns) else []
      ensures used == if old(size) == 0 then Waited(turns) else 0
    {
      hide Arrived, Waited;
      used := 0;
      ghost var waited := if size == 0 then Waited(turns) else 0;
      assert turns[0..] == turns;
      ghost var full := Queue() + if size == 0 then Arrived(turns) else [];
      while size == 0
        invariant Valid() && (cached == old(cached) || fresh(cached))
        invariant used <= |turns|
        invariant Queue() + (if size == 0 then Arrived(turns[used..]) else []) == full
        invariant waited == used + if size == 0 then Waited(turns[used..]) else 0
        invariant size == 0 ==> size + |Arrived(turns[used..])| < U32
        decreases size == 0, |turns| - used
      {
        ArrivedFrom(turns, used);
        if used == |turns| {
          break;
        }
        used := used + 1;
        if turns[used - 1].Failed? {
          break;
        }
        Write(turns[used - 1].bytes);
      }
      assert Queue() == full;
    }

    /**
     * Waits for the queue to be non-empty, then takes up to `want` bytes from its
     * front. `turns` is what the event loop will do; a list that runs out is a failing loop.
     */
    method Read(want: nat, turns: seq<Turn>) returns (got: seq<Byte>, used: nat)
      requires Valid()
      requires size + |Arrived(turns)| < U32
      modifies this, cached
      ensures Valid() && (cached == old(cached) || fresh(cached))
      ensures Fifo(Queue(), got) == Apply(Fifo(old(Queue()), []), Pull(want, turns))
      ensures used == if old(size) == 0 then Waited(turns) else 0
      ensures |got| <= want && (Queue() != [] ==> |got| == want)
      ensures old(Queue()) != [] ==> used == 0 && got + Queue() == old(Queue())
      ensures old(Queue()) == [] ==>
                && used <= |turns| && (forall i :: 0 <= i < used - 1 ==> turns[i] == Delivered([]))
                && (used < |turns| ==> used > 0 && turns[used - 1] != Delivered([]))
                && got + Queue() == if used > 0 && turns[used - 1].Delivered? then turns[used - 1].bytes else []
    {
      hide Arrived, Waited, Apply;
      used := Wait(turns);
      got := TakeFront(want);
      ReadApplies(old(Queue()), want, turns, Queue(), got);
      ReadMeans(old(Queue()), want, turns, Queue(), got);
    }
  }

  // ---- runs of reads and writes ----

  datatype Op = Push(bytes: seq<Byte>) | Pull(want: nat, turns: seq<Turn>)

  /** The queue and the bytes handed out so far. */
  datatype Fifo = Fifo(queue: seq<Byte>, out: seq<Byte>)

  /** The bytes an operation brings in, whether written directly or from inside a waiting read. */
  function Incoming(f: Fifo, op: Op): seq<Byte> {
    match op
    case Push(bytes) => bytes
    case Pull(_, turns) => if f.queue == [] then Arrived(turns) else []
  }

  /** How many bytes an operation takes from the front of a queue of that size. */
  function Taken(op: Op, size: nat): (n: nat)
    ensures n <= size
  {
    match op
    case Push(_) => 0
    case Pull(want, _) => Min(want, size)
  }

  /** What `Write` and `Read` do to the queue, as their contracts state it. */
  function Apply(f: Fifo, op: Op): Fifo {
    var full := f.queue + Incoming(f, op);
    var n := Taken(op, |full|);
    Fifo(full[n..], f.out + full[..n])
  }

  function ApplyAll(f: Fifo, ops: seq<Op>): Fifo
    decreases |ops|
  {
    if ops == [] then f else ApplyAll(Apply(f, ops[0]), ops[1..])
  }

  /** Everything that comes in during a run. */
  function Input(f: Fifo, ops: seq<Op>): seq<Byte>
    decreases |ops|
  {
    if ops == [] then [] else Incoming(f, ops[0]) + Input(Apply(f, ops[0]), ops[1..])
  }

  /** Nothing is lost, repeated or reordered, whatever the interleaving. */
  lemma {:induction false} FifoPreserves(f: Fifo, ops: seq<Op>)
    ensures ApplyAll(f, ops).out + ApplyAll(f, ops).queue == f.out + f.queue + Input(f, ops)
    decreases |ops|
  {
    if ops == [] {
      assert f.out + f.queue + [] == f.out + f.queue;
    } else {
      var g, mine := Apply(f, ops[0]), Incoming(f, ops[0]);
      FifoPreserves(g, ops[1..]);
      ApplyPreserves(f, ops[0]);
      assert f.out + f.queue + (mine + Input(g, ops[1..])) == f.out + f.queue + mine + Input(g, ops[1..]);
    }
  }

  /** A read comes back empty-handed only when nothing was asked for or the link failed before any byte came. */
  lemma ReadReturnsData(f: Fifo, want: nat, turns: seq<Turn>)
    ensures Apply(f, Pull(want, turns)).out == f.out <==>
            || want == 0
            || (f.queue == [] && forall i :: 0 <= i < |turns| && BringsBytes(turns[i]) ==> FailsBefore(turns, i))
  {
    var g := Apply(f, Pull(want, turns));
    var full := f.queue + Incoming(f, Pull(want, turns));
    assert |g.out| == |f.out| + Min(want, |full|);
    assert |g.out| == |f.out| ==> full[..0] == [] && g.out == f.out;
    ArrivedNothing(turns);
  }

  predicate BringsBytes(t: Turn) {
    t.Delivered? && t.bytes != []
  }

  predicate FailsBefore(turns: seq<Turn>, i: nat) {
    exists j :: 0 <= j < i && j < |turns| && turns[j].Failed?
  }

  lemma {:induction false} ArrivedNothing(turns: seq<Turn>)
    ensures Arrived(turns) == [] <==> forall i :: 0 <= i < |turns| && BringsBytes(turns[i]) ==> FailsBefore(turns, i)
  {
    if turns != [] {
      var rest := turns[1..];
      ArrivedNothing(rest);
      if turns[0].Failed? {
      } else if turns[0].bytes != [] {
        assert BringsBytes(turns[0]) && !FailsBefore(turns, 0);
      } else {
        forall i | 0 <= i < |rest| ensures FailsBefore(turns, i + 1) <==> FailsBefore(rest, i) {
          if FailsBefore(turns, i + 1) {
            var j :| 0 <= j < i + 1 && j < |turns| && turns[j].Failed?;
            assert rest[j - 1].Failed?;
          }
          if FailsBefore(rest, i) {
            var j :| 0 <= j < i && j < |rest| && rest[j].Failed?;
            assert turns[j + 1].Failed?;
          }
        }
        assert forall i :: 0 < i < |turns| ==> turns[i] == rest[i - 1];
        assert forall i :: 0 <= i < |rest| ==> rest[i] == turns[i + 1];
      }
    }
  }

  /** A read hands out what was asked for, or all there is when that is less. */
  lemma TakesWhatIsAsked(f: Fifo, want: nat, turns: seq<Turn>)
    ensures var g := Apply(f, Pull(want, turns));
            |g.out| - |f.out| <= want && (g.queue != [] ==> |g.out| - |f.out| == want)
  {
  }

  /** Waiting and then taking from the front is the pull of the model. */
  lemma ReadApplies(q: seq<Byte>, want: nat, turns: seq<Turn>, q': seq<Byte>, got: seq<Byte>)
    requires var full := q + if q == [] then Arrived(turns) else [];
             var n := Min(want, |full|);
             got == full[..n] && q' == full[n..]
    ensures Fifo(q', got) == Apply(Fifo(q, []), Pull(want, turns))
  {
    assert [] + got == got;
  }

  /** What `Read` promises of the queue and the wait, said without `Apply`. */
  lemma ReadMeans(q: seq<Byte>, want: nat, turns: seq<Turn>, q': seq<Byte>, got: seq<Byte>)
    requires Fifo(q', got) == Apply(Fifo(q, []), Pull(want, turns))
    ensures |got| <= want && (q' != [] ==> |got| == want)
    ensures q != [] ==> got + q' == q
    ensures q == [] ==>
              var used := Waited(turns);
              && (forall i :: 0 <= i < used - 1 ==> turns[i] == Delivered([]))
              && (used < |turns| ==> used > 0 && turns[used - 1] != Delivered([]))
              && got + q' == if used > 0 && turns[used - 1].Delivered? then turns[used - 1].bytes else []
  {
    TakesWhatIsAsked(Fifo(q, []), want, turns);
    ApplyPreserves(Fifo(q, []), Pull(want, turns));
    WaitEnds(turns);
    hide Apply, Arrived, Waited;
    assert got + q' == q + Incoming(Fifo(q, []), Pull(want, turns)) by {
      assert [] + q == q;
    }
  }

  lemma ApplyPreserves(f: Fifo, op: Op)
    ensures Apply(f, op).out + Apply(f, op).queue == f.out + f.queue + Incoming(f, op)
  {
    var full := f.queue + Incoming(f, op);
    var n := Taken(op, |full|);
    assert f.out + full == f.out + f.queue + Incoming(f, op);
    assert f.out + full[..n] + full[n..] == f.out + full;
  }
}
