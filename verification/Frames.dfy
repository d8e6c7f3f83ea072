/**
 * The frame layer on byte sequences: what the sender emits for a message, the
 * receive machine one byte at a time, and a parser of whole streams to compare it with.
 */
module Frames {
  import opened Bytes
  import opened Message

  const MARKER: Byte := 0x5A

  /** A message payload and the endpoint it is for. */
  datatype Frame = Frame(ep: Byte, payload: seq<Byte>)

  /** Marker, 32-bit size, endpoint, payload. */
  function Encode(f: Frame): seq<Byte> {
    [MARKER] + Le32(|f.payload|) + [f.ep] + f.payload
  }

  /** The bytes of a frame: 0x5A, the size in four bytes from the lowest on, the endpoint, the payload. */
  lemma OnTheWire(f: Frame)
    ensures var n := |f.payload|;
            Encode(f) == [0x5A, n % 256, n / 256 % 256, n / 65536 % 256, n / 16777216 % 256, f.ep] + f.payload
  {
  }

  function EncodeAll(fs: seq<Frame>): seq<Byte> {
    if fs == [] then [] else Encode(fs[0]) + EncodeAll(fs[1..])
  }

  // ---- the receive machine ----

  datatype Rx = Marker | Header(hdr: seq<Byte>) | Data(size: nat, ep: Byte, body: seq<Byte>)

  ghost predicate Proper(rx: Rx) {
    match rx
    case Marker => true
    case Header(hdr) => |hdr| < 5
    case Data(size, _, body) => size < U32 && (|body| < size || body == [])
  }

  function HeaderDone(hdr: seq<Byte>): Rx
    requires |hdr| == 5
  {
    Data(FromLe32(hdr[..4]), hdr[4], [])
  }

  function Step(rx: Rx, b: Byte): (Rx, seq<Frame>) {
    match rx
    case Marker => (if b == MARKER then Header([]) else Marker, [])
    case Header(hdr) => (if |hdr| == 4 then HeaderDone(hdr + [b]) else Header(hdr + [b]), [])
    case Data(size, ep, body) =>
      if |body| + 1 >= size then (Marker, [Frame(ep, body + [b])]) else (Data(size, ep, body + [b]), [])
  }

  /** The state after the bytes `s`, and the messages completed on the way. */
  function Run(rx: Rx, s: seq<Byte>): (Rx, seq<Frame>)
    decreases |s|
  {
    if s == [] then (rx, [])
    else
      var (rx1, out1) := Step(rx, s[0]);
      var (rx2, out2) := Run(rx1, s[1..]);
      (rx2, out1 + out2)
  }

  /** How the stream is cut into chunks does not matter. */
  lemma {:induction false} RunAppend(rx: Rx, a: seq<Byte>, b: seq<Byte>)
    ensures Run(rx, a + b) == (Run(Run(rx, a).0, b).0, Run(rx, a).1 + Run(Run(rx, a).0, b).1)
    decreases |a|
  {
    if a == [] {
      assert a + b == b && [] + Run(rx, b).1 == Run(rx, b).1;
    } else {
      assert (a + b)[1..] == a[1..] + b;
      var (rx1, out1) := Step(rx, a[0]);
      RunAppend(rx1, a[1..], b);
      assert out1 + (Run(rx1, a[1..]).1 + Run(Run(rx, a).0, b).1)
          == out1 + Run(rx1, a[1..]).1 + Run(Run(rx, a).0, b).1;
    }
  }

  /** A first part that completes no message only moves the machine on. */
  lemma RunSilent(rx: Rx, a: seq<Byte>, b: seq<Byte>)
    requires Run(rx, a).1 == []
    ensures Run(rx, a + b) == Run(Run(rx, a).0, b)
  {
    RunAppend(rx, a, b);
    assert [] + Run(Run(rx, a).0, b).1 == Run(Run(rx, a).0, b).1;
  }

  lemma RunStep(rx: Rx, s: seq<Byte>)
    requires s != [] && Step(rx, s[0]).1 == []
    ensures Run(rx, s) == Run(Step(rx, s[0]).0, s[1..])
  {
    assert [] + Run(Step(rx, s[0]).0, s[1..]).1 == Run(Step(rx, s[0]).0, s[1..]).1;
  }

  /** Feeding a list of chunks one after the other. */
  function RunChunks(rx: Rx, chunks: seq<seq<Byte>>): (Rx, seq<Frame>)
    decreases |chunks|
  {
    if chunks == [] then (rx, [])
    else
      var (rx1, out1) := Run(rx, chunks[0]);
      var (rx2, out2) := RunChunks(rx1, chunks[1..]);
      (rx2, out1 + out2)
  }

  lemma {:induction false} ChunkingIrrelevant(rx: Rx, chunks: seq<seq<Byte>>)
    ensures RunChunks(rx, chunks) == Run(rx, Concat(chunks))
    decreases |chunks|
  {
    if chunks != [] {
      ChunkingIrrelevant(Run(rx, chunks[0]).0, chunks[1..]);
      RunAppend(rx, chunks[0], Concat(chunks[1..]));
    }
  }

  // ---- pieces of a run ----

  /** Bytes before the first marker leave no trace. */
  lemma {:induction false} RunSkips(s: seq<Byte>)
    requires MARKER !in s
    ensures Run(Marker, s) == (Marker, [])
  {
    if s != [] {
      assert s[0] in s;
      RunStep(Marker, s);
      RunSkips(s[1..]);
    }
  }

  lemma {:induction false} RunHeader(hdr: seq<Byte>, s: seq<Byte>)
    requires |hdr| < 5
    ensures |hdr| + |s| < 5 ==> Run(Header(hdr), s) == (Header(hdr + s), [])
    ensures |hdr| + |s| == 5 ==> Run(Header(hdr), s) == (HeaderDone(hdr + s), [])
    decreases |s|
  {
    if s == [] {
      assert hdr + s == hdr;
    } else {
      assert hdr + [s[0]] + s[1..] == hdr + s;
      RunStep(Header(hdr), s);
      if |hdr| < 4 {
        RunHeader(hdr + [s[0]], s[1..]);
      } else if |s| == 1 {
        assert s[1..] == [] && hdr + s == hdr + [s[0]];
      }
    }
  }

  /** The message length the machine waits for: the declared size, but at least one byte. */
  function Wanted(size: nat): nat {
    if size == 0 then 1 else size
  }

  lemma {:induction false} RunData(size: nat, ep: Byte, body: seq<Byte>, s: seq<Byte>)
    requires |body| < Wanted(size)
    ensures |body| + |s| < Wanted(size) ==> Run(Data(size, ep, body), s) == (Data(size, ep, body + s), [])
    ensures |body| + |s| == Wanted(size) ==> Run(Data(size, ep, body), s) == (Marker, [Frame(ep, body + s)])
    decreases |s|
  {
    if s == [] {
      assert body + s == body;
    } else {
      assert body + [s[0]] + s[1..] == body + s;
      if |body| + 1 < Wanted(size) {
        RunStep(Data(size, ep, body), s);
        RunData(size, ep, body + [s[0]], s[1..]);
      } else if |s| == 1 {
        assert s[1..] == [] && body + s == body + [s[0]];
        assert [Frame(ep, body + s)] + [] == [Frame(ep, body + s)];
      }
    }
  }

  // ---- the reference parser ----

  datatype Parsed = Parsed(frames: seq<Frame>, rest: seq<Byte>)

  function SkipToMarker(s: seq<Byte>): (t: seq<Byte>)
    ensures |t| <= |s|
    ensures t != [] ==> t[0] == MARKER
    ensures s[|s| - |t|..] == t && MARKER !in s[..|s| - |t|]
  {
    if s == [] || s[0] == MARKER then s else SkipToMarker(s[1..])
  }

  /** The size field of a stream that starts with a complete header. */
  function SizeField(t: seq<Byte>): nat
    requires |t| >= 6
  {
    FromLe32(t[1..5])
  }

  /** The stream starts with a frame that is all there. */
  predicate Complete(t: seq<Byte>) {
    |t| >= 6 && |t| >= 6 + Wanted(SizeField(t))
  }

  function FrameEnd(t: seq<Byte>): (n: nat)
    requires Complete(t)
    ensures 6 < n <= |t|
  {
    6 + Wanted(SizeField(t))
  }

  function FirstFrame(t: seq<Byte>): Frame
    requires Complete(t)
  {
    Frame(t[5], t[6..FrameEnd(t)])
  }

  /** Cut a whole stream into messages; `rest` is the unfinished frame at its end. */
  function Parse(s: seq<Byte>): Parsed
    decreases |s|
  {
    var t := SkipToMarker(s);
    if !Complete(t) then Parsed([], t)
    else
      var p := Parse(t[FrameEnd(t)..]);
      Parsed([FirstFrame(t)] + p.frames, p.rest)
  }

  /** The machine state that stands for an unfinished frame. */
  function Unfinished(rest: seq<Byte>): Rx {
    if rest == [] then Marker
    else if |rest| < 6 then Header(rest[1..])
    else Data(SizeField(rest), rest[5], rest[6..])
  }

  lemma RunUnfinished(t: seq<Byte>)
    requires t != [] ==> t[0] == MARKER
    requires !Complete(t)
    ensures Run(Marker, t) == (Unfinished(t), [])
  {
    if t != [] {
      RunStep(Marker, t);
      if |t| < 6 {
        RunHeader([], t[1..]);
        assert [] + t[1..] == t[1..];
      } else {
        RunFrameHead(t);
        RunData(SizeField(t), t[5], [], t[6..]);
        assert [] + t[6..] == t[6..];
      }
    }
  }

  /** A complete header only sets up the data state. */
  lemma RunFrameHead(t: seq<Byte>)
    requires |t| >= 6 && t[0] == MARKER
    ensures Run(Marker, t)
         == Run(Data(SizeField(t), t[5], []), t[6..])
  {
    var head := t[1..6];
    RunHeader([], head);
    assert [] + head == head && head[..4] == t[1..5];
    assert t[1..] == head + t[6..];
    RunStep(Marker, t);
    RunSilent(Header([]), head, t[6..]);
  }

  lemma RunOneFrame(t: seq<Byte>)
    requires Complete(t) && t[0] == MARKER
    ensures Run(Marker, t)
         == (Run(Marker, t[FrameEnd(t)..]).0, [FirstFrame(t)] + Run(Marker, t[FrameEnd(t)..]).1)
  {
    hide Run, SizeField;
    var size, n := SizeField(t), FrameEnd(t);
    RunFrameHead(t);
    RunData(size, t[5], [], t[6..n]);
    assert [] + t[6..n] == t[6..n];
    assert t[6..] == t[6..n] + t[n..];
    RunAppend(Data(size, t[5], []), t[6..n], t[n..]);
  }

  /** On every byte sequence the machine delivers exactly what the parser cuts out. */
  lemma {:induction false} RunRefinesParse(s: seq<Byte>)
    ensures Run(Marker, s) == (Unfinished(Parse(s).rest), Parse(s).frames)
    decreases |s|
  {
    var t := SkipToMarker(s);
    var skipped := s[..|s| - |t|];
    assert Run(Marker, s) == Run(Marker, t) by {
      assert s == skipped + t;
      RunSkips(skipped);
      RunSilent(Marker, skipped, t);
    }
    if Complete(t) {
      RunOneFrame(t);
      RunRefinesParse(t[FrameEnd(t)..]);
    } else {
      RunUnfinished(t);
    }
  }

  // ---- round trip ----

  /** A payload the 32-bit size field can describe. */
  predicate Fits(f: Frame) {
    |f.payload| < U32
  }

  lemma EncodedHead(f: Frame)
    requires Fits(f)
    ensures |Encode(f)| == 6 + |f.payload|
    ensures Encode(f)[0] == MARKER && Encode(f)[1..5] == Le32(|f.payload|)
    ensures SizeField(Encode(f)) == |f.payload|
    ensures Encode(f)[5] == f.ep && Encode(f)[6..] == f.payload
  {
    Le32RoundTrip(|f.payload|);
  }

  lemma RunEncoded(f: Frame, more: seq<Byte>)
    requires Fits(f) && f.payload != []
    ensures Run(Marker, Encode(f) + more) == (Run(Marker, more).0, [f] + Run(Marker, more).1)
  {
    var t := Encode(f) + more;
    EncodedHead(f);
    assert t[1..5] == Encode(f)[1..5];
    assert t[6..6 + |f.payload|] == f.payload && t[6 + |f.payload|..] == more;
    RunOneFrame(t);
  }

  lemma {:induction false} RunEncodedAll(fs: seq<Frame>, more: seq<Byte>)
    requires forall f :: f in fs ==> Fits(f) && f.payload != []
    ensures Run(Marker, EncodeAll(fs) + more) == (Run(Marker, more).0, fs + Run(Marker, more).1)
    decreases |fs|
  {
    if fs == [] {
      assert EncodeAll(fs) + more == more && fs + Run(Marker, more).1 == Run(Marker, more).1;
    } else {
      assert EncodeAll(fs) + more == Encode(fs[0]) + (EncodeAll(fs[1..]) + more);
      RunEncoded(fs[0], EncodeAll(fs[1..]) + more);
      RunEncodedAll(fs[1..], more);
      assert [fs[0]] + (fs[1..] + Run(Marker, more).1) == fs + Run(Marker, more).1;
    }
  }

  lemma {:induction false} EncodeAllAppend(a: seq<Frame>, b: seq<Frame>)
    ensures EncodeAll(a + b) == EncodeAll(a) + EncodeAll(b)
    decreases |a|
  {
    if a == [] {
      assert a + b == b;
    } else {
      assert (a + b)[1..] == a[1..] + b;
      EncodeAllAppend(a[1..], b);
    }
  }

  /** No byte sequence makes the machine deliver an empty message. */
  lemma {:induction false} DeliveriesNonEmpty(rx: Rx, s: seq<Byte>)
    ensures forall f :: f in Run(rx, s).1 ==> f.payload != []
    decreases |s|
  {
    if s != [] {
      DeliveriesNonEmpty(Step(rx, s[0]).0, s[1..]);
    }
  }

  /** The round trip holds exactly for lists without an empty payload, under every cut into chunks. */
  lemma FrameRoundTrip(fs: seq<Frame>, chunks: seq<seq<Byte>>)
    requires forall f :: f in fs ==> Fits(f)
    requires Concat(chunks) == EncodeAll(fs)
    ensures RunChunks(Marker, chunks) == (Marker, fs) <==> forall f :: f in fs ==> f.payload != []
  {
    ChunkingIrrelevant(Marker, chunks);
    if forall f :: f in fs ==> f.payload != [] {
      RunEncodedAll(fs, []);
      assert EncodeAll(fs) + [] == EncodeAll(fs);
      assert fs + [] == fs;
    } else {
      DeliveriesNonEmpty(Marker, EncodeAll(fs));
    }
  }

  /**
   * Feeding a cut stream delivers exactly the messages whose last byte has arrived:
   * neither a later one nor one fewer.
   */
  lemma PrefixDelivers(fs: seq<Frame>, k: nat, part: nat)
    requires forall f :: f in fs ==> Fits(f) && f.payload != []
    requires k < |fs| && part < |Encode(fs[k])|
    ensures |EncodeAll(fs[..k])| + part <= |EncodeAll(fs)|
    ensures Run(Marker, EncodeAll(fs)[..|EncodeAll(fs[..k])| + part]).1 == fs[..k]
  {
    hide Encode, Run;
    var whole, tail := EncodeAll(fs[..k]), Encode(fs[k])[..part];
    EncodeAllSplit(fs, k, part);
    RunEncodedAll(fs[..k], tail);
    RunCutFrame(fs[k], part);
    assert fs[..k] + [] == fs[..k];
  }

  lemma EncodeAllSplit(fs: seq<Frame>, k: nat, part: nat)
    requires k < |fs| && part < |Encode(fs[k])|
    ensures var n := |EncodeAll(fs[..k])| + part;
            n <= |EncodeAll(fs)| && EncodeAll(fs)[..n] == EncodeAll(fs[..k]) + Encode(fs[k])[..part]
  {
    hide Encode;
    assert fs == fs[..k] + fs[k..] && fs[k..][0] == fs[k];
    EncodeAllAppend(fs[..k], fs[k..]);
  }

  /** A frame cut short delivers nothing yet. */
  lemma RunCutFrame(f: Frame, part: nat)
    requires Fits(f) && part < |Encode(f)|
    ensures Run(Marker, Encode(f)[..part]).1 == []
  {
    var tail := Encode(f)[..part];
    EncodedHead(f);
    assert part >= 6 ==> tail[1..5] == Encode(f)[1..5];
    RunUnfinished(tail);
  }

  /**
   * After one empty message the next byte, here the next frame's marker, is swallowed
   * as its payload; the receiver goes on as if that frame's other bytes were a stream.
   */
  lemma EmptyPayloadSwallowsMarker(ep: Byte, f: Frame)
    requires Fits(f)
    ensures var (rx, out) := Run(Marker, Encode(f)[1..]);
            Run(Marker, EncodeAll([Frame(ep, []), f])) == (rx, [Frame(ep, [MARKER])] + out)
    ensures MARKER !in Encode(f)[1..] ==>
              Run(Marker, EncodeAll([Frame(ep, []), f])) == (Marker, [Frame(ep, [MARKER])])
  {
    var e := Frame(ep, []);
    var t := Encode(e) + Encode(f);
    assert EncodeAll([e, f]) == t by {
      assert [e, f][1..] == [f] && [f][1..] == [];
      assert EncodeAll([f]) == Encode(f) + [];
    }
    EncodedHead(e);
    EncodedHead(f);
    assert t[1..5] == Encode(e)[1..5];
    RunOneFrame(t);
    assert t[6..7] == [MARKER] && t[7..] == Encode(f)[1..];
    assert SizeField(t) == 0 && FrameEnd(t) == 7;
    assert FirstFrame(t) == Frame(ep, [MARKER]);
    if MARKER !in Encode(f)[1..] {
      RunSkips(Encode(f)[1..]);
      assert [FirstFrame(t)] + [] == [Frame(ep, [MARKER])];
    }
  }

  // ---- sizes ----

  /** The message being assembled never outgrows what the buffer can hold. */
  ghost predicate Room(rx: Rx, s: seq<Byte>)
    decreases |s|
  {
    s == [] || ((rx.Data? ==> |rx.body| < MSG_LIMIT) && Room(Step(rx, s[0]).0, s[1..]))
  }

  lemma {:induction false} RoomAppend(rx: Rx, a: seq<Byte>, b: seq<Byte>)
    ensures Room(rx, a + b) <==> Room(rx, a) && Room(Run(rx, a).0, b)
    decreases |a|
  {
    if a == [] {
      assert a + b == b;
    } else {
      assert (a + b)[1..] == a[1..] + b;
      RoomAppend(Step(rx, a[0]).0, a[1..], b);
    }
  }

  /** How many bytes of an unfinished frame the machine has taken in. */
  function Held(rx: Rx): nat {
    match rx
    case Marker => 0
    case Header(hdr) => 1 + |hdr|
    case Data(_, _, body) => 6 + |body|
  }

  /** Every byte delivered or held came in: frames cost at least the bytes they are sent as. */
  lemma {:induction false} RunAccounts(rx: Rx, s: seq<Byte>)
    ensures |EncodeAll(Run(rx, s).1)| + Held(Run(rx, s).0) <= Held(rx) + |s|
    decreases |s|
  {
    if s != [] {
      var (rx1, out1) := Step(rx, s[0]);
      RunAccounts(rx1, s[1..]);
      EncodeAllAppend(out1, Run(rx1, s[1..]).1);
      assert |EncodeAll(out1)| + Held(rx1) <= Held(rx) + 1 by {
        if out1 != [] {
          assert out1[1..] == [];
        }
      }
    }
  }

  lemma {:induction false} EncodeAllMember(fs: seq<Frame>, f: Frame)
    requires f in fs
    ensures |Encode(f)| <= |EncodeAll(fs)|
    decreases |fs|
  {
    if f != fs[0] {
      EncodeAllMember(fs[1..], f);
    }
  }

  /** No frame is found again in fewer bytes than it was sent as. */
  lemma NotInFewerBytes(f: Frame, s: seq<Byte>)
    requires |s| < |Encode(f)|
    ensures f !in Run(Marker, s).1
  {
    hide Run, Encode;
    RunAccounts(Marker, s);
    if f in Run(Marker, s).1 {
      EncodeAllMember(Run(Marker, s).1, f);
    }
  }

  /** A size field within the limit keeps the machine within its buffer. */
  lemma {:induction false} RoomHeader(hdr: seq<Byte>, s: seq<Byte>)
    requires |hdr| + |s| <= 5
    ensures Room(Header(hdr), s)
    decreases |s|
  {
    if s != [] && |hdr| < 4 {
      RoomHeader(hdr + [s[0]], s[1..]);
    }
  }

  lemma {:induction false} RoomData(size: nat, ep: Byte, body: seq<Byte>, s: seq<Byte>)
    requires |body| + |s| <= Wanted(size) && Wanted(size) <= MSG_LIMIT
    ensures Room(Data(size, ep, body), s)
    decreases |s|
  {
    if s != [] && |body| + 1 < Wanted(size) {
      RoomData(size, ep, body + [s[0]], s[1..]);
    }
  }

  lemma RoomEncoded(f: Frame)
    requires 0 < |f.payload| <= MSG_LIMIT
    ensures Room(Marker, Encode(f))
  {
    EncodedHead(f);
    var t := Encode(f);
    var head := t[1..6];
    assert t[1..] == head + t[6..];
    RunHeader([], head);
    assert [] + head == head && head[..4] == t[1..5];
    RoomHeader([], head);
    RoomData(|f.payload|, f.ep, [], t[6..]);
    RoomAppend(Header([]), head, t[6..]);
  }
}
