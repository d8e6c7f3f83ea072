/**
 * The UART echo master: the clocked state machine, and what the bus sees of it
 * under every acknowledge timing and all read data.
 */
module Uart {
  import opened Bytes

  type Word = x: int | 0 <= x < 0x1_0000_0000
  type Count = x: int | 0 <= x < 0x1_0000

  datatype FsmState =
    | InitIdle | InitLcr1 | InitDl1 | InitDl0 | InitLcr2
    | WaitAccDone | WaitRxAccDone
    | RxReadLsr1 | RxReadLsr2 | TxReadLsr1 | TxReadLsr2

  /** The bus request register. */
  datatype Req = Req(adr: Word, datW: Word, we: bool, cyc: bool, stb: bool, sel: nat)

  const NO_REQ: Req := Req(0, 0, false, false, false, 0)

  datatype Regs = Regs(state: FsmState, returnS: FsmState, data: Word, rxdata: Byte, req: Req, count: Count)

  /** What the slave drives in one cycle. */
  datatype Rsp = Rsp(ack: bool, datR: Word)

  /** Registers at reset; the request register has no reset value. */
  function AtReset(req: Req): Regs {
    Regs(InitIdle, InitLcr1, 0, 0, req, 0)
  }

  function Bit(w: Word, k: nat): bool
    requires k == 8 || k == 14
  {
    w / (if k == 8 then 256 else 16384) % 2 == 1
  }

  /** Bit 8 and bit 14 of a word. */
  lemma BitMeans(w: Word)
    ensures Bit(w, 8) <==> w % 512 >= 256
    ensures Bit(w, 14) <==> w % 32768 >= 16384
  {
    var q: int, r: int := w as int / 256, w as int % 256;
    SplitTwice(w, q, r, 256);
    q, r := w as int / 16384, w as int % 16384;
    SplitTwice(w, q, r, 16384);
  }

  lemma SplitTwice(w: int, q: int, r: int, unit: int)
    requires unit == 256 || unit == 16384
    requires 0 <= q && 0 <= r < unit && w == q * unit + r
    ensures w % (2 * unit) >= unit <==> q % 2 == 1
  {
    var h, b := q / 2, q % 2;
    assert q == 2 * h + b;
    if unit == 256 {
      assert w == 512 * h + (256 * b + r);
    } else {
      assert w == 32768 * h + (16384 * b + r);
    }
  }

  function Issue(r: Regs, adr: Word, datW: Word, we: bool, sel: nat, returnS: FsmState): Regs {
    r.(req := Req(adr, datW, we, true, true, sel), state := WaitAccDone, returnS := returnS)
  }

  /** The registers after one clock edge. */
  function Next(r: Regs, i: Rsp): Regs {
    match r.state
    case InitIdle => r.(req := NO_REQ, state := InitLcr1)
    case InitLcr1 => Issue(r, 3, 0x83000000, true, 8, InitDl1)
    case InitDl1 => Issue(r, 1, 0, true, 2, InitDl0)
    case InitDl0 => Issue(r, 0, 27, true, 1, InitLcr2)
    case InitLcr2 => Issue(r, 3, 0x03000000, true, 8, RxReadLsr1)
    case WaitAccDone => if i.ack then r.(req := NO_REQ, data := i.datR, state := r.returnS) else r
    case WaitRxAccDone => if i.ack then r.(req := NO_REQ, rxdata := i.datR % 256, state := r.returnS) else r
    case RxReadLsr1 => Issue(r, 5, 0, false, 2, RxReadLsr2)
    case RxReadLsr2 =>
      if Bit(r.data, 8) then Issue(r, 0, r.req.datW, false, 1, TxReadLsr1).(state := WaitRxAccDone)
      else r.(state := RxReadLsr1)
    case TxReadLsr1 => Issue(r, 5, r.req.datW, false, 2, TxReadLsr2)
    case TxReadLsr2 =>
      if Bit(r.data, 14)
      then Issue(r, 0, r.rxdata, true, 1, RxReadLsr1).(count := (r.count as int + 1) % 0x1_0000)
      else r.(state := TxReadLsr1)
  }

  /** The module's registers, updated in place at each clock. */
  class UartResponderMaster {
    var state: FsmState
    var returnS: FsmState
    var data: Word
    var rxdata: Byte
    var req: Req
    var count: Count

    /** All registers as one value. */
    function Snapshot(): Regs
      reads this
    {
      Regs(state, returnS, data, rxdata, req, count)
    }

    constructor (unreset: Req)
      ensures Snapshot() == AtReset(unreset)
    {
      state, returnS, data, rxdata, req, count := InitIdle, InitLcr1, 0, 0, unreset, 0;
    }

    method Drive(adr: Word, we: bool, sel: nat)
      modifies this`req
      ensures req == Req(adr, old(req.datW), we, true, true, sel)
    {
      req := req.(adr := adr, we := we, stb := true, cyc := true, sel := sel);
    }

    method Clock(ack: bool, datR: Word)
      modifies this
      ensures Snapshot() == Next(old(Snapshot()), Rsp(ack, datR))
    {
      match state {
        case InitIdle =>
          req := Req(0, 0, false, false, false, 0);
          state := InitLcr1;
        case InitLcr1 =>
          Drive(3, true, 8);
          req := req.(datW := 0x83000000);
          state, returnS := WaitAccDone, InitDl1;
        case InitDl1 =>
          Drive(1, true, 2);
          req := req.(datW := 0);
          state, returnS := WaitAccDone, InitDl0;
        case InitDl0 =>
          Drive(0, true, 1);
          req := req.(datW := 27);
          state, returnS := WaitAccDone, InitLcr2;
        case InitLcr2 =>
          Drive(3, true, 8);
          req := req.(datW := 0x03000000);
          state, returnS := WaitAccDone, RxReadLsr1;
        case WaitAccDone =>
          if ack {
            req := Req(0, 0, false, false, false, 0);
            data := datR;
            state := returnS;
          }
        case WaitRxAccDone =>
          if ack {
            req := Req(0, 0, false, false, false, 0);
            rxdata := datR % 256;
            state := returnS;
          }
        case RxReadLsr1 =>
          Drive(5, false, 2);
          req := req.(datW := 0);
          state, returnS := WaitAccDone, RxReadLsr2;
        case RxReadLsr2 =>
          if Bit(data, 8) {
            Drive(0, false, 1);
            state, returnS := WaitRxAccDone, TxReadLsr1;
          } else {
            state := RxReadLsr1;
          }
        case TxReadLsr1 =>
          Drive(5, false, 2);
          state, returnS := WaitAccDone, TxReadLsr2;
        case TxReadLsr2 =>
          if Bit(data, 14) {
            Drive(0, true, 1);
            req := req.(datW := rxdata);
            state, returnS := WaitAccDone, RxReadLsr1;
            count := (count as int + 1) % 0x1_0000;
          } else {
            state := TxReadLsr1;
          }
      }
    }
  }

  // ---- what the bus sees ----

  /** A completed access; `dat` is what was written or read. */
  datatype Access = Access(we: bool, adr: Word, sel: nat, dat: Word)

  /** An access completes in a cycle in which the strobe is up and the slave acknowledges. */
  function Completed(r: Regs, i: Rsp): seq<Access> {
    if r.req.stb && i.ack then [Access(r.req.we, r.req.adr, r.req.sel, if r.req.we then r.req.datW else i.datR)] else []
  }

  function RunClock(r: Regs, ins: seq<Rsp>): Regs
    decreases |ins|
  {
    if ins == [] then r else RunClock(Next(r, ins[0]), ins[1..])
  }

  function BusLog(r: Regs, ins: seq<Rsp>): seq<Access>
    decreases |ins|
  {
    if ins == [] then [] else Completed(r, ins[0]) + BusLog(Next(r, ins[0]), ins[1..])
  }

  /** The registers once the idle step has given the request register a value. */
  const STARTED: Regs := Regs(InitLcr1, InitLcr1, 0, 0, NO_REQ, 0)

  lemma IdleStep(req: Req, i: Rsp)
    ensures Next(AtReset(req), i) == STARTED
  {
  }

  /** The accesses of a run from reset, from the cycle after the idle step on. */
  function LogFromReset(req: Req, ins: seq<Rsp>): seq<Access>
    requires ins != []
  {
    BusLog(Next(AtReset(req), ins[0]), ins[1..])
  }

  /** Whatever the request register held at reset, the run is the one of a started machine. */
  lemma FromReset(req: Req, ins: seq<Rsp>)
    requires ins != []
    ensures RunClock(AtReset(req), ins) == RunClock(STARTED, ins[1..])
    ensures LogFromReset(req, ins) == BusLog(STARTED, ins[1..])
  {
    IdleStep(req, ins[0]);
  }

  // ---- the driver's protocol ----

  /** Where a driver of this UART is between two accesses. */
  datatype Phase = SetUp(k: nat) | PollRx | RxReady | PollTx(held: Byte) | TxReady(held: Byte)

  /** Line control with the divisor latch open, divisor high, divisor low, line control. */
  function SetUpAccess(k: nat): Access {
    if k == 0 then Access(true, 3, 8, 0x83000000)
    else if k == 1 then Access(true, 1, 2, 0)
    else if k == 2 then Access(true, 0, 1, 27)
    else Access(true, 3, 8, 0x03000000)
  }

  predicate IsStatusRead(a: Access) { !a.we && a.adr == 5 && a.sel == 2 }

  predicate IsRxRead(a: Access) { !a.we && a.adr == 0 && a.sel == 1 }

  predicate IsTxWrite(a: Access) { a.we && a.adr == 0 && a.sel == 1 }

  /** The only access allowed next, and the phase after it. */
  function Accept(p: Phase, a: Access): Option<Phase> {
    match p
    case SetUp(k) => if a == SetUpAccess(k) then Some(if k < 3 then SetUp(k + 1) else PollRx) else None
    case PollRx => if IsStatusRead(a) then Some(if Bit(a.dat, 8) then RxReady else PollRx) else None
    case RxReady => if IsRxRead(a) then Some(PollTx(a.dat % 256)) else None
    case PollTx(b) => if IsStatusRead(a) then Some(if Bit(a.dat, 14) then TxReady(b) else PollTx(b)) else None
    case TxReady(b) => if IsTxWrite(a) && a.dat == b then Some(PollRx) else None
  }

  function AcceptAll(p: Phase, log: seq<Access>): Option<Phase>
    decreases |log|
  {
    if log == [] then Some(p)
    else
      var q := Accept(p, log[0]);
      if q.None? then None else AcceptAll(q.value, log[1..])
  }

  // ---- the registers against the protocol ----

  predicate Waits(s: FsmState) { s == WaitAccDone || s == WaitRxAccDone }

  function Pending(a: Access): Req {
    Req(a.adr, a.dat, a.we, true, true, a.sel)
  }

  const STATUS_READ: Req := Req(5, 0, false, true, true, 2)
  const RX_READ: Req := Req(0, 0, false, true, true, 1)

  /** The registers of a machine whose driver is in phase `p`. */
  predicate Agrees(r: Regs, p: Phase) {
    && (!Waits(r.state) ==> r.req == NO_REQ)
    && match r.state
       case InitIdle => false
       case InitLcr1 => p == SetUp(0)
       case InitDl1 => p == SetUp(1)
       case InitDl0 => p == SetUp(2)
       case InitLcr2 => p == SetUp(3)
       case RxReadLsr1 => p == PollRx
       case RxReadLsr2 => p == if Bit(r.data, 8) then RxReady else PollRx
       case TxReadLsr1 => p == PollTx(r.rxdata)
       case TxReadLsr2 => p == if Bit(r.data, 14) then TxReady(r.rxdata) else PollTx(r.rxdata)
       case WaitRxAccDone => p == RxReady && r.req == RX_READ && r.returnS == TxReadLsr1
       case WaitAccDone =>
         match p
         case SetUp(k) =>
           k < 4 && r.req == Pending(SetUpAccess(k)) && r.returnS == [InitDl1, InitDl0, InitLcr2, RxReadLsr1][k]
         case PollRx => r.req == STATUS_READ && r.returnS == RxReadLsr2
         case RxReady => false
         case PollTx(b) => r.req == STATUS_READ && r.returnS == TxReadLsr2 && b == r.rxdata
         case TxReady(b) => r.req == Pending(Access(true, 0, 1, b)) && r.returnS == RxReadLsr1 && b == r.rxdata
  }

  lemma ClockAgrees(r: Regs, i: Rsp, p: Phase) returns (q: Phase)
    requires Agrees(r, p)
    ensures Agrees(Next(r, i), q) && AcceptAll(p, Completed(r, i)) == Some(q)
  {
    if r.req.stb && i.ack {
      var a := Completed(r, i)[0];
      q := Accept(p, a).value;
      assert [a][1..] == [];
    } else {
      q := p;
    }
  }

  lemma {:induction false} AcceptAppend(p: Phase, a: seq<Access>, b: seq<Access>)
    ensures AcceptAll(p, a + b)
         == if AcceptAll(p, a).None? then None else AcceptAll(AcceptAll(p, a).value, b)
    decreases |a|
  {
    if a == [] {
      assert a + b == b;
    } else {
      assert (a + b)[0] == a[0] && (a + b)[1..] == a[1..] + b;
      if Accept(p, a[0]).Some? {
        AcceptAppend(Accept(p, a[0]).value, a[1..], b);
      }
    }
  }

  /** Whatever the slave does, the accesses follow the protocol, and the registers with them. */
  lemma {:induction false} ProtocolKept(r: Regs, ins: seq<Rsp>, p: Phase)
    requires Agrees(r, p)
    ensures AcceptAll(p, BusLog(r, ins)).Some?
    ensures Agrees(RunClock(r, ins), AcceptAll(p, BusLog(r, ins)).value)
    decreases |ins|
  {
    if ins != [] {
      var q := ClockAgrees(r, ins[0], p);
      ProtocolKept(Next(r, ins[0]), ins[1..], q);
      AcceptAppend(p, Completed(r, ins[0]), BusLog(Next(r, ins[0]), ins[1..]));
    }
  }

  /** Every run from reset follows the driver's protocol. */
  lemma BusFollowsProtocol(req: Req, ins: seq<Rsp>)
    requires ins != []
    ensures AcceptAll(SetUp(0), LogFromReset(req, ins)).Some?
    ensures Agrees(RunClock(AtReset(req), ins), AcceptAll(SetUp(0), LogFromReset(req, ins)).value)
  {
    FromReset(req, ins);
    ProtocolKept(STARTED, ins[1..], SetUp(0));
  }

  // ---- handshake ----

  /**
   * After the idle step: strobe and cycle are up exactly in the two wait states;
   * a request is held unchanged until its acknowledge and is down in the next cycle.
   */
  lemma Handshake(req: Req, ins: seq<Rsp>, i: Rsp)
    requires ins != []
    ensures var r, t := RunClock(AtReset(req), ins), Next(RunClock(AtReset(req), ins), i);
            && r.req.stb == r.req.cyc == Waits(r.state)
            && (r.req.stb && !i.ack ==> t == r)
            && (r.req.stb && i.ack ==> t.req == NO_REQ && !Waits(t.state))
            && (!r.req.stb ==> r.req == NO_REQ)
  {
    BusFollowsProtocol(req, ins);
  }

  /** The machine never stalls: of any three cycles in which the slave acknowledges, one completes an access. */
  lemma AccessInThreeCycles(req: Req, ins: seq<Rsp>, i: Rsp, j: Rsp, k: Rsp)
    requires ins != [] && i.ack && j.ack && k.ack
    ensures BusLog(RunClock(AtReset(req), ins), [i, j, k]) != []
  {
    BusFollowsProtocol(req, ins);
    var r := RunClock(AtReset(req), ins);
    var r1 := Next(r, i);
    var r2 := Next(r1, j);
    assert [i, j, k][1..] == [j, k] && [j, k][1..] == [k] && [k][1..] == [];
    assert BusLog(r, [i, j, k]) == Completed(r, i) + (Completed(r1, j) + BusLog(r2, [k]));
    assert BusLog(r2, [k]) == Completed(r2, k) + BusLog(Next(r2, k), []);
  }

  // ---- consequences for the accesses ----

  /** The four set-up writes come first, in order, and once. */
  lemma SetUpFirst(req: Req, ins: seq<Rsp>, k: nat)
    requires ins != [] && k < |LogFromReset(req, ins)|
    ensures var a := LogFromReset(req, ins)[k];
            && (k == 0 ==> a == Access(true, 3, 8, 0x83000000))
            && (k == 1 ==> a == Access(true, 1, 2, 0))
            && (k == 2 ==> a == Access(true, 0, 1, 27))
            && (k == 3 ==> a == Access(true, 3, 8, 0x03000000))
            && (k >= 4 && a.we ==> a.adr == 0 && a.sel == 1)
  {
    BusFollowsProtocol(req, ins);
    var q := AcceptedAt(SetUp(0), LogFromReset(req, ins), k);
  }

  /** After `k` accesses the driver is past the set-up or in its step `k`. */
  lemma {:induction false} AcceptedAt(p: Phase, log: seq<Access>, k: nat) returns (q: Phase)
    requires AcceptAll(p, log).Some? && k < |log| && (p.SetUp? ==> p.k < 4)
    ensures AcceptAll(p, log[..k]) == Some(q) && Accept(q, log[k]).Some?
    ensures p.SetUp? ==> q == (if p.k + k < 4 then SetUp(p.k + k) else q) && (p.k + k >= 4 ==> !q.SetUp?)
    ensures !p.SetUp? ==> !q.SetUp?
    decreases |log|
  {
    if k == 0 {
      q := p;
    } else {
      assert log[..k][1..] == log[1..][..k - 1];
      q := AcceptedAt(Accept(p, log[0]).value, log[1..], k - 1);
    }
  }

  /**
   * After set-up a receive read directly follows a status read with data ready, and
   * a transmit write one with room to send.
   */
  lemma ReadyBeforeAccess(req: Req, ins: seq<Rsp>, k: nat)
    requires ins != [] && 4 <= k < |LogFromReset(req, ins)|
    ensures var a, b := LogFromReset(req, ins)[k], LogFromReset(req, ins)[k - 1];
            && (a.adr == 5 || a.adr == 0) && a.sel == (if a.adr == 5 then 2 else 1) && (a.adr == 5 ==> !a.we)
            && (a.adr == 0 && !a.we ==> k > 4 && b.adr == 5 && b.dat % 512 >= 256)
            && (a.adr == 0 && a.we ==> k > 4 && b.adr == 5 && b.dat % 32768 >= 16384)
  {
    var log := LogFromReset(req, ins);
    BitMeans(log[k - 1].dat);
    BusFollowsProtocol(req, ins);
    var q := AcceptedAt(SetUp(0), log, k);
    var before := AcceptedAt(SetUp(0), log, k - 1);
    assert log[..k] == log[..k - 1] + [log[k - 1]];
    AcceptAppend(SetUp(0), log[..k - 1], [log[k - 1]]);
    assert [log[k - 1]][1..] == [];
    assert Accept(before, log[k - 1]) == Some(q);
  }

  // ---- echo ----

  function RxOf(a: Access): seq<Byte> {
    if IsRxRead(a) then [a.dat % 256] else []
  }

  function TxOf(a: Access): seq<Word> {
    if IsTxWrite(a) then [a.dat] else []
  }

  /** The bytes taken from the receive register. */
  function RxBytes(log: seq<Access>): seq<Byte> {
    if log == [] then [] else RxOf(log[0]) + RxBytes(log[1..])
  }

  /** The words written to the transmit register. */
  function TxWords(log: seq<Access>): seq<Word> {
    if log == [] then [] else TxOf(log[0]) + TxWords(log[1..])
  }

  /** The byte received and not yet sent. */
  function Held(p: Phase): seq<Byte> {
    if p.PollTx? || p.TxReady? then [p.held] else []
  }

  lemma {:induction false} AcceptedEcho(p: Phase, log: seq<Access>)
    requires !p.SetUp? && AcceptAll(p, log).Some?
    ensures Held(p) + RxBytes(log) == TxWords(log) + Held(AcceptAll(p, log).value)
    decreases |log|
  {
    if log == [] {
      assert Held(p) + [] == [] + Held(p);
    } else {
      var q := Accept(p, log[0]).value;
      AcceptedEcho(q, log[1..]);
      EchoStep(p, log[0]);
      Regroup(Held(p), RxOf(log[0]), RxBytes(log[1..]));
      Regroup(TxOf(log[0]), Held(q), RxBytes(log[1..]));
      Regroup(TxOf(log[0]), TxWords(log[1..]), Held(AcceptAll(q, log[1..]).value));
    }
  }

  lemma EchoStep(p: Phase, a: Access)
    requires !p.SetUp? && Accept(p, a).Some?
    ensures !Accept(p, a).value.SetUp?
    ensures Held(p) + RxOf(a) == TxOf(a) + Held(Accept(p, a).value)
  {
  }

  /** Past the set-up, the words written to transmit are the bytes received, in order, short by the one held at most. */
  lemma ExactEcho(req: Req, ins: seq<Rsp>) returns (held: seq<Byte>)
    requires ins != [] && |LogFromReset(req, ins)| >= 4
    ensures var log := LogFromReset(req, ins)[4..];
            RxBytes(log) == TxWords(log) + held && |held| <= 1
    ensures held != [] ==> held == [RunClock(AtReset(req), ins).rxdata]
  {
    var log := LogFromReset(req, ins);
    BusFollowsProtocol(req, ins);
    assert log == log[..4] + log[4..];
    AcceptAppend(SetUp(0), log[..4], log[4..]);
    PastSetUp(log);
    AcceptedEcho(PollRx, log[4..]);
    held := Held(AcceptAll(PollRx, log[4..]).value);
    assert [] + RxBytes(log[4..]) == RxBytes(log[4..]);
  }

  lemma PastSetUp(log: seq<Access>)
    requires AcceptAll(SetUp(0), log).Some? && |log| >= 4
    ensures AcceptAll(SetUp(0), log[..4]) == Some(PollRx)
  {
    var q := AcceptedAt(SetUp(0), log, 3);
    assert log[..4] == log[..3] + [log[3]] && [log[3]][1..] == [];
    AcceptAppend(SetUp(0), log[..3], [log[3]]);
  }

  // ---- counter ----

  /** An echo write that is on the bus and not yet acknowledged. */
  function Outstanding(r: Regs): nat {
    if r.state == WaitAccDone && r.returnS == RxReadLsr1 && r.req.we && r.req.adr == 0 then 1 else 0
  }

  /** Echo writes among the accesses; the set-up write of the divisor goes to the same register. */
  function Echoes(p: Phase, log: seq<Access>): nat
    decreases |log|
  {
    if log == [] || Accept(p, log[0]).None? then 0
    else (if p.TxReady? then 1 else 0) + Echoes(Accept(p, log[0]).value, log[1..])
  }

  lemma {:induction false} CounterCounts(r: Regs, ins: seq<Rsp>, p: Phase, n: nat)
    requires Agrees(r, p) && r.count == (n + Outstanding(r)) % 0x1_0000
    ensures var t := RunClock(r, ins);
            t.count == (n + Echoes(p, BusLog(r, ins)) + Outstanding(t)) % 0x1_0000
    decreases |ins|
  {
    if ins != [] {
      var q := ClockAgrees(r, ins[0], p);
      var r1 := Next(r, ins[0]);
      var k := CountStep(r, ins[0], p, q, n, BusLog(r1, ins[1..]));
      CounterCounts(r1, ins[1..], q, n + k);
    }
  }

  /** One clock counts an echo write when it is issued, and the log shows it when it completes. */
  lemma CountStep(r: Regs, i: Rsp, p: Phase, q: Phase, n: nat, rest: seq<Access>) returns (k: nat)
    requires Agrees(r, p) && r.count == (n + Outstanding(r)) % 0x1_0000
    requires AcceptAll(p, Completed(r, i)) == Some(q)
    ensures Next(r, i).count == (n + k + Outstanding(Next(r, i))) % 0x1_0000
    ensures Echoes(p, Completed(r, i) + rest) == k + Echoes(q, rest)
  {
    hide Accept, Echoes;
    var done := Completed(r, i);
    k := if done != [] && p.TxReady? then 1 else 0;
    EchoesStep(p, done, q, rest);
    assert (n + Outstanding(r)) % 0x1_0000 == r.count;
  }

  lemma EchoesStep(p: Phase, done: seq<Access>, q: Phase, rest: seq<Access>)
    requires |done| <= 1 && AcceptAll(p, done) == Some(q)
    ensures Echoes(p, done + rest) == (if done != [] && p.TxReady? then 1 else 0) + Echoes(q, rest)
  {
    if done == [] {
      assert done + rest == rest;
    } else {
      assert done[1..] == [] && (done + rest)[1..] == rest;
    }
  }

  lemma {:induction false} EchoesAreTxWrites(p: Phase, log: seq<Access>)
    requires AcceptAll(p, log).Some? && (p.SetUp? ==> p.k < 4)
    ensures var skip := if p.SetUp? then 4 - p.k else 0;
            Echoes(p, log) == if |log| < skip then 0 else |TxWords(log[skip..])|
    decreases |log|
  {
    if log != [] {
      var q := Accept(p, log[0]).value;
      EchoesAreTxWrites(q, log[1..]);
      var skip := if p.SetUp? then 4 - p.k else 0;
      if skip > 0 && |log| >= skip {
        assert log[skip..] == log[1..][skip - 1..];
      } else if skip == 0 {
        assert log[0..] == log && log[1..][0..] == log[1..];
      }
    }
  }

  /** The counter is the number of echo writes issued, modulo 2 to the 16: those completed and the one on the bus. */
  lemma CountsEchoes(req: Req, ins: seq<Rsp>)
    requires ins != []
    ensures var t, log := RunClock(AtReset(req), ins), LogFromReset(req, ins);
            t.count == ((if |log| < 4 then 0 else |TxWords(log[4..])|) + Outstanding(t)) % 0x1_0000
  {
    FromReset(req, ins);
    CounterCounts(STARTED, ins[1..], SetUp(0), 0);
    BusFollowsProtocol(req, ins);
    EchoesAreTxWrites(SetUp(0), LogFromReset(req, ins));
  }
}
