/** Requests on endpoint 0: their bytes, how the server reads them, and how a file is cut into them. */
module Protocol {
  import opened Bytes
  import opened Message

  const MSG_PROGRAM: Byte := 1
  const MSG_SHUTDOWN: Byte := 2
  const MSG_DISCONNECT: Byte := 3
  const MSG_CONFIG_SIDEBAND: Byte := 4
  const MSG_PING: Byte := 5

  /** The client sends a file in pieces of this many bytes. */
  const BLOCK: nat := 256 * 1024

  function ProgramRequest(total: nat, last: bool, chunk: seq<Byte>): seq<Byte> {
    [MSG_PROGRAM] + Le32(total) + [if last then 1 else 0] + Le32(|chunk|) + chunk
  }

  /** The request as the server takes it apart; `data` is `None` when the message holds fewer bytes than it says. */
  datatype ProgramMsg = ProgramMsg(total: nat, last: bool, size: nat, data: Option<seq<Byte>>)

  /** A request's type, read from its first byte. */
  function TypeOf(p: seq<Byte>): Byte {
    ReadU8(p, 0).0
  }

  /** What a sideband configuration asks for. */
  function ConfigArgument(p: seq<Byte>): Byte {
    ReadU8(p, ReadU8(p, 0).1).0
  }

  /** Where the fields after the type start, and the cursor before the data. */
  function ParseHeader(p: seq<Byte>): (nat, bool, nat, nat) {
    var (_, a) := ReadU8(p, 0);
    var (total, b) := ReadU32(p, a);
    var (last, c) := ReadU8(p, b);
    var (size, d) := ReadU32(p, c);
    (total, last != 0, size, d)
  }

  function ParseProgram(p: seq<Byte>): ProgramMsg {
    var (total, last, size, at) := ParseHeader(p);
    ProgramMsg(total, last, size, ReadBlob(p, at, size).0)
  }

  /** The server takes apart exactly what the client put together. */
  lemma ParseProgramRequest(total: nat, last: bool, chunk: seq<Byte>)
    requires total < U32 && |chunk| < U32
    ensures TypeOf(ProgramRequest(total, last, chunk)) == MSG_PROGRAM
    ensures ParseHeader(ProgramRequest(total, last, chunk)) == (total, last, |chunk|, 10)
    ensures ParseProgram(ProgramRequest(total, last, chunk)) == ProgramMsg(total, last, |chunk|, Some(chunk))
  {
    var p := ProgramRequest(total, last, chunk);
    assert p[1..5] == Le32(total) && p[6..10] == Le32(|chunk|) && p[10..10 + |chunk|] == chunk;
    Le32RoundTrip(total);
    Le32RoundTrip(|chunk|);
  }

  /** The bytes of a request: type 1, total and size in four bytes each from the lowest on, the last flag, the data. */
  lemma ProgramOnTheWire(t: nat, last: bool, chunk: seq<Byte>)
    ensures var n := |chunk|;
            ProgramRequest(t, last, chunk) ==
            [1, t % 256, t / 256 % 256, t / 65536 % 256, t / 16777216 % 256, if last then 1 else 0,
             n % 256, n / 256 % 256, n / 65536 % 256, n / 16777216 % 256] + chunk
  {
  }

  // ---- cutting a file ----

  /** How far a file has been sent after one more request. */
  function Advance(file: seq<Byte>, sent: nat): (n: nat)
    requires sent <= |file|
    ensures sent <= n <= |file|
    ensures n == sent ==> sent == |file|
  {
    sent + Min(BLOCK, |file| - sent)
  }

  /** The request that follows when `sent` bytes have been sent. */
  function NextRequest(file: seq<Byte>, sent: nat): seq<Byte>
    requires sent <= |file|
  {
    var n := Advance(file, sent);
    ProgramRequest(|file|, n >= |file|, file[sent..n])
  }

  /** The data of the requests still to come; a file that is all sent needs none, an empty one needs one. */
  function Slices(file: seq<Byte>, sent: nat): seq<seq<Byte>>
    requires sent <= |file|
    decreases |file| - sent
  {
    var n := Advance(file, sent);
    [file[sent..n]] + if n < |file| then Slices(file, n) else []
  }

  /** The requests of one `program` call from position `sent` on. */
  function Requests(file: seq<Byte>, sent: nat): seq<seq<Byte>>
    requires sent <= |file|
    decreases |file| - sent
  {
    [NextRequest(file, sent)] + if Advance(file, sent) < |file| then Requests(file, Advance(file, sent)) else []
  }

  /** The slices are the file, each but the last is 256 KiB, and only the last request says it is the last. */
  lemma {:induction false} SlicesAreFile(file: seq<Byte>, sent: nat)
    requires sent <= |file|
    ensures Concat(Slices(file, sent)) == file[sent..]
    ensures |Slices(file, sent)| == |Requests(file, sent)| > 0
    ensures forall i :: 0 <= i < |Slices(file, sent)| ==>
              && |Slices(file, sent)[i]| <= 262144
              && (i < |Slices(file, sent)| - 1 ==> |Slices(file, sent)[i]| == 262144)
              && Requests(file, sent)[i]
              == ProgramRequest(|file|, i == |Slices(file, sent)| - 1, Slices(file, sent)[i])
    decreases |file| - sent
  {
    var n := Advance(file, sent);
    if n < |file| {
      SlicesAreFile(file, n);
      assert file[sent..] == file[sent..n] + file[n..];
    } else {
      assert Slices(file, sent)[1..] == [];
      assert file[sent..n] + [] == file[sent..];
    }
  }
}
