/**
 * The text form of binary data: lines of at most 45 bytes, three bytes to four
 * symbols packed low byte first, with an optional escaped form for quoting.
 */
module UUCodec {
  import opened Bytes

  const LINE_BYTES: nat := 45
  const QUOTE: Byte := 34
  const BACKSLASH: Byte := 92
  const NEWLINE: Byte := 10
  const LETTER_N: Byte := 110

  /** A base-64 digit. */
  type Digit = d: int | 0 <= d < 64

  // ---- bitwise or on naturals ----

  function Or(a: nat, b: nat): nat
    decreases a + b
  {
    if a == 0 then b
    else if b == 0 then a
    else 2 * Or(a / 2, b / 2) + if a % 2 == 1 || b % 2 == 1 then 1 else 0
  }

  function Pow2(k: nat): (p: nat)
    ensures p > 0
  {
    if k == 0 then 1 else 2 * Pow2(k - 1)
  }

  /** Values whose bits do not overlap are simply added. */
  lemma {:induction false} OrDisjoint(a: nat, b: nat, k: nat)
    requires a < Pow2(k)
    ensures Or(a, b * Pow2(k)) == a + b * Pow2(k)
    decreases k
  {
    if k > 0 && a > 0 && b > 0 {
      var p := Pow2(k - 1);
      assert b * Pow2(k) == 2 * (b * p);
      OrDisjoint(a / 2, b, k - 1);
      assert b * p > 0;
    }
  }

  // ---- encoding ----

  /** The 24-bit value of up to three bytes. */
  function Pack(s: seq<Byte>): (td: nat)
    requires 0 < |s| <= 3
    ensures td < 0x100_0000
  {
    var b0: int, b1: int, b2: int := s[0], if |s| > 1 then s[1] else 0, if |s| > 2 then s[2] else 0;
    b0 + 256 * b1 + 65536 * b2
  }

  /** `td >> 6 * j`. */
  function ShiftDown(td: nat, j: nat): nat {
    if j == 0 then td else ShiftDown(td / 64, j - 1)
  }

  function DigitOf(td: nat, j: nat): Digit {
    ShiftDown(td, j) % 64
  }

  function Digits(td: nat): (ds: seq<Digit>)
    ensures |ds| == 4
  {
    seq(4, j requires 0 <= j < 4 => DigitOf(td, j))
  }

  /** The base-64 digits of a whole line. */
  function LineDigits(s: seq<Byte>): seq<Digit> {
    if s == [] then []
    else Digits(Pack(s[..Min(3, |s|)])) + LineDigits(s[Min(3, |s|)..])
  }

  /** Every byte is one a digit can turn into. */
  predicate Printable(q: seq<Byte>) {
    forall i :: 0 <= i < |q| ==> 32 <= q[i] <= 95
  }

  function Symbol(d: Digit, escape: bool): (q: seq<Byte>)
    ensures 1 <= |q| <= 2 && (!escape ==> |q| == 1) && Printable(q)
  {
    var c: Byte := d + 32;
    if escape && (c == QUOTE || c == BACKSLASH) then [BACKSLASH, c] else [c]
  }

  function Symbols(ds: seq<Digit>, escape: bool): (q: seq<Byte>)
    ensures |ds| <= |q| <= 2 * |ds| && (!escape ==> |q| == |ds|) && Printable(q)
  {
    if ds == [] then [] else Symbol(ds[0], escape) + Symbols(ds[1..], escape)
  }

  function Terminator(escape: bool): seq<Byte> {
    if escape then [BACKSLASH, LETTER_N] else [NEWLINE]
  }

  function Line(s: seq<Byte>, escape: bool): seq<Byte>
    requires |s| <= LINE_BYTES
  {
    [|s| + 32] + Symbols(LineDigits(s), escape) + Terminator(escape)
  }

  /** The bytes of the first line of `s`. */
  function Head(s: seq<Byte>): (h: seq<Byte>)
    ensures |h| <= LINE_BYTES && |h| <= |s| && (s != [] ==> h != [])
    ensures h + s[|h|..] == s
  {
    s[..Min(LINE_BYTES, |s|)]
  }

  function Encode(s: seq<Byte>, escape: bool): seq<Byte> {
    if s == [] then [] else Line(Head(s), escape) + Encode(s[|Head(s)|..], escape)
  }

  // ---- decoding, defined on every input ----

  /** A `char` taken as a signed 32-bit value, seen as unsigned. */
  function Widen(v: Byte): nat {
    if v < 128 then v else v + (U32 - 256)
  }

  function Or4(a: nat, b: nat, c: nat, d: nat): nat {
    Or(Or(Or(a, b), c), d)
  }

  function Combine(t: seq<Byte>): (v: nat)
    requires |t| == 4
  {
    Or4(Widen(t[0]), Widen(t[1]) * 64 % U32, Widen(t[2]) * 4096 % U32, Widen(t[3]) * 262144 % U32)
  }

  function Unpack(v: nat): (s: seq<Byte>)
    ensures |s| == 3
  {
    [v % 256, v / 256 % 256, v / 65536 % 256]
  }

  predicate AtTerminator(t: seq<Byte>, escaped: bool) {
    if escaped then |t| >= 2 && t[0] == BACKSLASH && t[1] == LETTER_N else |t| >= 1 && t[0] == NEWLINE
  }

  /** Where the first terminator starts, or the end of the text. */
  function FindTerminator(t: seq<Byte>, escaped: bool): (end: nat)
    ensures end <= |t|
  {
    if t == [] || AtTerminator(t, escaped) then 0 else 1 + FindTerminator(t[1..], escaped)
  }

  /** What a character stands for: a digit, or at the head of a line the number of bytes that follow. */
  function Value(c: Byte): Byte {
    (c as int + 224) % 256
  }

  /**
   * One symbol of what is left of a line and the text after it: 0 when nothing is
   * left. `beyond` is the character after the line; `None` is the throw of `at`.
   */
  function Take(u: seq<Byte>, beyond: Option<Byte>, escaped: bool): (r: Option<(Byte, seq<Byte>)>)
    ensures r.Some? ==> |r.value.1| <= |u|
  {
    if u == [] then Some((0, []))
    else if escaped && u[0] == BACKSLASH then
      if |u| >= 2 then Some((Value(u[1]), u[2..]))
      else if beyond.Some? then Some((Value(beyond.value), []))
      else None
    else Some((Value(u[0]), u[1..]))
  }

  /** The next `n` symbols. */
  function Fetch(u: seq<Byte>, n: nat, beyond: Option<Byte>, escaped: bool): (r: Option<seq<Byte>>)
    ensures r.Some? ==> |r.value| == n
    decreases n
  {
    if n == 0 then Some([])
    else
      var a := Take(u, beyond, escaped);
      if a.None? then None else Prepend([a.value.0], Fetch(a.value.1, n - 1, beyond, escaped))
  }

  function Prepend(a: seq<Byte>, r: Option<seq<Byte>>): Option<seq<Byte>> {
    if r.None? then None else Some(a + r.value)
  }

  /** Four symbols for each started group of three bytes. */
  function SymbolCount(len: nat): nat {
    4 * ((len + 2) / 3)
  }

  /** The first `len` bytes of the groups of four symbols in `v`. */
  function Assemble(v: seq<Byte>, len: nat): (s: seq<Byte>)
    requires |v| == SymbolCount(len)
    ensures |s| == len
    decreases len
  {
    if len == 0 then []
    else Unpack(Combine(v[..4]))[..Min(3, len)] + Assemble(v[4..], len - Min(3, len))
  }

  function DecodeLine(u: seq<Byte>, beyond: Option<Byte>, escaped: bool, len: nat): (r: Option<seq<Byte>>)
    ensures r.Some? ==> |r.value| == len
  {
    var v := Fetch(u, SymbolCount(len), beyond, escaped);
    if v.None? then None else Some(Assemble(v.value, len))
  }

  /** The text after the line that starts at `d[0]`. */
  function NextLine(d: seq<Byte>, escaped: bool): (n: seq<Byte>)
    requires d != []
    ensures |n| < |d|
    ensures n == d[|d| - |n|..]
  {
    var t := d[1..];
    t[Min(FindTerminator(t, escaped) + |Terminator(escaped)|, |t|)..]
  }

  function FirstLine(d: seq<Byte>, escaped: bool): (r: Option<seq<Byte>>)
    requires d != []
    ensures r.Some? ==> |r.value| == Value(d[0])
  {
    var t := d[1..];
    var end := FindTerminator(t, escaped);
    DecodeLine(t[..end], CharAt(t, end), escaped, Value(d[0]))
  }

  function CharAt(t: seq<Byte>, i: nat): Option<Byte> {
    if i < |t| then Some(t[i]) else None
  }

  /** The decoded bytes, or `None` when the source throws `out_of_range`. */
  function Decode(d: seq<Byte>, escaped: bool): Option<seq<Byte>>
    decreases |d|
  {
    if d == [] then Some([])
    else
      var line := FirstLine(d, escaped);
      if line.None? then None else Prepend(line.value, Decode(NextLine(d, escaped), escaped))
  }

  /** What the length characters of all lines announce together. */
  function TotalAnnounced(d: seq<Byte>, escaped: bool): nat
    decreases |d|
  {
    if d == [] then 0 else Value(d[0]) + TotalAnnounced(NextLine(d, escaped), escaped)
  }

  // ---- digits ----

  /** Four digits recombine to the value they were taken from. */
  lemma CombineDigits(td: nat)
    requires td < 0x100_0000
    ensures Combine(Digits(td)) == td
  {
    var d0, d1, d2, d3 := DigitOf(td, 0), DigitOf(td, 1), DigitOf(td, 2), DigitOf(td, 3);
    DigitSum(td);
    assert Digits(td) == [d0, d1, d2, d3];
    CombineSum(d0, d1, d2, d3);
  }

  lemma DigitSum(td: nat)
    requires td < 0x100_0000
    ensures td == DigitOf(td, 0) as int + 64 * (DigitOf(td, 1) as int)
               + 4096 * (DigitOf(td, 2) as int) + 262144 * (DigitOf(td, 3) as int)
  {
    var q1 := td / 64;
    var q2 := q1 / 64;
    var q3 := q2 / 64;
    Shifted(td, 0);
    Shifted(td, 1);
    Shifted(q1, 0);
    Shifted(td, 2);
    Shifted(q1, 1);
    Shifted(q2, 0);
  }

  lemma Shifted(td: nat, j: nat)
    ensures ShiftDown(td, j + 1) == ShiftDown(td / 64, j) && ShiftDown(td, 0) == td
  {
  }

  lemma CombineSum(d0: Digit, d1: Digit, d2: Digit, d3: Digit)
    ensures Combine([d0, d1, d2, d3]) == d0 as int + 64 * (d1 as int) + 4096 * (d2 as int) + 262144 * (d3 as int)
  {
    hide Or4;
    var a: nat, b: nat, c: nat, d: nat := d0, d1 as int * 64, d2 as int * 4096, d3 as int * 262144;
    assert Combine([d0, d1, d2, d3]) == Or4(a, b, c, d);
    Or4Sum(d0, d1, d2, d3);
  }

  lemma Or4Sum(d0: Digit, d1: Digit, d2: Digit, d3: Digit)
    ensures Or4(d0, d1 as int * 64, d2 as int * 4096, d3 as int * 262144)
         == d0 as int + 64 * (d1 as int) + 4096 * (d2 as int) + 262144 * (d3 as int)
  {
    hide Or;
    var a: nat, b: nat, c: nat, d: nat := d0, d1 as int * 64, d2 as int * 4096, d3 as int * 262144;
    OrShifted(a, d1, 6, b);
    OrShifted(a + b, d2, 12, c);
    OrShifted(a + b + c, d3, 18, d);
  }

  lemma OrShifted(a: nat, x: Digit, k: nat, b: nat)
    requires (k == 6 && a < 64 && b == x as int * 64)
          || (k == 12 && a < 4096 && b == x as int * 4096)
          || (k == 18 && a < 262144 && b == x as int * 262144)
    ensures Or(a, b) == a + b
  {
    Powers();
    OrDisjoint(a, x, k);
  }

  lemma Powers()
    ensures Pow2(6) == 64 && Pow2(8) == 256 && Pow2(12) == 4096 && Pow2(16) == 65536 && Pow2(18) == 262144
  {
    assert Pow2(4) == 16 && Pow2(8) == 256;
    assert Pow2(14) == 16384;
  }

  function Zeros(n: nat): (z: seq<Byte>)
    ensures |z| == n
  {
    seq(n, _ => 0)
  }

  /** A group gives back its bytes, and zeros for those it lacks. */
  lemma UnpackPack(s: seq<Byte>)
    requires 0 < |s| <= 3
    ensures Unpack(Pack(s)) == s + Zeros(3 - |s|)
    ensures Unpack(Pack(s))[..|s|] == s
  {
    var b0: int, b1: int, b2: int := s[0], if |s| > 1 then s[1] else 0, if |s| > 2 then s[2] else 0;
    var v := Pack(s);
    assert v / 256 == b1 + 256 * b2 && v / 65536 == b2;
    assert Unpack(v) == [b0 as Byte, b1 as Byte, b2 as Byte];
  }

  // ---- round trip ----

  lemma TakeSymbol(d: Digit, rest: seq<Byte>, beyond: Option<Byte>, escape: bool)
    ensures Take(Symbol(d, escape) + rest, beyond, escape) == Some((d, rest))
  {
    var q := Symbol(d, escape);
    var u := q + rest;
    assert u[0] == q[0] && (|q| == 2 ==> u[1] == q[1]) && u[|q|..] == rest;
  }

  /** Reading as many symbols as were written gives back the digits, one escape pair each. */
  lemma {:induction false} FetchSymbols(ds: seq<Digit>, beyond: Option<Byte>, escape: bool)
    ensures Fetch(Symbols(ds, escape), |ds|, beyond, escape) == Some(ds)
    decreases |ds|
  {
    if ds != [] {
      hide Symbol, Take;
      TakeSymbol(ds[0], Symbols(ds[1..], escape), beyond, escape);
      FetchSymbols(ds[1..], beyond, escape);
      assert [ds[0]] + ds[1..] == ds;
    }
  }

  lemma {:induction false} LineDigitsSize(s: seq<Byte>)
    ensures |LineDigits(s)| == SymbolCount(|s|)
    decreases |s|
  {
    if s != [] {
      var k := Min(3, |s|);
      LineDigitsSize(s[k..]);
      assert SymbolCount(|s|) == 4 + SymbolCount(|s| - k);
    }
  }

  lemma {:induction false} AssembleDigits(s: seq<Byte>)
    ensures |LineDigits(s)| == SymbolCount(|s|)
    ensures Assemble(LineDigits(s), |s|) == s
    decreases |s|
  {
    hide Digits, Pack, Unpack, Combine;
    LineDigitsSize(s);
    if s != [] {
      var k := Min(3, |s|);
      var ds := Digits(Pack(s[..k]));
      assert LineDigits(s)[..4] == ds && LineDigits(s)[4..] == LineDigits(s[k..]);
      CombineDigits(Pack(s[..k]));
      UnpackPack(s[..k]);
      AssembleDigits(s[k..]);
    }
  }

  lemma DecodeLineSymbols(s: seq<Byte>, beyond: Option<Byte>, escape: bool)
    ensures DecodeLine(Symbols(LineDigits(s), escape), beyond, escape, |s|) == Some(s)
  {
    FetchSymbols(LineDigits(s), beyond, escape);
    AssembleDigits(s);
  }

  /** No symbol, escaped or not, can be taken for a terminator or complete one. */
  lemma {:induction false} TerminatorIsFirst(q: seq<Byte>, more: seq<Byte>, escape: bool)
    requires Printable(q)
    ensures FindTerminator(q + Terminator(escape) + more, escape) == |q|
    decreases |q|
  {
    var t := q + Terminator(escape) + more;
    if q == [] {
      assert t[0] == Terminator(escape)[0] && (escape ==> t[1] == LETTER_N);
    } else {
      assert t[0] == q[0] && (|q| > 1 ==> t[1] == q[1]);
      assert |q| == 1 ==> t[1] == Terminator(escape)[0];
      assert t[1..] == q[1..] + Terminator(escape) + more;
      TerminatorIsFirst(q[1..], more, escape);
    }
  }

  lemma LineShape(s: seq<Byte>, more: seq<Byte>, escape: bool)
    requires |s| <= LINE_BYTES
    ensures var q, d := Symbols(LineDigits(s), escape), Line(s, escape) + more;
            && d[0] == |s| + 32 && d[1..] == q + Terminator(escape) + more
            && d[1..][..|q|] == q && d[1..][|q| + |Terminator(escape)|..] == more
  {
    JoinShape(|s| + 32, Symbols(LineDigits(s), escape), Terminator(escape), more);
  }

  lemma JoinShape(c: Byte, q: seq<Byte>, z: seq<Byte>, more: seq<Byte>)
    ensures var d := [c] + q + z + more;
            d[0] == c && d[1..] == q + z + more && d[1..][..|q|] == q && d[1..][|q| + |z|..] == more
  {
    assert ([c] + q + z + more)[1..] == q + z + more;
  }

  lemma DecodeFirstLine(s: seq<Byte>, more: seq<Byte>, escape: bool)
    requires |s| <= LINE_BYTES
    ensures FirstLine(Line(s, escape) + more, escape) == Some(s)
    ensures NextLine(Line(s, escape) + more, escape) == more
  {
    var q, d := Symbols(LineDigits(s), escape), Line(s, escape) + more;
    LineShape(s, more, escape);
    TerminatorIsFirst(q, more, escape);
    LineAt(d, d[1..], q, |s|, escape);
    DecodeLineSymbols(s, CharAt(d[1..], |q|), escape);
  }

  lemma LineAt(d: seq<Byte>, t: seq<Byte>, q: seq<Byte>, len: nat, escaped: bool)
    requires d != [] && d[1..] == t && d[0] == len + 32
    requires FindTerminator(t, escaped) == |q| && t[..|q|] == q
    ensures FirstLine(d, escaped) == DecodeLine(q, CharAt(t, |q|), escaped, len)
    ensures NextLine(d, escaped) == t[Min(|q| + |Terminator(escaped)|, |t|)..]
  {
    assert Value(d[0]) == len;
  }

  lemma DecodeLineThen(s: seq<Byte>, more: seq<Byte>, escape: bool)
    requires |s| <= LINE_BYTES
    ensures Decode(Line(s, escape) + more, escape) == Prepend(s, Decode(more, escape))
  {
    DecodeFirstLine(s, more, escape);
  }

  lemma PrependTwice(a: seq<Byte>, b: seq<Byte>, r: Option<seq<Byte>>)
    ensures Prepend(a, Prepend(b, r)) == Prepend(a + b, r)
  {
    if r.Some? {
      assert a + (b + r.value) == a + b + r.value;
    }
  }

  /** Text that starts with an encoding decodes to its data followed by what the remaining text decodes to. */
  lemma {:induction false} DecodeEncodedThen(s: seq<Byte>, more: seq<Byte>, escape: bool)
    ensures Decode(Encode(s, escape) + more, escape) == Prepend(s, Decode(more, escape))
    decreases |s|
  {
    if s == [] {
      assert Encode(s, escape) + more == more;
      var r := Decode(more, escape);
      assert r.Some? ==> [] + r.value == r.value;
    } else {
      var h, rest := Head(s), s[|Head(s)|..];
      var tail := Encode(rest, escape) + more;
      assert Encode(s, escape) + more == Line(h, escape) + tail;
      DecodeLineThen(h, tail, escape);
      DecodeEncodedThen(rest, more, escape);
      PrependTwice(h, rest, Decode(more, escape));
    }
  }

  lemma CodecRoundTrip(s: seq<Byte>, escape: bool)
    ensures Decode(Encode(s, escape), escape) == Some(s)
  {
    DecodeEncodedThen(s, [], escape);
    assert Encode(s, escape) + [] == Encode(s, escape) && s + [] == s;
  }

  lemma CodecConcatenation(a: seq<Byte>, b: seq<Byte>, escape: bool)
    ensures Decode(Encode(a, escape) + Encode(b, escape), escape) == Some(a + b)
  {
    DecodeEncodedThen(a, Encode(b, escape), escape);
    CodecRoundTrip(b, escape);
  }

  // ---- arbitrary text ----

  /** Taken pair by pair from the left, the escapes of `u` leave a single backslash at its end. */
  predicate Dangling(u: seq<Byte>) {
    u != [] &&
    if u[0] == BACKSLASH then |u| == 1 || Dangling(u[2..]) else Dangling(u[1..])
  }

  /** How many symbols of `u` are all there: pairs count once, a dangling backslash not at all. */
  function Whole(u: seq<Byte>): nat {
    if u == [] then 0
    else if u[0] == BACKSLASH then if |u| == 1 then 0 else 1 + Whole(u[2..])
    else 1 + Whole(u[1..])
  }

  /** The last line of a text, from its length character on. */
  function LastLine(d: seq<Byte>, escaped: bool): (l: seq<Byte>)
    requires d != []
    ensures l != []
    decreases |d|
  {
    var next := NextLine(d, escaped);
    if next == [] then d else LastLine(next, escaped)
  }

  lemma {:induction false} LastLineEndsText(d: seq<Byte>, escaped: bool)
    requires d != []
    ensures var l := LastLine(d, escaped); l[|l| - 1] == d[|d| - 1]
    decreases |d|
  {
    hide NextLine;
    var next := NextLine(d, escaped);
    if next != [] {
      LastLineEndsText(next, escaped);
    }
  }

  /**
   * The texts `decode` throws on: escaped ones whose last line has no terminator and
   * a dangling backslash, and announces more symbols than come before it.
   */
  predicate Throws(d: seq<Byte>, escaped: bool) {
    escaped && d != [] &&
    var l := LastLine(d, true);
    var u := l[1..];
    FindTerminator(u, true) == |u| && Dangling(u) && Whole(u) < SymbolCount(Value(l[0]))
  }

  /** A symbol is missing exactly when the dangling backslash of a text is reached. */
  lemma {:induction false} FetchThrows(u: seq<Byte>, n: nat, beyond: Option<Byte>, escaped: bool)
    ensures Fetch(u, n, beyond, escaped).None? <==> escaped && beyond.None? && Dangling(u) && Whole(u) < n
    decreases n
  {
    hide Value;
    if n > 0 {
      var a := Take(u, beyond, escaped);
      if a.Some? {
        FetchThrows(a.value.1, n - 1, beyond, escaped);
      }
    }
  }

  lemma FirstLineThrows(d: seq<Byte>, escaped: bool)
    requires d != []
    ensures var u := d[1..];
            FirstLine(d, escaped).None? <==>
            escaped && FindTerminator(u, true) == |u| && Dangling(u) && Whole(u) < SymbolCount(Value(d[0]))
  {
    hide FindTerminator, Dangling, Whole, SymbolCount, Value;
    var t := d[1..];
    var end := FindTerminator(t, escaped);
    FetchThrows(t[..end], SymbolCount(Value(d[0])), CharAt(t, end), escaped);
    assert end == |t| ==> t[..end] == t;
  }

  /** A line without a terminator is the last. */
  lemma UnterminatedIsLast(d: seq<Byte>, escaped: bool)
    requires d != [] && FindTerminator(d[1..], escaped) == |d| - 1
    ensures NextLine(d, escaped) == []
  {
  }

  /** Exactly when decoding throws, for every text. */
  lemma {:induction false} DecodeThrows(d: seq<Byte>, escaped: bool)
    ensures Decode(d, escaped).None? <==> Throws(d, escaped)
    decreases |d|
  {
    hide FirstLine, NextLine, Value, Dangling, Whole, SymbolCount, FindTerminator;
    if d != [] {
      FirstLineThrows(d, escaped);
      var next := NextLine(d, escaped);
      if next == [] {
        assert Decode(next, escaped) == Some([]);
      } else {
        if FindTerminator(d[1..], escaped) == |d| - 1 {
          UnterminatedIsLast(d, escaped);
        }
        DecodeThrows(next, escaped);
      }
    }
  }

  lemma {:induction false} DanglingEndsInBackslash(u: seq<Byte>)
    requires Dangling(u)
    ensures u[|u| - 1] == BACKSLASH
  {
    if u[0] != BACKSLASH {
      DanglingEndsInBackslash(u[1..]);
    } else if |u| > 1 {
      DanglingEndsInBackslash(u[2..]);
    }
  }

  /** What decodes has as many bytes as its lines announce together. */
  lemma {:induction false} DecodedSize(d: seq<Byte>, escaped: bool)
    requires Decode(d, escaped).Some?
    ensures |Decode(d, escaped).value| == TotalAnnounced(d, escaped)
    decreases |d|
  {
    hide FirstLine, NextLine, Value;
    if d != [] {
      DecodedSize(NextLine(d, escaped), escaped);
    }
  }

  /**
   * What `decode` returns for any text: it throws on exactly the texts of `Throws`,
   * never on a plain one or one that does not end in a backslash, and otherwise
   * gives as many bytes as the lines announce together.
   */
  lemma DecodeSize(d: seq<Byte>, escaped: bool)
    ensures Decode(d, escaped).Some? <==> !Throws(d, escaped)
    ensures Decode(d, escaped).Some? ==> |Decode(d, escaped).value| == TotalAnnounced(d, escaped)
    ensures !escaped || d == [] || d[|d| - 1] != BACKSLASH ==> Decode(d, escaped).Some?
  {
    hide Decode, TotalAnnounced, Value, Whole, FindTerminator, SymbolCount;
    DecodeThrows(d, escaped);
    if Decode(d, escaped).Some? {
      DecodedSize(d, escaped);
    }
    if Throws(d, escaped) {
      DanglingEndsInBackslash(LastLine(d, true)[1..]);
      LastLineEndsText(d, true);
    }
  }

  /** A text that is one length character and a backslash throws exactly when it announces any byte. */
  lemma LoneBackslashThrows(c: Byte)
    ensures Decode([c, BACKSLASH], true).None? <==> Value(c) != 0
  {
    var d := [c, BACKSLASH];
    DecodeThrows(d, true);
    assert d[1..] == [BACKSLASH] && [BACKSLASH][1..] == [];
    assert FindTerminator([], true) == 0;
    assert NextLine(d, true) == [];
  }

  /** The line ends at the first terminator there is, escaped or not, in any text. */
  lemma {:induction false} FirstTerminator(t: seq<Byte>, escaped: bool)
    ensures var end := FindTerminator(t, escaped);
            && (end < |t| ==> AtTerminator(t[end..], escaped))
            && forall i :: 0 <= i < end ==> !AtTerminator(t[i..], escaped)
    decreases |t|
  {
    if t != [] && !AtTerminator(t, escaped) {
      var end := FindTerminator(t, escaped);
      FirstTerminator(t[1..], escaped);
      assert end < |t| ==> t[end..] == t[1..][end - 1..];
      forall i | 0 <= i < end ensures !AtTerminator(t[i..], escaped) {
        if i == 0 {
          assert t[0..] == t;
        } else {
          assert t[i..] == t[1..][i - 1..];
        }
      }
    } else {
      assert t[0..] == t;
    }
  }

  /** A plain line cut short decodes as if spaces made up the missing symbols. */
  lemma {:induction false} MissingSymbolsAreSpaces(u: seq<Byte>, n: nat, beyond: Option<Byte>)
    ensures Fetch(u, n, beyond, false) == Fetch(u + seq(n, _ => 32), n, beyond, false)
    decreases n
  {
    if n > 0 {
      var padded := u + seq(n, _ => 32);
      if u == [] {
        assert padded[0] == 32 && padded[1..] == [] + seq(n - 1, _ => 32);
        MissingSymbolsAreSpaces([], n - 1, beyond);
      } else {
        PaddingBeyond(u[1..], n - 1, beyond);
        MissingSymbolsAreSpaces(u[1..], n - 1, beyond);
        assert padded[1..] == u[1..] + seq(n - 1, _ => 32) + [32];
      }
    }
  }

  /** More padding than symbols wanted changes nothing. */
  lemma {:induction false} PaddingBeyond(u: seq<Byte>, n: nat, beyond: Option<Byte>)
    ensures Fetch(u + seq(n, _ => 32) + [32], n, beyond, false) == Fetch(u + seq(n, _ => 32), n, beyond, false)
  {
    EnoughSymbols(u + seq(n, _ => 32), [32], n, beyond);
  }

  lemma {:induction false} EnoughSymbols(u: seq<Byte>, more: seq<Byte>, n: nat, beyond: Option<Byte>)
    requires |u| >= n
    ensures Fetch(u + more, n, beyond, false) == Fetch(u, n, beyond, false)
    decreases n
  {
    if n > 0 {
      assert (u + more)[0] == u[0] && (u + more)[1..] == u[1..] + more;
      EnoughSymbols(u[1..], more, n - 1, beyond);
    }
  }

  // ---- bounds and quoting ----

  /** With its NUL a line needs at most 122 of the 128 bytes, escaped or not. */
  lemma LineFits(s: seq<Byte>, escape: bool)
    requires |s| <= LINE_BYTES
    ensures 1 + |Symbols(LineDigits(s), escape)| + 1 <= 122
    ensures !escape ==> |Line(s, escape)| == 2 + 4 * ((|s| + 2) / 3)
  {
    LineDigitsSize(s);
  }

  /** 62 characters a full line, and a shorter last line when 45 does not divide the size. */
  function PlainSize(n: nat): nat {
    62 * (n / LINE_BYTES) + LastLineSize(n % LINE_BYTES)
  }

  function LastLineSize(r: nat): nat {
    if r == 0 then 0 else 2 + 4 * ((r + 2) / 3)
  }

  lemma PlainSizeStep(n: nat)
    requires n > 0
    ensures var k := Min(LINE_BYTES, n); PlainSize(n) == 2 + 4 * ((k + 2) / 3) + PlainSize(n - k)
  {
    if n >= LINE_BYTES {
      assert n / LINE_BYTES == 1 + (n - LINE_BYTES) / LINE_BYTES;
      assert n % LINE_BYTES == (n - LINE_BYTES) % LINE_BYTES;
    }
  }

  lemma {:induction false} PlainLength(s: seq<Byte>)
    ensures |Encode(s, false)| == PlainSize(|s|)
    decreases |s|
  {
    if s != [] {
      EncodedLengthStep(s);
      PlainSizeStep(|s|);
      PlainLength(s[|Head(s)|..]);
    }
  }

  lemma EncodedLengthStep(s: seq<Byte>)
    requires s != []
    ensures |Encode(s, false)| == 2 + 4 * ((|Head(s)| + 2) / 3) + |Encode(s[|Head(s)|..], false)|
  {
    var h := Head(s);
    LineFits(h, false);
    assert Encode(s, false) == Line(h, false) + Encode(s[|h|..], false);
  }

  /** Every quote is preceded by a backslash that escapes it, and every backslash is half of a pair. */
  predicate WellQuoted(p: seq<Byte>) {
    p == [] ||
    (if p[0] == BACKSLASH then |p| >= 2 && (p[1] == QUOTE || p[1] == BACKSLASH) && WellQuoted(p[2..])
     else p[0] != QUOTE && WellQuoted(p[1..]))
  }

  function Unquoted(p: seq<Byte>): seq<Byte>
    requires WellQuoted(p)
  {
    if p == [] then []
    else if p[0] == BACKSLASH then [p[1]] + Unquoted(p[2..])
    else [p[0]] + Unquoted(p[1..])
  }

  /** Escaping only quotes: undoing it leaves the plain payload. */
  lemma {:induction false} EscapedPayload(ds: seq<Digit>)
    ensures WellQuoted(Symbols(ds, true))
    ensures Unquoted(Symbols(ds, true)) == Symbols(ds, false)
    decreases |ds|
  {
    if ds != [] {
      EscapedPayload(ds[1..]);
      var q := Symbol(ds[0], true);
      assert Symbols(ds, true)[|q|..] == Symbols(ds[1..], true);
    }
  }
}
