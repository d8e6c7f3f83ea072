/**
 * The text format character by character and bit by bit: what the encoder writes for
 * which bytes, and what the decoder makes of any text, said without the codec's own
 * packing, shifting and reading.
 */
module UUFormat {
  import opened Bytes
  import opened UUCodec

  // ---- what is written ----

  function ByteAt(s: seq<Byte>, i: nat): Byte {
    if i < |s| then s[i] else 0
  }

  /** Three bytes in four groups of six bits, from the lowest bit of the first byte on. */
  function Sextets(b0: Byte, b1: Byte, b2: Byte): seq<Digit> {
    [b0 % 64, b0 / 64 + b1 % 16 * 4, b1 / 16 + b2 % 4 * 16, b2 / 4]
  }

  lemma DigitsAreSextets(s: seq<Byte>)
    requires 0 < |s| <= 3
    ensures Digits(Pack(s)) == Sextets(s[0], ByteAt(s, 1), ByteAt(s, 2))
  {
    var b0: int, b1: int, b2: int := s[0], ByteAt(s, 1), ByteAt(s, 2);
    var td := Pack(s);
    assert td / 64 == b0 / 64 + 4 * b1 + 1024 * b2;
    assert td / 64 / 64 == b1 / 16 + 16 * b2;
    assert td / 64 / 64 / 64 == b2 / 4;
    Shifted(td, 0);
    Shifted(td, 1);
    Shifted(td / 64, 0);
    Shifted(td, 2);
    Shifted(td / 64, 1);
    Shifted(td / 64 / 64, 0);
    assert DigitOf(td, 0) == b0 % 64 && DigitOf(td, 1) == b0 / 64 + b1 % 16 * 4;
    assert DigitOf(td, 2) == b1 / 16 + b2 % 4 * 16 && DigitOf(td, 3) == b2 / 4;
  }

  /** Group `g` of a line holds its bytes 3g to 3g + 2; bytes the line does not have count as zero. */
  lemma {:induction false} LineDigitsAt(s: seq<Byte>, g: nat)
    requires 3 * g < |s|
    ensures |LineDigits(s)| == 4 * ((|s| + 2) / 3)
    ensures LineDigits(s)[4 * g..4 * g + 4] == Sextets(ByteAt(s, 3 * g), ByteAt(s, 3 * g + 1), ByteAt(s, 3 * g + 2))
    decreases g
  {
    LineDigitsSize(s);
    LineDigitsStep(s);
    var k := Min(3, |s|);
    var ds := LineDigits(s);
    DigitsAreSextets(s[..k]);
    hide Digits, Pack, LineDigits;
    if g > 0 {
      LineDigitsAt(s[3..], g - 1);
      assert ds[4 * g..4 * g + 4] == ds[4..][4 * (g - 1)..4 * (g - 1) + 4];
    }
  }

  /** Read as `n` whole groups, the symbols of a line are its bytes and zeros up to a multiple of three. */
  lemma {:induction false} LinePadding(s: seq<Byte>, n: nat)
    requires |s| <= 3 * n < |s| + 3
    ensures |LineDigits(s)| == SymbolCount(3 * n) == 4 * n
    ensures Assemble(LineDigits(s), 3 * n) == s + Zeros(3 * n - |s|)
    decreases |s|
  {
    hide Digits, Pack, Unpack, Combine, Zeros, Assemble, LineDigits;
    if s == [] {
      NoGroups();
    } else {
      var k := Min(3, |s|);
      var g, rest := s[..k], s[k..];
      LineDigitsStep(s);
      LinePadding(rest, n - 1);
      CombineDigits(Pack(g));
      UnpackPack(g);
      AssembleStep(LineDigits(s), 3 * n);
      PaddedGroup(g, rest, 3 * n);
      assert s == g + rest;
    }
  }

  lemma NoGroups()
    ensures LineDigits([]) == [] && Assemble([], 0) == [] && [] + Zeros(0) == []
  {
  }

  lemma LineDigitsStep(s: seq<Byte>)
    requires s != []
    ensures var k, ds := Min(3, |s|), LineDigits(s);
            |ds| >= 4 && ds[..4] == Digits(Pack(s[..k])) && ds[4..] == LineDigits(s[k..])
  {
    hide Digits, Pack;
  }

  lemma PaddedGroup(g: seq<Byte>, rest: seq<Byte>, size: nat)
    requires 0 < |g| <= 3 && (|g| < 3 ==> rest == [] && size == 3) && |g| + |rest| <= size && size >= 3 + |rest|
    ensures g + Zeros(3 - |g|) + (rest + Zeros(size - 3 - |rest|)) == g + rest + Zeros(size - |g| - |rest|)
  {
  }

  /** A digit is the character 32 places on; the escaped form puts a backslash before 34 and 92. */
  lemma SymbolIs(d: Digit)
    ensures Symbol(d, false) == [d + 32]
    ensures Symbol(d, true) == if d == 2 || d == 60 then [92, d + 32] else [d + 32]
  {
  }

  /** A line is its length plus 32, its symbols, and the end of line, in the escaped form a backslash and an n. */
  lemma LineIs(s: seq<Byte>, escape: bool)
    requires 0 < |s| <= 45
    ensures Encode(s, escape)
         == [|s| + 32] + Symbols(LineDigits(s), escape) + if escape then [92, 110] else [10]
  {
    assert Head(s) == s && s[|s|..] == [];
    assert Line(s, escape) + [] == Line(s, escape);
  }

  /** Longer data is cut after every 45 bytes. */
  lemma LinesOf45(s: seq<Byte>, escape: bool)
    requires |s| > 45
    ensures Encode(s, escape) == Encode(s[..45], escape) + Encode(s[45..], escape)
  {
    var h := s[..45];
    assert Head(s) == h && Head(h) == h && h[45..] == [];
    assert Line(h, escape) + [] == Line(h, escape);
  }

  // ---- what is read, from any text ----

  /** In a plain line every character is a symbol, 32 places back and modulo 256, and missing ones are 0. */
  lemma {:induction false} PlainSymbols(u: seq<Byte>, n: nat, beyond: Option<Byte>)
    ensures var v := Fetch(u, n, beyond, false);
            && v.Some?
            && forall k :: 0 <= k < n ==> v.value[k] == if k < |u| then (u[k] as int + 224) % 256 else 0
    decreases n
  {
    if n > 0 {
      PlainSymbols(if u == [] then [] else u[1..], n - 1, beyond);
    }
  }

  /** A line without the backslash of each pair, and without one that dangles. */
  function Unescaped(u: seq<Byte>): seq<Byte> {
    if u == [] then []
    else if u[0] == 92 then if |u| == 1 then [] else [u[1]] + Unescaped(u[2..])
    else [u[0]] + Unescaped(u[1..])
  }

  /** An escaped line reads as that plain one; after a backslash that dangles comes the character beyond the line. */
  lemma {:induction false} EscapedSymbols(u: seq<Byte>, n: nat, beyond: Option<Byte>)
    ensures !Dangling(u) ==> Fetch(u, n, beyond, true) == Fetch(Unescaped(u), n, beyond, false)
    ensures Dangling(u) && beyond.Some? ==>
              Fetch(u, n, beyond, true) == Fetch(Unescaped(u) + [beyond.value], n, beyond, false)
    decreases n
  {
    hide Value;
    if n > 0 && u != [] {
      var rest := if u[0] == 92 then if |u| == 1 then [] else u[2..] else u[1..];
      EscapedSymbols(rest, n - 1, beyond);
      var plain := Unescaped(u) + if Dangling(u) && beyond.Some? then [beyond.value] else [];
      assert Unescaped(u) + [] == Unescaped(u) && Unescaped(rest) + [] == Unescaped(rest);
      if !(Dangling(u) && beyond.None?) {
        assert plain[1..] == Unescaped(rest) + if Dangling(rest) && beyond.Some? then [beyond.value] else [];
      }
    } else if n > 0 {
      EscapedSymbols(u, n - 1, beyond);
    }
  }

  lemma AssembleStep(v: seq<Byte>, len: nat)
    requires |v| == SymbolCount(len) && len > 0
    ensures 4 <= |v| && |v[4..]| == SymbolCount(len - Min(3, len))
    ensures Assemble(v, len) == Unpack(Combine(v[..4]))[..Min(3, len)] + Assemble(v[4..], len - Min(3, len))
  {
    hide Unpack, Combine;
  }

  /** Byte 3g + r of a line is byte `r` of its group `g` of four symbols. */
  lemma {:induction false} AssembleAt(v: seq<Byte>, len: nat, g: nat, r: nat)
    requires |v| == SymbolCount(len) && r < 3 && 3 * g + r < len
    ensures 4 * g + 4 <= |v|
    ensures Assemble(v, len)[3 * g + r] == Unpack(Combine(v[4 * g..4 * g + 4]))[r]
    decreases g
  {
    hide Unpack, Combine, Assemble, SymbolCount;
    AssembleStep(v, len);
    if g > 0 {
      AssembleAt(v[4..], len - 3, g - 1, r);
      assert v[4..][4 * (g - 1)..4 * (g - 1) + 4] == v[4 * g..4 * g + 4];
    }
  }

  /** A text is decoded line by line: up to the first terminator, then from right after it. */
  lemma LineByLine(c: Byte, q: seq<Byte>, more: seq<Byte>, escaped: bool)
    requires var z: seq<Byte> := if escaped then [92, 110] else [10]; FindTerminator(q + z + more, escaped) == |q|
    ensures var z: seq<Byte> := if escaped then [92, 110] else [10];
            var line := DecodeLine(q, Some(z[0]), escaped, (c as int + 224) % 256);
            Decode([c] + q + z + more, escaped)
            == if line.None? then None else Prepend(line.value, Decode(more, escaped))
  {
    hide DecodeLine, FindTerminator;
    var z := Terminator(escaped);
    JoinShape(c, q, z, more);
    var d := [c] + q + z + more;
    assert CharAt(d[1..], |q|) == Some(z[0]);
    assert NextLine(d, escaped) == more;
    assert FirstLine(d, escaped) == DecodeLine(q, Some(z[0]), escaped, (c as int + 224) % 256);
  }

  /** A last line without a terminator goes to the end of the text. */
  lemma LastLineIs(c: Byte, q: seq<Byte>, escaped: bool)
    requires FindTerminator(q, escaped) == |q|
    ensures Decode([c] + q, escaped) == DecodeLine(q, None, escaped, (c as int + 224) % 256)
  {
    hide DecodeLine, FindTerminator;
    var d := [c] + q;
    assert d[1..] == q && q[..|q|] == q && NextLine(d, escaped) == [];
    var line := DecodeLine(q, None, escaped, (c as int + 224) % 256);
    assert FirstLine(d, escaped) == line;
    assert line.Some? ==> line.value + [] == line.value;
  }

  // ---- bits ----

  /** Bit `k` of a number, the lowest is bit 0. */
  function BitAt(x: nat, k: nat): bool {
    if k == 0 then x % 2 == 1 else BitAt(x / 2, k - 1)
  }

  lemma {:induction false} ZeroBits(k: nat)
    ensures !BitAt(0, k)
  {
    if k > 0 { ZeroBits(k - 1); }
  }

  lemma {:induction false} OrBits(a: nat, b: nat, k: nat)
    ensures BitAt(Or(a, b), k) <==> BitAt(a, k) || BitAt(b, k)
    decreases k
  {
    if a == 0 || b == 0 {
      ZeroBits(k);
    } else if k > 0 {
      OrBits(a / 2, b / 2, k - 1);
    }
  }

  lemma {:induction false} ShiftBits(x: nat, n: nat, k: nat)
    ensures BitAt(x * Pow2(n), k) <==> k >= n && BitAt(x, k - n)
    decreases n
  {
    if n > 0 {
      var p := Pow2(n - 1);
      assert x * Pow2(n) == 2 * (x * p);
      if k > 0 {
        ShiftBits(x, n - 1, k - 1);
      }
    }
  }

  lemma DropByte(x: nat, k: nat)
    ensures BitAt(x, k + 8) == BitAt(x / 256, k)
  {
    var y := x / 16;
    assert x / 2 / 2 / 2 / 2 == y && y / 2 / 2 / 2 / 2 == x / 256;
    assert BitAt(x, k + 8) == BitAt(x / 2, k + 7) == BitAt(x / 2 / 2, k + 6) == BitAt(x / 2 / 2 / 2, k + 5);
    assert BitAt(y, k + 4) == BitAt(y / 2, k + 3) == BitAt(y / 2 / 2, k + 2) == BitAt(y / 2 / 2 / 2, k + 1);
  }

  lemma HalfDiv(x: nat, p: nat)
    requires p > 0
    ensures x % (2 * p) / 2 == x / 2 % p && x % (2 * p) % 2 == x % 2
  {
    var y, b := x / 2, x % 2;
    var q, r := y / p, y % p;
    assert y == p * q + r;
    assert x == 2 * (p * q) + (2 * r + b);
    assert 2 * (p * q) == (2 * p) * q;
    DivUnique(x, 2 * p, q, 2 * r + b);
  }

  lemma DivUnique(x: nat, m: nat, q: nat, r: nat)
    requires r < m && x == m * q + r
    ensures x / m == q && x % m == r
  {
    var q', r' := x / m, x % m;
    assert x == m * q' + r';
    if q' > q {
      Scaled(m, q, q');
    } else if q' < q {
      Scaled(m, q', q);
    }
  }

  lemma {:induction false} Scaled(m: nat, a: nat, b: nat)
    requires a < b
    ensures m * b >= m * a + m
    decreases b
  {
    var c := b - 1;
    assert m * b == m * c + m;
    if a < c {
      Scaled(m, a, c);
    }
  }

  lemma {:induction false} ModBits(x: nat, n: nat, k: nat)
    requires k < n
    ensures BitAt(x % Pow2(n), k) == BitAt(x, k)
    decreases n
  {
    var p := Pow2(n - 1);
    HalfDiv(x, p);
    if k > 0 {
      ModBits(x / 2, n - 1, k - 1);
    }
  }

  lemma {:induction false} OnesBits(n: nat, k: nat)
    requires k < n
    ensures BitAt(Pow2(n) - 1, k)
    decreases n
  {
    if k > 0 {
      assert (Pow2(n) - 1) / 2 == Pow2(n - 1) - 1;
      OnesBits(n - 1, k - 1);
    }
  }

  /** Bit `k` of a symbol as the decoder's `char` carries it into 32 bits: above bit 7 it repeats the sign. */
  predicate SymbolBit(v: Byte, k: nat) {
    if k < 8 then BitAt(v, k) else v >= 128
  }

  lemma WidenBits(v: Byte, k: nat)
    requires k < 32
    ensures BitAt(Widen(v), k) <==> SymbolBit(v, k)
  {
    Powers();
    Pow24();
    hide BitAt, Pow2;
    var w := Widen(v);
    if k < 8 {
      ModBits(w, 8, k);
      assert w % 256 == v as int;
    } else {
      DropByte(w, k - 8);
      if v < 128 {
        ZeroBits(k - 8);
      } else {
        assert w / 256 == Pow2(24) - 1;
        OnesBits(24, k - 8);
      }
    }
  }

  lemma Pow24()
    ensures Pow2(24) == 0x100_0000 && Pow2(32) == U32
  {
    Powers();
    assert Pow2(20) == 1048576 && Pow2(24) == 16777216;
    assert Pow2(28) == 268435456;
  }

  lemma ShiftedSymbol(v: Byte, n: nat, unit: nat, k: nat)
    requires k < 32 && unit == Pow2(n)
    ensures BitAt(Widen(v) * unit % U32, k) <==> k >= n && SymbolBit(v, k - n)
  {
    hide Widen;
    Pow24();
    ModBits(Widen(v) * unit, 32, k);
    ShiftBits(Widen(v), n, k);
    if k >= n { WidenBits(v, k - n); }
  }

  /** Four symbols are or-ed together six bits apart, whatever bits they have; only the low 32 bits are kept. */
  lemma CombineBits(t: seq<Byte>, k: nat)
    requires |t| == 4 && k < 32
    ensures BitAt(Combine(t), k) <==>
            || SymbolBit(t[0], k)
            || (k >= 6 && SymbolBit(t[1], k - 6))
            || (k >= 12 && SymbolBit(t[2], k - 12))
            || (k >= 18 && SymbolBit(t[3], k - 18))
  {
    hide Widen, Or, BitAt, SymbolBit;
    Powers();
    var a, b, c, d := Widen(t[0]), Widen(t[1]) * 64 % U32, Widen(t[2]) * 4096 % U32, Widen(t[3]) * 262144 % U32;
    WidenBits(t[0], k);
    ShiftedSymbol(t[1], 6, 64, k);
    ShiftedSymbol(t[2], 12, 4096, k);
    ShiftedSymbol(t[3], 18, 262144, k);
    OrBits(a, b, k);
    OrBits(Or(a, b), c, k);
    OrBits(Or(Or(a, b), c), d, k);
  }
}
