/** The codec's loops, proved against the functions of UUCodec. */
module UUText {
  import opened Bytes
  import opened UUCodec

  /** What a C string in `line` holds: everything before the first NUL. */
  function CString(line: seq<Byte>): seq<Byte> {
    if line == [] || line[0] == 0 then [] else [line[0]] + CString(line[1..])
  }

  lemma {:induction false} CStringStops(p: seq<Byte>, garbage: seq<Byte>)
    requires forall i :: 0 <= i < |p| ==> p[i] != 0
    ensures CString(p + [0] + garbage) == p
    decreases |p|
  {
    if p == [] {
      assert ([0] + garbage)[0] == 0;
      assert p + [0] + garbage == [0] + garbage;
    } else {
      assert (p + [0] + garbage)[1..] == p[1..] + [0] + garbage;
      CStringStops(p[1..], garbage);
    }
  }

  lemma PackByOr(b0: Byte, b1: Byte, b2: Byte)
    ensures Or(Or(b0, b1 as int * 256), b2 as int * 65536) == b0 as int + 256 * (b1 as int) + 65536 * (b2 as int)
    ensures Or(b0, b1 as int * 256) == b0 as int + 256 * (b1 as int)
  {
    Powers();
    OrDisjoint(b0, b1, 8);
    OrDisjoint(b0 as int + 256 * (b1 as int), b2, 16);
  }

  lemma SliceOfSlice(data: seq<Byte>, from: nat, to: nat, a: nat, b: nat)
    requires from <= to <= |data| && a <= b <= to - from
    ensures data[from..to][a..b] == data[from + a..from + b]
  {
    forall k | 0 <= k < b - a ensures data[from..to][a..b][k] == data[from + a..from + b][k] {
      assert data[from..to][a + k] == data[from + a + k];
    }
  }

  /** Packs the group of up to three bytes that starts at `i` of a line of `len`. */
  method PackGroup(data: seq<Byte>, idx: nat, i: nat, len: nat) returns (td: nat)
    requires i < len && idx + len <= |data|
    ensures td == Pack(data[idx..idx + len][i..i + Min(3, len - i)])
  {
    SliceOfSlice(data, idx, idx + len, i, i + Min(3, len - i));
    var b1 := if i + 1 < len then data[idx + i + 1] else 0;
    var b2 := if i + 2 < len then data[idx + i + 2] else 0;
    PackByOr(data[idx + i], b1, b2);
    td := data[idx + i];
    if i + 1 < len {
      td := Or(td, b1 as int * 256);
    }
    if i + 2 < len {
      td := Or(td, b2 as int * 65536);
    }
  }

  /** Writes one symbol, two characters when it needs escaping. */
  method PutSymbol(line: array<Byte>, lp0: nat, d: Digit, escape: bool) returns (lp: nat)
    requires lp0 + 2 <= line.Length
    modifies line
    ensures lp == lp0 + |Symbol(d, escape)|
    ensures line[..lp] == old(line[..lp0]) + Symbol(d, escape)
  {
    lp := lp0;
    line[lp] := d + 32;
    lp := lp + 1;
    if escape && (line[lp - 1] == QUOTE || line[lp - 1] == BACKSLASH) {
      line[lp] := line[lp - 1];
      line[lp - 1] := BACKSLASH;
      lp := lp + 1;
    }
  }

  /** Writes the four symbols of `td` from `line[lp0]` on. */
  method PutGroup(line: array<Byte>, lp0: nat, td: nat, escape: bool) returns (lp: nat)
    requires lp0 + 8 <= line.Length
    modifies line
    ensures lp0 <= lp <= lp0 + 8
    ensures line[..lp] == old(line[..lp0]) + Symbols(Digits(td), escape)
  {
    lp := lp0;
    ghost var ds := Digits(td);
    ghost var total := line[..lp0] + Symbols(ds, escape);
    assert ds[0..] == ds;
    for j := 0 to 4
      invariant lp0 <= lp <= lp0 + 2 * j
      invariant line[..lp] + Symbols(ds[j..], escape) == total
    {
      assert ds[j..][0] == ds[j] && ds[j..][1..] == ds[j + 1..];
      ghost var before := line[..lp];
      Regroup(before, Symbol(ds[j], escape), Symbols(ds[j + 1..], escape));
      lp := PutSymbol(line, lp, DigitOf(td, j), escape);
    }
    assert ds[4..] == [] && line[..lp] + [] == line[..lp];
  }

  lemma {:induction false} SymbolsAppend(a: seq<Digit>, b: seq<Digit>, escape: bool)
    ensures Symbols(a + b, escape) == Symbols(a, escape) + Symbols(b, escape)
    decreases |a|
  {
    if a == [] {
      assert a + b == b;
    } else {
      assert (a + b)[1..] == a[1..] + b;
      SymbolsAppend(a[1..], b, escape);
    }
  }

  /** The symbols of a line from byte `i` on. */
  function RestOfLine(s: seq<Byte>, i: nat, escape: bool): seq<Byte> {
    if i >= |s| then [] else Symbols(LineDigits(s[i..]), escape)
  }

  lemma GroupOfLine(s: seq<Byte>, i: nat, escape: bool)
    requires i < |s|
    ensures RestOfLine(s, i, escape) ==
            Symbols(Digits(Pack(s[i..i + Min(3, |s| - i)])), escape) + RestOfLine(s, i + 3, escape)
  {
    var k := Min(3, |s| - i);
    var u, g, r := s[i..], s[i..i + k], s[i + k..];
    assert u[..k] == g && u[k..] == r;
    SymbolsOfGroup(u, g, r, escape);
    assert RestOfLine(s, i + 3, escape) == Symbols(LineDigits(r), escape) by {
      if i + 3 >= |s| {
        assert r == [];
      }
    }
  }

  lemma SymbolsOfGroup(u: seq<Byte>, g: seq<Byte>, r: seq<Byte>, escape: bool)
    requires u != [] && g == u[..Min(3, |u|)] && r == u[Min(3, |u|)..]
    ensures Symbols(LineDigits(u), escape) == Symbols(Digits(Pack(g)), escape) + Symbols(LineDigits(r), escape)
  {
    SymbolsAppend(Digits(Pack(g)), LineDigits(r), escape);
  }

  /** Packs and writes one group. */
  method PutNextGroup(line: array<Byte>, lp0: nat, data: seq<Byte>, idx: nat, i: nat, len: nat, escape: bool)
    returns (lp: nat)
    requires lp0 + 8 <= line.Length
    requires i < len && idx + len <= |data|
    modifies line
    ensures lp0 <= lp <= lp0 + 8
    ensures line[..lp] + RestOfLine(data[idx..idx + len], i + 3, escape)
         == old(line[..lp0]) + RestOfLine(data[idx..idx + len], i, escape)
  {
    var td := PackGroup(data, idx, i, len);
    ghost var q, rest := Symbols(Digits(td), escape), RestOfLine(data[idx..idx + len], i + 3, escape);
    assert RestOfLine(data[idx..idx + len], i, escape) == q + rest by {
      GroupOfLine(data[idx..idx + len], i, escape);
    }
    lp := PutGroup(line, lp0, td, escape);
    Regroup(old(line[..lp0]), q, rest);
  }

  /** Length character and symbols of one line, written to the front of `line`. */
  method FillLine(line: array<Byte>, data: seq<Byte>, idx: nat, len: nat, escape: bool) returns (lp: nat)
    requires line.Length == 128
    requires 0 < len <= LINE_BYTES && idx + len <= |data|
    modifies line
    ensures lp <= 121
    ensures line[..lp] == [len + 32] + Symbols(LineDigits(data[idx..idx + len]), escape)
  {
    ghost var s := data[idx..idx + len];
    ghost var total := [len + 32] + RestOfLine(s, 0, escape);
    assert s[0..] == s;
    line[0] := len + 32;
    lp := 1;
    var i := 0;
    ghost var groups := 0;
    while i < len
      invariant i == 3 * groups && 0 <= groups <= 15
      invariant 1 <= lp <= 1 + 8 * groups
      invariant line[..lp] + RestOfLine(s, i, escape) == total
    {
      lp := PutNextGroup(line, lp, data, idx, i, len, escape);
      i := i + 3;
      groups := groups + 1;
    }
  }

  /** One line through the 128-byte buffer; returns what `append` takes from it. */
  method PutLine(data: seq<Byte>, idx: nat, len: nat, escape: bool) returns (text: seq<Byte>)
    requires 0 < len <= LINE_BYTES && idx + len <= |data|
    ensures text + Terminator(escape) == Line(data[idx..idx + len], escape)
  {
    var line := new Byte[128];
    var lp := FillLine(line, data, idx, len, escape);
    ghost var total := line[..lp];
    line[lp] := 0;
    assert line[..] == total + [0] + line[lp + 1..];
    CStringStops(total, line[lp + 1..]);
    text := CString(line[..]);
  }

  lemma EncodeStep(data: seq<Byte>, idx: nat, len: nat, escape: bool)
    requires idx < |data| && len == Min(LINE_BYTES, |data| - idx)
    ensures Encode(data[idx..], escape) == Line(data[idx..idx + len], escape) + Encode(data[idx + len..], escape)
  {
    assert Head(data[idx..]) == data[idx..idx + len];
    assert data[idx..][len..] == data[idx + len..];
  }

  /** The text form of `data`. */
  method EncodeText(data: seq<Byte>, escape: bool) returns (result: seq<Byte>)
    ensures result == Encode(data, escape)
    ensures Decode(result, escape) == Some(data)
  {
    result := [];
    var idx := 0;
    while idx < |data|
      invariant 0 <= idx <= |data|
      invariant result + Encode(data[idx..], escape) == Encode(data, escape)
    {
      var len := if |data| - idx > 45 then 45 else |data| - idx;
      var text := PutLine(data, idx, len, escape);
      EncodeStep(data, idx, len, escape);
      Regroup(result, text + Terminator(escape), Encode(data[idx + len..], escape));
      Regroup(result, text, Terminator(escape));
      result := result + text;
      if escape {
        result := result + [BACKSLASH, LETTER_N];
      } else {
        result := result + [NEWLINE];
      }
      idx := idx + len;
    }
    CodecRoundTrip(data, escape);
  }

  // ---- decoding ----

  /** What is left of a line that ends at `end`, seen from position `at`. */
  function Left(data: seq<Byte>, at: nat, end: nat): seq<Byte>
    requires end <= |data|
  {
    if at < end then data[at..end] else []
  }

  /** The source's `get`: the value, and the advanced index; `None` when `at` throws. */
  method Get(data: seq<Byte>, at: nat, end: nat, escaped: bool) returns (v: Option<Byte>, next: nat)
    requires end <= |data|
    ensures var r := Take(Left(data, at, end), CharAt(data, end), escaped);
            && v.None? == r.None?
            && (r.Some? ==> v == Some(r.value.0) && Left(data, next, end) == r.value.1)
  {
    next := at;
    if next >= end {
      return Some(0), next;
    }
    if escaped && data[next] == BACKSLASH {
      next := next + 1;
    }
    if next >= |data| {
      return None, next;
    }
    v := Some(Value(data[next]));
    next := next + 1;
  }

  /** Four `get`s in a row, the first of `4 + more` symbols. */
  method Get4(data: seq<Byte>, at: nat, end: nat, escaped: bool, ghost more: nat)
    returns (v: Option<seq<Byte>>, next: nat)
    requires end <= |data|
    ensures v.Some? ==> |v.value| == 4
    ensures var beyond := CharAt(data, end);
            Fetch(Left(data, at, end), 4 + more, beyond, escaped) ==
            if v.None? then None else Prepend(v.value, Fetch(Left(data, next, end), more, beyond, escaped))
  {
    hide Left, CharAt, Take, Fetch;
    ghost var beyond := CharAt(data, end);
    ghost var u := Left(data, at, end);
    var a, b, c, d: Option<Byte>;
    FetchStep(u, 3 + more, beyond, escaped);
    a, next := Get(data, at, end, escaped);
    if a.None? { return None, next; }
    u := Left(data, next, end);
    FetchStep(u, 2 + more, beyond, escaped);
    b, next := Get(data, next, end, escaped);
    if b.None? { return None, next; }
    u := Left(data, next, end);
    FetchStep(u, 1 + more, beyond, escaped);
    c, next := Get(data, next, end, escaped);
    if c.None? { return None, next; }
    u := Left(data, next, end);
    FetchStep(u, more, beyond, escaped);
    d, next := Get(data, next, end, escaped);
    if d.None? { return None, next; }
    v := Some([a.value, b.value, c.value, d.value]);
    PrependFour(a.value, b.value, c.value, d.value, Fetch(Left(data, next, end), more, beyond, escaped));
  }

  lemma PrependFour(a: Byte, b: Byte, c: Byte, d: Byte, r: Option<seq<Byte>>)
    ensures Prepend([a], Prepend([b], Prepend([c], Prepend([d], r)))) == Prepend([a, b, c, d], r)
  {
    if r.Some? {
      assert [a] + ([b] + ([c] + ([d] + r.value))) == [a, b, c, d] + r.value;
    }
  }

  lemma FetchStep(u: seq<Byte>, n: nat, beyond: Option<Byte>, escaped: bool)
    ensures var r := Take(u, beyond, escaped);
            Fetch(u, n + 1, beyond, escaped) ==
            if r.None? then None else Prepend([r.value.0], Fetch(r.value.1, n, beyond, escaped))
  {
  }

  lemma DecodeLineStep(u: seq<Byte>, v: Option<seq<Byte>>, u': seq<Byte>, n: nat, beyond: Option<Byte>, escaped: bool)
    requires n > 0 && (v.Some? ==> |v.value| == 4)
    requires var more := SymbolCount(n - Min(3, n));
             Fetch(u, 4 + more, beyond, escaped) ==
             if v.None? then None else Prepend(v.value, Fetch(u', more, beyond, escaped))
    ensures DecodeLine(u, beyond, escaped, n) ==
            if v.None? then None
            else Prepend(Unpack(Combine(v.value))[..Min(3, n)], DecodeLine(u', beyond, escaped, n - Min(3, n)))
  {
    var k := Min(3, n);
    assert SymbolCount(n) == 4 + SymbolCount(n - k);
    var f := Fetch(u', SymbolCount(n - k), beyond, escaped);
    if v.Some? && f.Some? {
      assert (v.value + f.value)[..4] == v.value && (v.value + f.value)[4..] == f.value;
    }
  }

  /** `now` is `was` with `bytes` stored from index `from` on. */
  ghost predicate Wrote(now: seq<Byte>, was: seq<Byte>, from: nat, bytes: seq<Byte>) {
    from + |bytes| <= |was| && now == was[..from] + bytes + was[from + |bytes|..]
  }

  lemma WroteTwice(now: seq<Byte>, mid: seq<Byte>, was: seq<Byte>, from: nat, a: seq<Byte>, b: seq<Byte>)
    requires Wrote(mid, was, from, a) && Wrote(now, mid, from + |a|, b)
    ensures Wrote(now, was, from, a + b)
  {
    assert mid[..from + |a|] == was[..from] + a;
    assert mid[from + |a| + |b|..] == was[from + |a| + |b|..];
  }

  /** The indices from `a` up to, not including, `b`. */
  ghost function Range(a: nat, b: nat): seq<nat>
    requires a <= b
  {
    seq(b - a, i => a + i)
  }

  lemma RangeAppend(a: nat, b: nat, c: nat)
    requires a <= b <= c
    ensures Range(a, b) + Range(b, c) == Range(a, c) && Range(a, a) == []
  {
  }

  /**
   * Stores, or with a null buffer only counts, the bytes of one group of which `n` are
   * wanted. `stores` lists the indices stored to, in order.
   */
  method PutBytes(result: array?<Byte>, sz0: nat, d: nat, n: nat) returns (sz: nat, ghost stores: seq<nat>)
    requires n > 0 && (result != null ==> sz0 + Min(3, n) <= result.Length)
    modifies result
    ensures sz == sz0 + Min(3, n)
    ensures result != null ==> Wrote(result[..], old(result[..]), sz0, Unpack(d)[..Min(3, n)])
    ensures stores == if result != null then Range(sz0, sz) else []
  {
    sz, stores := sz0, [];
    if result != null {
      result[sz] := d % 256;
      stores := stores + [sz];
    }
    sz := sz + 1;
    if n > 1 {
      if result != null {
        result[sz] := d / 256 % 256;
        stores := stores + [sz];
      }
      sz := sz + 1;
      if n > 2 {
        if result != null {
          result[sz] := d / 65536 % 256;
          stores := stores + [sz];
        }
        sz := sz + 1;
      }
    }
  }

  /** Reads one group of a line of which `n` bytes are missing and stores it; `bytes` is what it held. */
  method DecodeGroup(data: seq<Byte>, at0: nat, end: nat, escaped: bool, n: nat, result: array?<Byte>, sz0: nat)
    returns (ok: bool, at: nat, sz: nat, ghost bytes: seq<Byte>, ghost stores: seq<nat>)
    requires n > 0 && end <= |data| && (result != null ==> sz0 + Min(3, n) <= result.Length)
    modifies result
    ensures |bytes| == Min(3, n)
    ensures DecodeLine(Left(data, at0, end), CharAt(data, end), escaped, n) ==
            if ok then Prepend(bytes, DecodeLine(Left(data, at, end), CharAt(data, end), escaped, n - |bytes|))
            else None
    ensures ok ==> sz == sz0 + |bytes| && (result != null ==> Wrote(result[..], old(result[..]), sz0, bytes))
    ensures ok ==> stores == if result != null then Range(sz0, sz) else []
  {
    ghost var k := Min(3, n);
    var v;
    v, at := Get4(data, at0, end, escaped, SymbolCount(n - k));
    DecodeLineStep(Left(data, at0, end), v, Left(data, at, end), n, CharAt(data, end), escaped);
    if v.None? {
      return false, at, sz0, seq(k, _ => 0), [];
    }
    var d := Combine(v.value);
    bytes := Unpack(d)[..k];
    sz, stores := PutBytes(result, sz0, d, n);
    ok := true;
  }

  /** Decodes the line in `data[at0..end]` to `result[sz0..]`; false when `at` throws. */
  method DecodeLineInto(data: seq<Byte>, at0: nat, end: nat, escaped: bool, len: nat, result: array?<Byte>, sz0: nat)
    returns (ok: bool, sz: nat, ghost stores: seq<nat>)
    requires end <= |data| && (result != null ==> sz0 + len <= result.Length)
    modifies result
    ensures var line := DecodeLine(Left(data, at0, end), CharAt(data, end), escaped, len);
            && ok == line.Some?
            && (ok ==> sz == sz0 + len)
            && (ok && result != null ==> Wrote(result[..], old(result[..]), sz0, line.value))
            && (ok ==> stores == if result != null then Range(sz0, sz) else [])
  {
    hide DecodeLine, Wrote, Left, CharAt, Range;
    sz, stores := sz0, [];
    RangeAppend(sz0, sz0, sz0);
    var at, i := at0, 0;
    ghost var line := DecodeLine(Left(data, at0, end), CharAt(data, end), escaped, len);
    ghost var todo := line;
    ghost var done: seq<Byte> := [];
    PrependNothing(line);
    DecodeNothing(escaped);
    if result != null {
      WroteNothing(result[..], sz0);
    }
    while i < len
      invariant |done| == Min(i, len) && sz == sz0 + |done|
      invariant stores == if result != null then Range(sz0, sz) else []
      invariant todo == DecodeLine(Left(data, at, end), CharAt(data, end), escaped, len - |done|)
      invariant line == Prepend(done, todo)
      invariant result != null ==> Wrote(result[..], old(result[..]), sz0, done)
    {
      label Before:
      ghost var bytes, group, from := [], [], sz;
      ok, at, sz, bytes, group := DecodeGroup(data, at, end, escaped, len - i, result, sz);
      if !ok {
        return;
      }
      RangeAppend(sz0, from, sz);
      stores := stores + group;
      todo := DecodeLine(Left(data, at, end), CharAt(data, end), escaped, len - |done| - |bytes|);
      PrependTwice(done, bytes, todo);
      if result != null {
        WroteTwice(result[..], old@Before(result[..]), old(result[..]), sz0, done, bytes);
      }
      done := done + bytes;
      i := i + 3;
    }
    assert done + [] == done;
    ok := true;
  }

  lemma DecodeNothing(escaped: bool)
    ensures Decode([], escaped) == Some([]) && TotalAnnounced([], escaped) == 0
    ensures forall u, beyond :: DecodeLine(u, beyond, escaped, 0) == Some([])
  {
  }

  lemma WroteNothing(now: seq<Byte>, from: nat)
    requires from <= |now|
    ensures Wrote(now, now, from, [])
  {
  }

  lemma PrependNothing(r: Option<seq<Byte>>)
    ensures Prepend([], r) == r
  {
    assert r.Some? ==> [] + r.value == r.value;
  }

  /** What `DecodeText` does with the line that starts at `idx`, in terms of the text from there on. */
  lemma DecodeStep(data: seq<Byte>, idx: nat, escaped: bool, end: nat, next: nat)
    requires idx < |data| && end == idx + 1 + FindTerminator(data[idx + 1..], escaped)
    requires next == if escaped then end + 2 else end + 1
    ensures end <= |data|
    ensures var len := Value(data[idx]);
            var line := DecodeLine(Left(data, idx + 1, end), CharAt(data, end), escaped, len);
            && Decode(Left(data, idx, |data|), escaped) ==
               (if line.None? then None else Prepend(line.value, Decode(Left(data, next, |data|), escaped)))
            && TotalAnnounced(Left(data, idx, |data|), escaped) ==
               len + TotalAnnounced(Left(data, next, |data|), escaped)
  {
    hide DecodeLine, FindTerminator, FirstLine, NextLine;
    var d := data[idx..];
    LineInText(data, idx, escaped, end, next);
    assert Left(data, idx, |data|) == d;
  }

  lemma LineInText(data: seq<Byte>, idx: nat, escaped: bool, end: nat, next: nat)
    requires idx < |data| && end == idx + 1 + FindTerminator(data[idx + 1..], escaped)
    requires next == if escaped then end + 2 else end + 1
    ensures end <= |data| && data[idx..][0] == data[idx]
    ensures FirstLine(data[idx..], escaped)
         == DecodeLine(Left(data, idx + 1, end), CharAt(data, end), escaped, Value(data[idx]))
    ensures NextLine(data[idx..], escaped) == Left(data, next, |data|)
  {
    hide DecodeLine, FindTerminator;
    var d, t := data[idx..], data[idx + 1..];
    assert d[1..] == t;
    assert Left(data, idx + 1, end) == t[..end - idx - 1];
    assert CharAt(data, end) == CharAt(t, end - idx - 1);
    assert Left(data, next, |data|) == t[Min(next - idx - 1, |t|)..];
  }

  /**
   * Decodes `data` into `result`, or with a null buffer only counts: the answer is
   * the same either way, and `None` stands for the thrown `out_of_range`. `stores`
   * lists the indices stored to, in order.
   */
  method DecodeText(data: seq<Byte>, result: array?<Byte>, escaped: bool)
    returns (r: Option<nat>, ghost stores: seq<nat>)
    requires TotalAnnounced(data, escaped) < 0x8000_0000
    requires result != null ==> TotalAnnounced(data, escaped) <= result.Length
    modifies result
    ensures var bytes := Decode(data, escaped);
            && r == (if bytes.Some? then Some(|bytes.value|) else None)
            && (r.Some? && result != null ==> Wrote(result[..], old(result[..]), 0, bytes.value))
            && (r.Some? ==> stores == if result != null then Range(0, r.value) else [])
  {
    hide Range, Decode, TotalAnnounced, DecodeLine, FindTerminator, Wrote, CharAt, Value;
    var sz, idx := 0, 0;
    stores := [];
    RangeAppend(0, 0, 0);
    ghost var all := Decode(data, escaped);
    ghost var todo, announced := all, TotalAnnounced(data, escaped);
    ghost var done: seq<Byte> := [];
    PrependNothing(all);
    DecodeNothing(escaped);
    if result != null {
      WroteNothing(result[..], 0);
    }
    assert Left(data, 0, |data|) == data;
    while idx < |data|
      invariant 0 <= idx && |done| == sz
      invariant stores == if result != null then Range(0, sz) else []
      invariant announced == TotalAnnounced(Left(data, idx, |data|), escaped)
      invariant sz + announced == TotalAnnounced(data, escaped)
      invariant todo == Decode(Left(data, idx, |data|), escaped)
      invariant all == Prepend(done, todo)
      invariant result != null ==> Wrote(result[..], old(result[..]), 0, done)
    {
      label Before:
      var len := Value(data[idx]);
      var end := idx + 1 + FindTerminator(data[idx + 1..], escaped);
      ghost var next := if escaped then end + 2 else end + 1;
      DecodeStep(data, idx, escaped, end, next);
      ghost var line := DecodeLine(Left(data, idx + 1, end), CharAt(data, end), escaped, len);
      idx := idx + 1;
      ghost var line', from := [], sz;
      var ok;
      ok, sz, line' := DecodeLineInto(data, idx, end, escaped, len, result, sz);
      if !ok {
        return None, stores;
      }
      RangeAppend(0, from, sz);
      stores := stores + line';
      todo := Decode(Left(data, next, |data|), escaped);
      announced := TotalAnnounced(Left(data, next, |data|), escaped);
      PrependTwice(done, line.value, todo);
      if result != null {
        WroteTwice(result[..], old@Before(result[..]), old(result[..]), 0, done, line.value);
      }
      done := done + line.value;
      idx := if escaped then end + 2 else end + 1;
    }
    assert Left(data, idx, |data|) == [] && done + [] == done;
    r := Some(sz);
  }
}
