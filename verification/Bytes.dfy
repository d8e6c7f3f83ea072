/** Bytes, 32-bit fields and the small wrapper types every other module uses. */
module Bytes {

  type Byte = x: int | 0 <= x < 256

  /** One past the largest `uint32_t`. */
  const U32: nat := 0x1_0000_0000

  datatype Option<+T> = None | Some(value: T)

  /** The four bytes of `v`, low byte first; like the shifts of the source it keeps only the low 32 bits. */
  function Le32(v: nat): (r: seq<Byte>)
    ensures |r| == 4
  {
    [v % 256, v / 256 % 256, v / 65536 % 256, v / 16777216 % 256]
  }

  function FromLe32(s: seq<Byte>): (v: nat)
    requires |s| == 4
    ensures v < U32
  {
    s[0] as int + 256 * (s[1] as int) + 65536 * (s[2] as int) + 16777216 * (s[3] as int)
  }

  /** Low byte first: eight more low bits go in front, and the top byte falls off. */
  lemma LowByteFirst(v: nat, b: Byte)
    ensures Le32(0) == [0, 0, 0, 0]
    ensures Le32(256 * v + b) == [b] + Le32(v)[..3]
  {
    var w: nat := 256 * v + b;
    assert w / 256 == v && w % 256 == b as int;
    assert w / 65536 == v / 256 && w / 16777216 == v / 65536;
  }

  lemma Le32RoundTrip(v: nat)
    ensures FromLe32(Le32(v)) == v % U32
    ensures v < U32 ==> FromLe32(Le32(v)) == v
  {
    var q1, q2, q3, q4 := v / 256, v / 65536, v / 16777216, v / U32;
    assert q2 == q1 / 256 && q3 == q2 / 256 && q4 == q3 / 256;
    assert v == U32 * q4 + FromLe32(Le32(v));
  }

  /** Concatenation of a list of byte strings. */
  function Concat(ss: seq<seq<Byte>>): seq<Byte> {
    if ss == [] then [] else ss[0] + Concat(ss[1..])
  }

  function Min(a: nat, b: nat): (m: nat)
    ensures m <= a && m <= b
  {
    if a < b then a else b
  }

  lemma Regroup<T>(a: seq<T>, b: seq<T>, c: seq<T>)
    ensures a + (b + c) == a + b + c
  {
  }
}
