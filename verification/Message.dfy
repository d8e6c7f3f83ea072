/** The growable message buffer with its put and get cursors, and the byte sequence it stands for. */
module Message {
  import opened Bytes

  /** The buffer grows by multiples of this many bytes. */
  const GROWTH: nat := 1024

  /** The longest message whose capacity, a multiple of GROWTH, still fits a `uint32_t`. */
  const MSG_LIMIT: nat := U32 - GROWTH

  // ---- what the cursors mean, on the byte sequence alone ----

  datatype Item = U8(b: Byte) | U32Item(v: nat) | Blob(bytes: seq<Byte>)

  datatype Kind = KindU8 | KindU32 | KindBlob(size: nat)

  function KindOf(item: Item): Kind {
    match item
    case U8(_) => KindU8
    case U32Item(_) => KindU32
    case Blob(bytes) => KindBlob(|bytes|)
  }

  /** The bytes one put appends. */
  function ItemBytes(item: Item): seq<Byte> {
    match item
    case U8(b) => [b]
    case U32Item(v) => Le32(v)
    case Blob(bytes) => bytes
  }

  /** What `get8` returns and where it leaves the cursor: an exhausted buffer yields 0 and does not move it. */
  function ReadU8(c: seq<Byte>, at: nat): (Byte, nat) {
    if at < |c| then (c[at], at + 1) else (0, at)
  }

  function ReadU32(c: seq<Byte>, at: nat): (r: (nat, nat)) {
    if at + 4 <= |c| then (FromLe32(c[at..at + 4]), at + 4) else (0, at)
  }

  /** What `read` copies out; `None` when it leaves the destination alone. */
  function ReadBlob(c: seq<Byte>, at: nat, size: nat): (Option<seq<Byte>>, nat) {
    if at + size <= |c| then (Some(c[at..at + size]), at + size) else (None, at)
  }

  /** A get that lacks bytes yields 0, or leaves the destination alone, and does not move the cursor. */
  lemma GetsPastTheEnd(c: seq<Byte>, at: nat, size: nat)
    ensures at >= |c| ==> ReadU8(c, at) == (0, at)
    ensures at + 4 > |c| ==> ReadU32(c, at) == (0, at)
    ensures at + size > |c| ==> ReadBlob(c, at, size) == (None, at)
  {
  }

  function GetItem(c: seq<Byte>, at: nat, kind: Kind): (Option<Item>, nat) {
    match kind
    case KindU8 => var (b, at') := ReadU8(c, at); (Some(U8(b)), at')
    case KindU32 => var (v, at') := ReadU32(c, at); (Some(U32Item(v)), at')
    case KindBlob(size) =>
      var (bytes, at') := ReadBlob(c, at, size);
      (if bytes.Some? then Some(Blob(bytes.value)) else None, at')
  }

  function PutAll(items: seq<Item>): seq<Byte> {
    if items == [] then [] else ItemBytes(items[0]) + PutAll(items[1..])
  }

  function GetAll(c: seq<Byte>, at: nat, kinds: seq<Kind>): (seq<Option<Item>>, nat)
    decreases |kinds|
  {
    if kinds == [] then ([], at)
    else
      var (item, at') := GetItem(c, at, kinds[0]);
      var (items, end) := GetAll(c, at', kinds[1..]);
      ([item] + items, end)
  }

  function Kinds(items: seq<Item>): seq<Kind> {
    seq(|items|, i requires 0 <= i < |items| => KindOf(items[i]))
  }

  function Present(items: seq<Item>): seq<Option<Item>> {
    seq(|items|, i requires 0 <= i < |items| => Some(items[i]))
  }

  predicate Fields32(items: seq<Item>) {
    forall i :: 0 <= i < |items| && items[i].U32Item? ==> items[i].v < U32
  }

  lemma GetPutItem(before: seq<Byte>, item: Item, after: seq<Byte>)
    requires item.U32Item? ==> item.v < U32
    ensures GetItem(before + ItemBytes(item) + after, |before|, KindOf(item))
         == (Some(item), |before| + |ItemBytes(item)|)
  {
    var mine := ItemBytes(item);
    var c := before + mine + after;
    assert c[|before|..|before| + |mine|] == mine;
    match item
    case U8(b) => assert c[|before|] == mine[0];
    case U32Item(v) => Le32RoundTrip(v);
    case Blob(_) =>
  }

  lemma GetAllStep(c: seq<Byte>, at: nat, items: seq<Item>)
    requires items != []
    ensures var (item, next) := GetItem(c, at, KindOf(items[0]));
            var (rest, end) := GetAll(c, next, Kinds(items[1..]));
            GetAll(c, at, Kinds(items)) == ([item] + rest, end)
    ensures Present(items) == [Some(items[0])] + Present(items[1..])
  {
    hide GetItem;
    assert Kinds(items)[1..] == Kinds(items[1..]) && Kinds(items)[0] == KindOf(items[0]);
  }

  /** Getting with the same types gives back every item put, wherever in the buffer they sit. */
  lemma {:induction false} ItemsRoundTrip(before: seq<Byte>, items: seq<Item>, after: seq<Byte>)
    requires Fields32(items)
    ensures GetAll(before + PutAll(items) + after, |before|, Kinds(items))
         == (Present(items), |before| + |PutAll(items)|)
    decreases |items|
  {
    var c := before + PutAll(items) + after;
    if items == [] {
      assert Kinds(items) == [] && Present(items) == [];
    } else {
      var item, rest := items[0], items[1..];
      var mine := ItemBytes(item);
      assert c == (before + mine) + PutAll(rest) + after;
      assert c == before + mine + (PutAll(rest) + after);
      hide GetItem, ItemBytes, KindOf, Kinds, Present;
      GetPutItem(before, item, PutAll(rest) + after);
      ItemsRoundTrip(before + mine, rest, after);
      GetAllStep(c, |before|, items);
    }
  }

  /** No get moves the cursor past the bytes put, and one that lacks bytes does not move it at all. */
  lemma {:induction false} CursorStaysInside(c: seq<Byte>, at: nat, kinds: seq<Kind>)
    requires at <= |c|
    ensures at <= GetAll(c, at, kinds).1 <= |c|
    decreases |kinds|
  {
    if kinds != [] {
      CursorStaysInside(c, GetItem(c, at, kinds[0]).1, kinds[1..]);
    }
  }

  // ---- the buffer itself ----

  class Msg {
    var data: array<Byte>
    var getIdx: nat
    var putIdx: nat
    var max: nat

    ghost predicate Valid()
      reads this, data
    {
      && putIdx <= max == data.Length
      && max % GROWTH == 0
      && GROWTH <= max <= MSG_LIMIT
      && getIdx <= MSG_LIMIT
    }

    /** The bytes put since the last `ResetPut`. */
    function Contents(): seq<Byte>
      requires putIdx <= data.Length
      reads this, data
    {
      data[..putIdx]
    }

    constructor ()
      ensures Valid() && fresh(data)
      ensures Contents() == [] && getIdx == 0
    {
      getIdx, putIdx, max := 0, 0, 1024;
      data := new Byte[1024];
    }

    constructor Copy(other: Msg)
      requires other.Valid()
      ensures Valid() && fresh(data)
      ensures Contents() == other.Contents() && getIdx == other.getIdx && max == other.max
    {
      getIdx, putIdx, max := other.getIdx, other.putIdx, other.max;
      var t := other.data;
      data := new Byte[other.max](i requires 0 <= i < t.Length reads t => t[i]);
    }

    method Assign(rhs: Msg)
      requires rhs != this && rhs.Valid()
      modifies this
      ensures Valid() && fresh(data)
      ensures Contents() == rhs.Contents() && getIdx == rhs.getIdx && max == rhs.max
    {
      var t := rhs.data;
      data := new Byte[rhs.max](i requires 0 <= i < t.Length reads t => t[i]);
      max := rhs.max;
      getIdx := rhs.getIdx;
      putIdx := rhs.putIdx;
    }

    method ResetPut()
      requires Valid()
      modifies this`putIdx
      ensures Valid() && Contents() == []
    {
      putIdx := 0;
    }

    /** Moves the contents to a larger array. */
    method Grow(capacity: nat)
      requires Valid()
      requires max <= capacity <= MSG_LIMIT && capacity % GROWTH == 0
      modifies this`data, this`max
      ensures Valid() && fresh(data) && max == capacity
      ensures Contents() == old(Contents())
    {
      var t := data;
      max := capacity;
      data := new Byte[capacity];
      forall i | 0 <= i < putIdx {
        data[i] := t[i];
      }
    }

    method Put8(v: Byte)
      requires Valid() && putIdx + 1 <= MSG_LIMIT
      modifies this, data
      ensures Valid() && (data == old(data) || fresh(data))
      ensures Contents() == old(Contents()) + ItemBytes(U8(v)) && getIdx == old(getIdx)
      ensures max == if old(putIdx) + 1 > old(max) then old(max) + GROWTH else old(max)
    {
      if putIdx >= max {
        Grow(max + 1024);
      }
      data[putIdx] := v;
      putIdx := putIdx + 1;
    }

    method Put32(v: nat)
      requires Valid() && putIdx + 4 <= MSG_LIMIT
      modifies this, data
      ensures Valid() && (data == old(data) || fresh(data))
      ensures Contents() == old(Contents()) + ItemBytes(U32Item(v)) && getIdx == old(getIdx)
      ensures max == if old(putIdx) + 4 > old(max) then old(max) + GROWTH else old(max)
    {
      if putIdx + 4 > max {
        Grow(max + 1024);
      }
      ghost var was := data[..putIdx];
      var i := putIdx;
      assert was == old(Contents());
      data[i], data[i + 1] := v % 256, v / 256 % 256;
      data[i + 2], data[i + 3] := v / 65536 % 256, v / 16777216 % 256;
      putIdx := i + 4;
      assert data[..i + 4] == was + [v % 256, v / 256 % 256, v / 65536 % 256, v / 16777216 % 256];
    }

    method Write(p: seq<Byte>)
      requires Valid() && putIdx + |p| <= MSG_LIMIT
      modifies this, data
      ensures Valid() && (data == old(data) || fresh(data))
      ensures Contents() == old(Contents()) + ItemBytes(Blob(p)) && getIdx == old(getIdx)
      ensures old(putIdx) + |p| <= old(max) ==> max == old(max)
      ensures old(putIdx) + |p| > old(max) ==> putIdx <= max < putIdx + GROWTH
    {
      if putIdx + |p| > max {
        Grow(((putIdx + |p| - 1) / 1024 + 1) * 1024);
      }
      var from := putIdx;
      forall i | 0 <= i < |p| {
        data[from + i] := p[i];
      }
      putIdx := putIdx + |p|;
      assert Contents() == old(Contents()) + p;
    }

    method Get8() returns (v: Byte)
      requires Valid()
      modifies this`getIdx
      ensures Valid()
      ensures (v, getIdx) == ReadU8(Contents(), old(getIdx))
    {
      if getIdx < putIdx {
        v := data[getIdx];
        getIdx := getIdx + 1;
      } else {
        v := 0;
      }
    }

    method Get32() returns (v: nat)
      requires Valid()
      modifies this`getIdx
      ensures Valid()
      ensures (v, getIdx) == ReadU32(Contents(), old(getIdx))
    {
      if getIdx + 4 <= putIdx {
        assert Contents()[getIdx..getIdx + 4]
            == [data[getIdx], data[getIdx + 1], data[getIdx + 2], data[getIdx + 3]];
        v := data[getIdx] as int + 256 * (data[getIdx + 1] as int)
          + 65536 * (data[getIdx + 2] as int) + 16777216 * (data[getIdx + 3] as int);
        getIdx := getIdx + 4;
      } else {
        v := 0;
      }
    }

    /** Copies `size` bytes to `dst` from index `at` on, or does nothing when fewer are left. */
    method Read(dst: array<Byte>, at: nat, size: nat)
      requires Valid() && dst != data
      requires getIdx + size < U32
      requires ReadBlob(Contents(), getIdx, size).0.Some? ==> at + size <= dst.Length
      modifies this`getIdx, dst
      ensures Valid()
      ensures getIdx == ReadBlob(Contents(), old(getIdx), size).1
      ensures match ReadBlob(Contents(), old(getIdx), size).0
              case Some(bytes) => dst[..] == old(dst[..at]) + bytes + old(dst[at + size..])
              case None => dst[..] == old(dst[..])
    {
      if getIdx + size <= putIdx {
        var from := getIdx;
        forall i | 0 <= i < size {
          dst[at + i] := data[from + i];
        }
        getIdx := getIdx + size;
        assert dst[at..at + size] == old(Contents()[getIdx..getIdx + size]);
        assert dst[..] == dst[..at] + dst[at..at + size] + dst[at + size..];
      }
    }
  }
}
