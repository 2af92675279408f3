/** Lua values and tables as the marshal library sees them, and their encoding as a function. */
module MarshalData {
  import opened Rotations

  /** A value; numbers are the eight bytes they are stored in, and a table is named by its place in the heap. */
  datatype Value = Nil | Bool(b: bool) | Num(bytes: seq<Byte>) | Str(s: seq<Byte>) | Table(t: nat)

  datatype Entry = Entry(key: Value, value: Value)

  /** The tables, each with its entries in the order in which lua_next visits them. */
  type Heap = seq<seq<Entry>>

  const TNIL: Byte := 0
  const TBOOLEAN: Byte := 1
  const TNUMBER: Byte := 3
  const TSTRING: Byte := 4
  const TTABLE: Byte := 5
  const MAR_TREF: Byte := 1
  const MAR_TVAL: Byte := 2
  const MAR_MAGIC: Byte := 0x8f
  const LIMIT := 0x1_0000_0000

  predicate GoodValue(v: Value, n: nat) {
    match v
    case Num(bytes) => |bytes| == 8
    case Table(t) => t < n
    case _ => true
  }

  /** A NaN: exponent bits all set, and some other bit of the fraction. */
  predicate IsNaN(v: Value) {
    v.Num? && |v.bytes| == 8 && v.bytes[7] % 128 == 127 && v.bytes[6] >= 0xf0
    && (v.bytes[6] > 0xf0 || exists i | 0 <= i < 6 :: v.bytes[i] != 0)
  }

  /** What may be a key of a table. */
  predicate IsKey(v: Value) {
    v != Nil && !IsNaN(v)
  }

  /** Entries as a table can have them: no nil, and no key twice. */
  predicate GoodEntries(es: seq<Entry>, n: nat) {
    && (forall i | 0 <= i < |es| ::
        GoodValue(es[i].key, n) && GoodValue(es[i].value, n) && IsKey(es[i].key) && es[i].value != Nil)
    && (forall i, j | 0 <= i < j < |es| :: es[i].key != es[j].key)
  }

  predicate GoodHeap(h: Heap) {
    forall t | 0 <= t < |h| :: GoodEntries(h[t], |h|)
  }

  // ---- numbers in the code

  /** The low four bytes of n, the least significant first. */
  function Le32(n: int): (r: seq<Byte>)
    requires n >= 0
    ensures |r| == 4
  {
    [n % 256, n / 256 % 256, n / 0x1_0000 % 256, n / 0x100_0000 % 256]
  }

  function ReadLe32(s: seq<Byte>): (n: nat)
    requires |s| >= 4
  {
    var a: int, b: int, c: int, d: int := s[0], s[1], s[2], s[3];
    a + 256 * b + 0x1_0000 * c + 0x100_0000 * d
  }

  lemma {:induction false} Le32Back(n: int, rest: seq<Byte>)
    requires 0 <= n < LIMIT
    ensures ReadLe32(Le32(n) + rest) == n
  {
    var q1 := n / 256;
    var q2 := q1 / 256;
    var q3 := q2 / 256;
    assert n / 0x1_0000 == q2 && n / 0x100_0000 == q3 && q3 < 256;
  }

  // ---- constants

  /**
   * The table of constants that encoder and decoder are given, from 1 to its length. They are not written, only their
   * numbers are.
   */
  type Constants = seq<Value>

  predicate GoodConstants(cs: Constants, n: nat) {
    forall i | 0 <= i < |cs| :: GoodValue(cs[i], n)
  }

  /** The tables met so far, with their numbers. */
  type Seen = map<nat, nat>

  /** A table's number among the constants; if it is there twice, the last one. */
  function Numbered(cs: Constants): (seen: Seen)
    ensures forall t | t in seen :: 1 <= seen[t] <= |cs| && cs[seen[t] - 1] == Table(t)
  {
    if cs == [] then map[]
    else
      var n := |cs| - 1;
      var seen := Numbered(cs[..n]);
      if cs[n].Table? then seen[cs[n].t := |cs|] else seen
  }

  /** The tables made so far, what is stored under which number, and the next number. */
  datatype Made = Made(heap: Heap, seen: map<int, Value>, idx: nat)

  /** The constants by their numbers. */
  function Stored(cs: Constants): (m: map<int, Value>)
    ensures forall i :: i in m <==> 1 <= i <= |cs|
    ensures forall i | i in m :: m[i] == cs[i - 1]
  {
    if cs == [] then map[]
    else
      var n := |cs| - 1;
      Stored(cs[..n])[|cs| := cs[n]]
  }

  /** What the decoder starts from: tables that are there already, and the constants. */
  function Before(h: Heap, cs: Constants): Made {
    Made(h, Stored(cs), |cs| + 1)
  }

  // ---- encoding

  /**
   * The code written, the tables met by then, and the next number; or an error: a buffer that is too long, or a
   * constant that cannot be a key.
   */
  datatype Code = Code(bytes: seq<Byte>, seen: Seen, idx: nat) | Refused

  function Unseen(h: Heap, seen: Seen): set<nat> {
    set t: nat | t < |h| && t !in seen
  }

  lemma {:induction false} SeenMore(h: Heap, seen: Seen, t: nat, idx: nat)
    requires t < |h| && t !in seen
    ensures |Unseen(h, seen[t := idx])| < |Unseen(h, seen)|
  {
    assert Unseen(h, seen[t := idx]) == Unseen(h, seen) - {t};
  }

  lemma {:induction false} SeenLess(h: Heap, a: Seen, c: Seen)
    requires a.Keys <= c.Keys
    ensures |Unseen(h, c)| <= |Unseen(h, a)|
  {
    SubsetSize(Unseen(h, c), Unseen(h, a));
  }

  lemma {:induction false} SubsetSize(a: set<nat>, b: set<nat>)
    requires a <= b
    ensures |a| <= |b|
  {
    assert b == a + (b - a);
  }

  /** mar_encode_value */
  function EncodeValue(h: Heap, v: Value, seen: Seen, idx: nat): (c: Code)
    requires GoodHeap(h) && GoodValue(v, |h|)
    ensures c.Code? ==> seen.Keys <= c.seen.Keys
    decreases |Unseen(h, seen)|, 0
  {
    match v
    case Nil => Code([TNIL], seen, idx)
    case Bool(b) => Code([TBOOLEAN, if b then 1 else 0], seen, idx)
    case Num(bytes) => Code([TNUMBER] + bytes, seen, idx)
    case Str(s) => if |s| >= LIMIT then Refused else Code([TSTRING] + Le32(|s|) + s, seen, idx)
    case Table(t) =>
      if t in seen then Code([TTABLE, MAR_TREF] + Le32(seen[t]), seen, idx)
      else
        SeenMore(h, seen, t, idx);
        var c := EncodeEntries(h, h[t], seen[t := idx], idx + 1);
        if c.Refused? || |c.bytes| >= LIMIT then Refused
        else Code([TTABLE, MAR_TVAL] + Le32(|c.bytes|) + c.bytes, c.seen, c.idx)
  }

  /** mar_encode_table */
  function EncodeEntries(h: Heap, es: seq<Entry>, seen: Seen, idx: nat): (c: Code)
    requires GoodHeap(h) && forall i | 0 <= i < |es| :: GoodValue(es[i].key, |h|) && GoodValue(es[i].value, |h|)
    ensures c.Code? ==> seen.Keys <= c.seen.Keys
    decreases |Unseen(h, seen)|, 1, |es|
  {
    if es == [] then Code([], seen, idx)
    else
      var k := EncodeValue(h, es[0].key, seen, idx);
      if k.Refused? then Refused
      else
        SeenLess(h, seen, k.seen);
        var x := EncodeValue(h, es[0].value, k.seen, k.idx);
        if x.Refused? then Refused
        else
          SeenLess(h, k.seen, x.seen);
          var r := EncodeEntries(h, es[1..], x.seen, x.idx);
          if r.Refused? then Refused else Code(k.bytes + x.bytes + r.bytes, r.seen, r.idx)
  }

  // ---- decoding

  /** What has been decoded, and the code behind it; or an error. */
  datatype Decoded = Got(v: Value, rest: seq<Byte>, m: Made) | Filled(m: Made) | Failed

  /** lua_rawset: nil takes the key away. */
  function RawSet(es: seq<Entry>, k: Value, v: Value): (r: seq<Entry>) {
    if es == [] then if v == Nil then [] else [Entry(k, v)]
    else if es[0].key == k then if v == Nil then es[1..] else [Entry(k, v)] + es[1..]
    else [es[0]] + RawSet(es[1..], k, v)
  }

  /** A 32-bit number with its sign. */
  function Signed(n: nat): int {
    if n < 0x8000_0000 then n else n - LIMIT
  }

  /** mar_decode_value; functions and userdata are not part of the model, and fail. */
  function DecodeValue(s: seq<Byte>, m: Made): (d: Decoded)
    ensures !d.Filled? && (d.Got? ==> |d.rest| < |s| && |d.m.heap| >= |m.heap|)
    ensures d.Got? ==> |d.m.heap| - |m.heap| == d.m.idx - m.idx
    decreases |s|, 0
  {
    if |s| < 1 then Failed
    else if s[0] == TNIL || s[0] == 8 then Got(Nil, s[1..], m)
    else if s[0] == TBOOLEAN then
      if |s| < 2 then Failed else Got(Bool(s[1] != 0), s[2..], m)
    else if s[0] == TNUMBER then
      if |s| < 9 then Failed else Got(Num(s[1..9]), s[9..], m)
    else if s[0] == TSTRING then
      if |s| < 5 then Failed
      else
        var l := ReadLe32(s[1..]);
        if |s| < 5 + l then Failed else Got(Str(s[5..5 + l]), s[5 + l..], m)
    else if s[0] == TTABLE then
      if |s| < 6 then Failed
      else
        var n := ReadLe32(s[2..]);
        if s[1] == MAR_TREF then
          Got(if Signed(n) in m.seen then m.seen[Signed(n)] else Nil, s[6..], m)
        else if s[1] == MAR_TVAL then
          if |s| < 6 + n then Failed
          else
            var t := |m.heap|;
            var d := DecodeEntries(s[6..6 + n], Made(m.heap + [[]], m.seen[m.idx := Table(t)], m.idx + 1), t);
            if d.Failed? then Failed else Got(Table(t), s[6 + n..], d.m)
        else Failed
    else Failed
  }

  /** mar_decode_table, into table t */
  function DecodeEntries(s: seq<Byte>, m: Made, t: nat): (d: Decoded)
    requires t < |m.heap|
    ensures !d.Got? && (d.Filled? ==> |d.m.heap| >= |m.heap| && |d.m.heap| - |m.heap| == d.m.idx - m.idx)
    decreases |s|, 1
  {
    if s == [] then Filled(m)
    else
      var k := DecodeValue(s, m);
      if k.Failed? then Failed
      else
        var x := DecodeValue(k.rest, k.m);
        if x.Failed? || !IsKey(k.v) then Failed
        else
          DecodeEntries(x.rest, Made(x.m.heap[t := RawSet(x.m.heap[t], k.v, x.v)], x.m.seen, x.m.idx), t)
  }
}
