/**
 * The order in which the decoder reads and checks: a type byte, a boolean, a number, the contents of a string and of a
 * table are looked at first, and only then compared with the length of the code. What is behind the code in memory is
 * its closing zero, and nothing that may be read.
 */
module MarshalReads {
  import opened Rotations
  import opened MarshalData
  import MarshalRoundTrip

  /** A value or the end of a table's entries, with the place behind it; an error; or a look behind the memory. */
  datatype Outcome = Read(v: Value, p: nat, m: Made) | Reached(p: nat, m: Made) | Error | Outside

  /** mar_decode_value at place p, in code that ends at end. */
  function ReadValue(mem: seq<Byte>, p: nat, end: nat, m: Made): (r: Outcome)
    requires p <= |mem|
    ensures !r.Reached? && (r.Read? ==> p < r.p <= end && r.p <= |mem| && |r.m.heap| >= |m.heap|)
    decreases |mem| - p, 0
  {
    if p + 1 > |mem| then Outside
    else if p + 1 > end then Error
    else if mem[p] == TNIL || mem[p] == 8 then Read(Nil, p + 1, m)
    else if mem[p] == TBOOLEAN then
      if p + 2 > |mem| then Outside else if p + 2 > end then Error else Read(Bool(mem[p + 1] != 0), p + 2, m)
    else if mem[p] == TNUMBER then
      if p + 9 > |mem| then Outside else if p + 9 > end then Error else Read(Num(mem[p + 1..p + 9]), p + 9, m)
    else if mem[p] == TSTRING then
      if p + 5 > end then Error
      else if p + 5 > |mem| then Outside
      else
        var q := p + 5 + ReadLe32(mem[p + 1..]);
        if q > |mem| then Outside else if q > end then Error else Read(Str(mem[p + 5..q]), q, m)
    else if mem[p] == TTABLE then
      if p + 2 > |mem| then Outside
      else if p + 2 > end || mem[p + 1] !in {MAR_TREF, MAR_TVAL} || p + 6 > end then Error
      else if p + 6 > |mem| then Outside
      else
        var n := ReadLe32(mem[p + 2..]);
        if mem[p + 1] == MAR_TREF then Read(if Signed(n) in m.seen then m.seen[Signed(n)] else Nil, p + 6, m)
        else
          var t := |m.heap|;
          var r := ReadEntries(mem, p + 6, p + 6 + n, Made(m.heap + [[]], m.seen[m.idx := Table(t)], m.idx + 1), t);
          if !r.Reached? then r
          else if p + 6 + n > end then Error
          else Read(Table(t), p + 6 + n, r.m)
    else Error
  }

  /** mar_decode_table, into table t. */
  function ReadEntries(mem: seq<Byte>, p: nat, end: nat, m: Made, t: nat): (r: Outcome)
    requires p <= |mem| && t < |m.heap|
    ensures !r.Read? && (r.Reached? ==> r.p <= |mem| && |r.m.heap| >= |m.heap| && (p <= end ==> r.p == end))
    decreases |mem| - p, 1
  {
    if p >= end then Reached(p, m)
    else
      var k := ReadValue(mem, p, end, m);
      if !k.Read? then k
      else
        var x := ReadValue(mem, k.p, end, k.m);
        if !x.Read? then x
        else if !IsKey(k.v) then Error
        else ReadEntries(mem, x.p, end, Made(x.m.heap[t := RawSet(x.m.heap[t], k.v, x.v)], x.m.seen, x.m.idx), t)
  }

  /** Where decoding by checks made first succeeds, so does this, without a look outside; where it fails, this does. */
  ghost predicate Agrees(mem: seq<Byte>, end: nat, d: Decoded, r: Outcome)
    requires end <= |mem|
  {
    match d
    case Got(v, rest, m) => |rest| <= end && rest == mem[end - |rest|..end] && r == Read(v, end - |rest|, m)
    case Filled(m) => r == Reached(end, m)
    case Failed => r == Error || r == Outside
  }

  lemma {:induction false} ValueAgrees(mem: seq<Byte>, p: nat, end: nat, m: Made)
    requires p <= end <= |mem|
    ensures Agrees(mem, end, DecodeValue(mem[p..end], m), ReadValue(mem, p, end, m))
    decreases end - p, 0
  {
    hide DecodeValue, ReadValue;
    if p < end && mem[p] == TTABLE {
      if p + 6 <= end { TableAgrees(mem, p, end, m); }
      TableValueAgrees(mem, p, end, m);
    } else if p < end && mem[p] == TSTRING {
      StringAgrees(mem, p, end, m);
    } else {
      ScalarAgrees(mem, p, end, m);
    }
  }

  lemma {:induction false} ScalarAgrees(mem: seq<Byte>, p: nat, end: nat, m: Made)
    requires p <= end <= |mem| && (p < end ==> mem[p] != TTABLE && mem[p] != TSTRING)
    ensures Agrees(mem, end, DecodeValue(mem[p..end], m), ReadValue(mem, p, end, m))
  {
    hide ReadLe32, Signed;
    if p + 1 <= end { Behind(mem, p, end, 1); }
    if p + 2 <= end { Behind(mem, p, end, 2); }
    if p + 9 <= end {
      Behind(mem, p, end, 9);
      Part(mem, p, end, 1, 9);
    }
  }

  lemma {:induction false} StringAgrees(mem: seq<Byte>, p: nat, end: nat, m: Made)
    requires p < end <= |mem| && mem[p] == TSTRING
    ensures Agrees(mem, end, DecodeValue(mem[p..end], m), ReadValue(mem, p, end, m))
  {
    hide ReadLe32, Signed;
    if p + 5 <= end {
      SameNumber(mem, p + 1, end);
      Behind(mem, p, end, 1);
      var l := ReadLe32(mem[p + 1..]);
      if p + 5 + l <= end {
        Behind(mem, p, end, 5 + l);
        Part(mem, p, end, 5, 5 + l);
      }
    }
  }

  lemma {:induction false} TableValueAgrees(mem: seq<Byte>, p: nat, end: nat, m: Made)
    requires p < end <= |mem| && mem[p] == TTABLE && (p + 6 <= end ==> TableDone(mem, p, end, m))
    ensures Agrees(mem, end, DecodeValue(mem[p..end], m), ReadValue(mem, p, end, m))
  {
    hide DecodeEntries, ReadEntries, ReadLe32, Signed;
    if p + 6 <= end {
      SameNumber(mem, p + 2, end);
      Behind(mem, p, end, 2);
      Behind(mem, p, end, 6);
      var n := ReadLe32(mem[p + 2..]);
      if p + 6 + n <= end { Behind(mem, p, end, 6 + n); }
    }
  }

  lemma {:induction false} Part(mem: seq<Byte>, p: nat, end: nat, a: nat, b: nat)
    requires p <= end <= |mem| && a <= b <= end - p
    ensures mem[p..end][a..b] == mem[p + a..p + b]
  {
    var s := mem[p..end];
    forall i | 0 <= i < b - a
      ensures s[a..b][i] == mem[p + a..p + b][i]
    {
      assert s[a..b][i] == s[a + i] == mem[p + a + i];
    }
  }

  lemma {:induction false} Behind(mem: seq<Byte>, p: nat, end: nat, k: nat)
    requires p + k <= end <= |mem|
    ensures mem[p..end][k..] == mem[p + k..end]
  {
    Part(mem, p, end, k, end - p);
  }

  lemma {:induction false} SameNumber(mem: seq<Byte>, p: nat, end: nat)
    requires p + 4 <= end <= |mem|
    ensures ReadLe32(mem[p..end]) == ReadLe32(mem[p..])
  {
  }

  /** The contents of a table, if the code has all of them. */
  ghost predicate TableDone(mem: seq<Byte>, p: nat, end: nat, m: Made)
    requires p + 6 <= end <= |mem|
  {
    var n, t := ReadLe32(mem[p + 2..]), |m.heap|;
    var m' := Made(m.heap + [[]], m.seen[m.idx := Table(t)], m.idx + 1);
    p + 6 + n <= end ==>
      Agrees(mem, p + 6 + n, DecodeEntries(mem[p..end][6..6 + n], m', t), ReadEntries(mem, p + 6, p + 6 + n, m', t))
  }

  lemma {:induction false} TableAgrees(mem: seq<Byte>, p: nat, end: nat, m: Made)
    requires p + 6 <= end <= |mem|
    ensures TableDone(mem, p, end, m)
    decreases end - p - 1, 2
  {
    hide DecodeEntries, ReadEntries, ReadLe32;
    var n, t := ReadLe32(mem[p + 2..]), |m.heap|;
    if p + 6 + n <= end {
      Part(mem, p, end, 6, 6 + n);
      EntriesAgree(mem, p + 6, p + 6 + n, Made(m.heap + [[]], m.seen[m.idx := Table(t)], m.idx + 1), t);
    }
  }

  lemma {:induction false} EntriesAgree(mem: seq<Byte>, p: nat, end: nat, m: Made, t: nat)
    requires p <= end <= |mem| && t < |m.heap|
    ensures Agrees(mem, end, DecodeEntries(mem[p..end], m, t), ReadEntries(mem, p, end, m, t))
    decreases end - p, 1
  {
    hide DecodeValue, ReadValue, RawSet, IsKey;
    if p < end {
      ValueAgrees(mem, p, end, m);
      var k := DecodeValue(mem[p..end], m);
      if k.Got? {
        var q := end - |k.rest|;
        ValueAgrees(mem, q, end, k.m);
        var x := DecodeValue(k.rest, k.m);
        if x.Got? && IsKey(k.v) {
          EntriesAgree(mem, end - |x.rest|, end, Made(x.m.heap[t := RawSet(x.m.heap[t], k.v, x.v)], x.m.seen, x.m.idx),
            t);
        }
      }
    }
  }

  /** mar_decode on a string of Lua's, which a zero follows. */
  function Decode(s: seq<Byte>, h: Heap, cs: Constants): Outcome {
    if |s| < 1 || s[0] != MAR_MAGIC then Error else ReadValue(s[1..] + [0], 0, |s| - 1, Before(h, cs))
  }

  /** What is decoded, and with which result, does not depend on the order of looks and checks. */
  lemma {:induction false} DecodesTheSame(s: seq<Byte>, h: Heap, cs: Constants)
    ensures Decode(s, h, cs).Read? <==> MarshalRoundTrip.Unmarshal(s, h, cs).Got?
    ensures Decode(s, h, cs).Read? ==>
      Decode(s, h, cs).v == MarshalRoundTrip.Unmarshal(s, h, cs).v &&
      Decode(s, h, cs).m == MarshalRoundTrip.Unmarshal(s, h, cs).m
  {
    hide DecodeValue, ReadValue, Stored;
    if |s| >= 1 {
      ValueAgrees(s[1..] + [0], 0, |s| - 1, Before(h, cs));
      assert (s[1..] + [0])[0..|s| - 1] == s[1..];
    }
  }

  /** On code that mar_encode has written, nothing outside is looked at, whatever follows the code in the string. */
  lemma {:induction false} OwnCodeInside(h: Heap, v: Value, cs: Constants, rest: seq<Byte>, h': Heap, cs': Constants)
    requires GoodHeap(h) && GoodValue(v, |h|) && MarshalRoundTrip.Marshal(h, v, cs).Code?
    requires MarshalRoundTrip.Fit(cs, cs', h') && |cs| < 0x4000_0000
    ensures Decode(MarshalRoundTrip.Marshal(h, v, cs).bytes + rest, h', cs').Read?
  {
    hide EncodeValue, ReadValue, DecodeValue;
    var phi := MarshalRoundTrip.MarshalRoundTrip(h, v, cs, rest, h', cs');
    DecodesTheSame(MarshalRoundTrip.Marshal(h, v, cs).bytes + rest, h', cs');
  }

  /** Cut short, a number is looked at as far as it should go. */
  lemma {:induction false} CutNumber()
    ensures Decode([MAR_MAGIC, TNUMBER], [], []) == Outside
  {
  }
}
