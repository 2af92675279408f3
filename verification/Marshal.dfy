/**
 * The marshal library's procedures: a growing buffer, an encoder that numbers tables as it meets them, and a decoder
 * that does the same.
 */
module Marshal {
  import opened Rotations
  import opened MarshalData
  import opened MarshalRoundTrip

  /** mar_Buffer, as far as it is written. */
  class Buffer {
    var size: nat
    var head: nat
    var data: array<int>

    ghost predicate Valid()
      reads this
    {
      head <= size == data.Length && size > 0
    }

    ghost function Contents(): seq<int>
      reads this, data
      requires Valid()
    {
      data[..head]
    }

    /** buf_init */
    constructor ()
      ensures Valid() && Contents() == [] && fresh(data)
    {
      size, head := 128, 0;
      data := new int[128];
    }

    /** buf_write: doubles the buffer until the bytes fit. */
    method Write(str: seq<Byte>) returns (ok: bool)
      requires Valid()
      modifies this, data
      ensures Valid() && (data == old(data) || fresh(data)) && (ok <==> |str| < LIMIT)
      ensures Contents() == if ok then old(Contents()) + str else old(Contents())
    {
      if |str| >= LIMIT { return false; }
      ghost var before := Contents();
      if size - head < |str| { Grow(|str|); }
      for i := 0 to |str|
        invariant Valid() && head + |str| <= size && data[..head] == before
        invariant data[head..head + i] == str[..i]
        modifies data
      {
        data[head + i] := str[i];
      }
      assert data[..head + |str|] == before + str;
      head := head + |str|;
      ok := true;
    }

    /** The bytes written. */
    method Bytes(ghost bytes: seq<Byte>) returns (s: seq<Byte>)
      requires Valid() && Contents() == bytes
      ensures s == bytes
    {
      s := [];
      for i := 0 to head
        invariant s == bytes[..i]
      {
        var x: Byte := ByteOf(data[i], bytes, i);
        s := s + [x];
      }
    }

    method Grow(len: nat)
      requires Valid()
      modifies this`size, this`data
      ensures Valid() && fresh(data) && size - head >= len && Contents() == old(Contents())
    {
      var new_size := size * 2;
      while new_size - head <= len
        invariant new_size >= size * 2
        decreases len - (new_size - head)
      {
        new_size := new_size * 2;
      }
      var bigger := new int[new_size];
      for i := 0 to head
        invariant bigger[..i] == data[..i] && bigger.Length == new_size && head <= data.Length
        modifies bigger
      {
        bigger[i] := data[i];
      }
      data, size := bigger, new_size;
    }
  }

  function ByteOf(x: int, ghost bytes: seq<Byte>, ghost i: nat): (c: Byte)
    requires i < |bytes| && x == bytes[i]
    ensures c == bytes[i]
  {
    x
  }

  // ---- encoding

  class Encoder {
    const h: Heap
    var seen: Seen
    var idx: nat

    constructor (h: Heap, seen: Seen, idx: nat)
      ensures this.h == h && this.seen == seen && this.idx == idx
    {
      this.h, this.seen, this.idx := h, seen, idx;
    }

    /** mar_encode_value: appends the code of v to the buffer; false for an error. */
    method EncodeValue(v: Value, buf: Buffer) returns (ok: bool)
      requires GoodHeap(h) && GoodValue(v, |h|) && buf.Valid()
      modifies this, buf, buf.data
      ensures buf.Valid() && (buf.data == old(buf.data) || fresh(buf.data))
      ensures var c := MarshalData.EncodeValue(h, v, old(seen), old(idx));
        && (ok <==> c.Code?)
        && (ok ==> buf.Contents() == old(buf.Contents()) + c.bytes && seen == c.seen && idx == c.idx)
      decreases |Unseen(h, seen)|, 0
    {
      hide Le32, Unseen, EncodeEntries;
      match v
      case Nil => ok := buf.Write([TNIL]);
      case Bool(b) => ok := buf.Write([TBOOLEAN, if b then 1 else 0]);
      case Num(bytes) => ok := Both(buf, [TNUMBER], bytes);
      case Str(s) =>
        ok := Both(buf, [TSTRING], Le32(|s|));
        if ok { ok := buf.Write(s); }
      case Table(t) =>
        if t in seen {
          ok := Both(buf, [TTABLE, MAR_TREF], Le32(seen[t]));
        } else {
          SeenMore(h, seen, t, idx);
          ok := EncodeNew(t, buf);
        }
    }

    /**
     * A table met for the first time: its number is taken before its entries are encoded, into a buffer of their own.
     */
    method EncodeNew(t: nat, buf: Buffer) returns (ok: bool)
      requires GoodHeap(h) && t < |h| && t !in seen && buf.Valid()
      modifies this, buf, buf.data
      ensures buf.Valid() && (buf.data == old(buf.data) || fresh(buf.data))
      ensures var c := EncodeEntries(h, h[t], old(seen)[t := old(idx)], old(idx) + 1);
        && (ok <==> c.Code? && |c.bytes| < LIMIT)
        && (ok ==>
            buf.Contents() == old(buf.Contents()) + ([TTABLE, MAR_TVAL] + Le32(|c.bytes|) + c.bytes) &&
            seen == c.seen && idx == c.idx)
      decreases |Unseen(h, seen[t := idx])|, 2
    {
      hide Le32, Unseen, EncodeEntries;
      GoodTable(h, t);
      seen, idx := seen[t := idx], idx + 1;
      ghost var c := EncodeEntries(h, h[t], seen, idx);
      var rec_buf := new Buffer();
      ok := EncodeTable(h[t], rec_buf);
      if ok {
        var content := rec_buf.Bytes(c.bytes);
        ok := AddTable(buf, content);
      }
    }

    /** mar_encode_table */
    method EncodeTable(es: seq<Entry>, buf: Buffer) returns (ok: bool)
      requires GoodHeap(h) && (forall i | 0 <= i < |es| :: GoodValue(es[i].key, |h|) && GoodValue(es[i].value, |h|)) &&
        buf.Valid()
      modifies this, buf, buf.data
      ensures buf.Valid() && (buf.data == old(buf.data) || fresh(buf.data))
      ensures var c := EncodeEntries(h, es, old(seen), old(idx));
        && (ok <==> c.Code?)
        && (ok ==> buf.Contents() == old(buf.Contents()) + c.bytes && seen == c.seen && idx == c.idx)
      decreases |Unseen(h, seen)|, 1
    {
      hide Le32, Unseen, EncodeEntries, MarshalData.EncodeValue;
      ghost var seen0, idx0, before := seen, idx, buf.Contents();
      ghost var done: seq<Byte> := [];
      ok := true;
      assert es[0..] == es && before + [] == before;
      NothingBefore(EncodeEntries(h, es, seen, idx));
      var i := 0;
      while i < |es|
        invariant i <= |es| && buf.Valid() && (buf.data == old(buf.data) || fresh(buf.data)) && seen0.Keys <= seen.Keys
        invariant buf.Contents() == before + done
        invariant EncodeEntries(h, es, seen0, idx0) == Behind(done, EncodeEntries(h, es[i..], seen, idx))
        decreases |es| - i
      {
        ghost var seen1, idx1, at := seen, idx, buf.Contents();
        SeenLess(h, seen0, seen);
        EntryCode(h, es, i, seen, idx);
        ok := EncodeValue(es[i].key, buf);
        if !ok { return; }
        ghost var k := MarshalData.EncodeValue(h, es[i].key, seen1, idx1);
        KeysGrow(h, es[i].key, seen1, idx1);
        SeenLess(h, seen0, seen);
        ok := EncodeValue(es[i].value, buf);
        if !ok { return; }
        ghost var x := MarshalData.EncodeValue(h, es[i].value, k.seen, k.idx);
        KeysGrow(h, es[i].value, k.seen, k.idx);
        assert before + done + k.bytes + x.bytes == before + (done + (k.bytes + x.bytes));
        BehindBoth(done, k.bytes + x.bytes, EncodeEntries(h, es[i + 1..], x.seen, x.idx));
        done := done + (k.bytes + x.bytes);
        i := i + 1;
      }
      NoEntries(h, es[i..], seen, idx);
    }
  }

  /** A code with bytes in front of it. */
  function Behind(front: seq<Byte>, c: Code): Code {
    if c.Refused? then Refused else Code(front + c.bytes, c.seen, c.idx)
  }

  lemma {:induction false} NothingBefore(c: Code)
    ensures Behind([], c) == c
  {
  }

  lemma {:induction false} BehindBoth(a: seq<Byte>, b: seq<Byte>, c: Code)
    ensures Behind(a, Behind(b, c)) == Behind(a + b, c)
  {
    if c.Code? { assert a + (b + c.bytes) == (a + b) + c.bytes; }
  }

  lemma {:induction false} NoEntries(h: Heap, es: seq<Entry>, seen: Seen, idx: nat)
    requires GoodHeap(h) && es == []
    ensures EncodeEntries(h, es, seen, idx) == Code([], seen, idx)
  {
  }

  /** The code of the entries from i on: the key's, the value's, and that of the others. */
  lemma {:induction false} EntryCode(h: Heap, es: seq<Entry>, i: nat, seen: Seen, idx: nat)
    requires GoodHeap(h) && i < |es| &&
      forall j | 0 <= j < |es| :: GoodValue(es[j].key, |h|) && GoodValue(es[j].value, |h|)
    ensures var c, k := EncodeEntries(h, es[i..], seen, idx), MarshalData.EncodeValue(h, es[i].key, seen, idx);
      if k.Refused? then c == Refused
      else
        var x := MarshalData.EncodeValue(h, es[i].value, k.seen, k.idx);
        if x.Refused? then c == Refused
          else c == Behind(k.bytes + x.bytes, EncodeEntries(h, es[i + 1..], x.seen, x.idx))
  {
    hide MarshalData.EncodeValue, Unseen;
    assert es[i..][0] == es[i] && es[i..][1..] == es[i + 1..];
  }

  lemma {:induction false} GoodTable(h: Heap, t: nat)
    requires GoodHeap(h) && t < |h|
    ensures forall i | 0 <= i < |h[t]| :: GoodValue(h[t][i].key, |h|) && GoodValue(h[t][i].value, |h|)
  {
    hide IsKey;
    assert GoodEntries(h[t], |h|);
  }

  /** Two pieces after each other. */
  method Both(buf: Buffer, a: seq<Byte>, b: seq<Byte>) returns (ok: bool)
    requires buf.Valid() && |a| <= 8 && |b| <= 8
    modifies buf, buf.data
    ensures buf.Valid() && (buf.data == old(buf.data) || fresh(buf.data)) && ok &&
      buf.Contents() == old(buf.Contents()) + (a + b)
  {
    ghost var before := buf.Contents();
    ok := buf.Write(a);
    ok := buf.Write(b);
    assert before + a + b == before + (a + b);
  }

  /** A table's code: its length, and what its own buffer holds. */
  method AddTable(buf: Buffer, content: seq<Byte>) returns (ok: bool)
    requires buf.Valid()
    modifies buf, buf.data
    ensures buf.Valid() && (buf.data == old(buf.data) || fresh(buf.data)) && (ok <==> |content| < LIMIT)
    ensures ok ==> buf.Contents() == old(buf.Contents()) + ([TTABLE, MAR_TVAL] + Le32(|content|) + content)
  {
    hide Le32;
    ghost var before := buf.Contents();
    Le32Size(|content|);
    ok := Both(buf, [TTABLE, MAR_TVAL], Le32(|content|));
    ghost var head := [TTABLE, MAR_TVAL] + Le32(|content|);
    ok := buf.Write(content);
    assert before + head + content == before + (head + content);
  }

  lemma {:induction false} Le32Size(n: nat)
    ensures |Le32(n)| == 4
  {
  }

  // ---- decoding

  class Decoder {
    var heap: Heap
    var seen: map<int, Value>
    var idx: nat

    constructor (heap: Heap, seen: map<int, Value>, idx: nat)
      ensures Now() == Made(heap, seen, idx)
    {
      this.heap, this.seen, this.idx := heap, seen, idx;
    }

    ghost function Now(): Made
      reads this
    {
      Made(heap, seen, idx)
    }

    /** mar_decode_value: reads a value from the buffer at p0 and moves on behind it; false for an error. */
    method DecodeValue(buf: seq<Byte>, p0: nat) returns (ok: bool, v: Value, p: nat)
      requires p0 <= |buf|
      modifies this
      ensures p0 <= p <= |buf| && (ok ==> p > p0 && |heap| >= |old(heap)|)
      ensures MarshalData.DecodeValue(buf[p0..], old(Now())) == if ok then Got(v, buf[p..], Now()) else Failed
      decreases |buf| - p0, 0
    {
      hide ReadLe32, DecodeEntries;
      ghost var s := buf[p0..];
      ok, v, p := false, Nil, p0;
      if p + 1 > |buf| { return; }
      var val_type := buf[p];
      if val_type == TNIL || val_type == 8 {
        ok, p := true, p + 1;
      } else if val_type == TBOOLEAN {
        if p + 2 > |buf| { return; }
        ok, v, p := true, Bool(buf[p + 1] != 0), p + 2;
      } else if val_type == TNUMBER {
        if p + 9 > |buf| { return; }
        assert buf[p + 1..p + 9] == s[1..9];
        ok, v, p := true, Num(buf[p + 1..p + 9]), p + 9;
      } else if val_type == TSTRING {
        if p + 5 > |buf| { return; }
        assert buf[p + 1..] == s[1..];
        var l := ReadLe32(buf[p + 1..]);
        if p + 5 + l > |buf| { return; }
        assert buf[p + 5..p + 5 + l] == s[5..5 + l] && buf[p + 5 + l..] == s[5 + l..];
        ok, v, p := true, Str(buf[p + 5..p + 5 + l]), p + 5 + l;
      } else if val_type == TTABLE {
        if p + 6 > |buf| { return; }
        var tag := buf[p + 1];
        assert buf[p + 2..] == s[2..];
        var l := ReadLe32(buf[p + 2..]);
        if tag == MAR_TREF {
          assert buf[p + 6..] == s[6..];
          ok, v, p := true, if Signed(l) in seen then seen[Signed(l)] else Nil, p + 6;
        } else if tag == MAR_TVAL {
          if p + 6 + l > |buf| { return; }
          assert buf[p + 6..p + 6 + l] == s[6..6 + l] && buf[p + 6 + l..] == s[6 + l..];
          var t := |heap|;
          heap, seen, idx := heap + [[]], seen[idx := Table(t)], idx + 1;
          ok := DecodeTable(buf[p + 6..p + 6 + l], t);
          if ok { v, p := Table(t), p + 6 + l; }
        }
      }
    }

    /** mar_decode_table */
    method DecodeTable(buf: seq<Byte>, t: nat) returns (ok: bool)
      requires t < |heap|
      modifies this
      ensures ok ==> |heap| >= |old(heap)|
      ensures DecodeEntries(buf, old(Now()), t) == if ok then Filled(Now()) else Failed
      decreases |buf|, 1
    {
      hide MarshalData.DecodeValue, DecodeEntries, RawSet, IsKey;
      var p := 0;
      ok := true;
      assert buf[0..] == buf;
      while p < |buf|
        invariant p <= |buf| && t < |heap| && |old(heap)| <= |heap|
        invariant DecodeEntries(buf, old(Now()), t) == DecodeEntries(buf[p..], Now(), t)
        decreases |buf| - p
      {
        OneEntry(buf[p..], Now(), t);
        var k, x;
        ok, k, p := DecodeValue(buf, p);
        if !ok { return; }
        ok, x, p := DecodeValue(buf, p);
        if !ok { return; }
        ok := IsKey(k);
        if !ok { return; }
        heap := heap[t := RawSet(heap[t], k, x)];
      }
      assert buf[p..] == [];
      AllEntries(Now(), t);
    }
  }

  /** One entry of a table's code. */
  lemma {:induction false} OneEntry(s: seq<Byte>, m: Made, t: nat)
    requires t < |m.heap| && s != []
    ensures var k := MarshalData.DecodeValue(s, m);
      if k.Failed? then DecodeEntries(s, m, t) == Failed
      else
        var x := MarshalData.DecodeValue(k.rest, k.m);
        if x.Failed? || !IsKey(k.v) then DecodeEntries(s, m, t) == Failed
        else
          && t < |x.m.heap|
          && DecodeEntries(s, m, t) ==
              DecodeEntries(x.rest, Made(x.m.heap[t := RawSet(x.m.heap[t], k.v, x.v)], x.m.seen, x.m.idx), t)
  {
    hide RawSet, IsKey;
  }

  lemma {:induction false} AllEntries(m: Made, t: nat)
    requires t < |m.heap|
    ensures DecodeEntries([], m, t) == Filled(m)
  {
  }

  // ---- the library's procedures

  /** The encoder numbers the constants; false if one of them cannot be a key. */
  method NumberConstants(cs: Constants) returns (ok: bool, seen: Seen, idx: nat)
    ensures ok <==> forall i | 0 <= i < |cs| :: !IsNaN(cs[i])
    ensures ok ==> seen == Numbered(cs) && idx == |cs| + 1
  {
    seen, idx, ok := map[], 1, true;
    while idx <= |cs|
      invariant 1 <= idx <= |cs| + 1 && seen == Numbered(cs[..idx - 1])
      invariant forall i | 0 <= i < idx - 1 :: !IsNaN(cs[i])
    {
      hide IsNaN;
      assert cs[..idx][..idx - 1] == cs[..idx - 1];
      if IsNaN(cs[idx - 1]) { return false, seen, idx; }
      if cs[idx - 1].Table? { seen := seen[cs[idx - 1].t := idx]; }
      idx := idx + 1;
    }
    assert cs[..|cs|] == cs;
  }

  /** The decoder stores the constants by number. */
  method StoreConstants(cs: Constants) returns (seen: map<int, Value>, idx: nat)
    ensures seen == Stored(cs) && idx == |cs| + 1
  {
    seen, idx := map[], 1;
    while idx <= |cs|
      invariant 1 <= idx <= |cs| + 1 && seen == Stored(cs[..idx - 1])
    {
      assert cs[..idx][..idx - 1] == cs[..idx - 1];
      seen, idx := seen[idx := cs[idx - 1]], idx + 1;
    }
    assert cs[..|cs|] == cs;
  }

  /** mar_encode */
  method MarEncode(h: Heap, v: Value, cs: Constants) returns (ok: bool, s: seq<Byte>)
    requires GoodHeap(h) && GoodValue(v, |h|)
    ensures ok <==> MarshalRoundTrip.Marshal(h, v, cs).Code?
    ensures ok ==> s == MarshalRoundTrip.Marshal(h, v, cs).bytes
  {
    hide EncodeValue, Numbered, IsNaN;
    var seen, idx;
    s := [];
    ok, seen, idx := NumberConstants(cs);
    if !ok { return; }
    var buf := new Buffer();
    ok := buf.Write([MAR_MAGIC]);
    var e := new Encoder(h, seen, idx);
    ok := e.EncodeValue(v, buf);
    if ok { s := buf.Bytes(MarshalRoundTrip.Marshal(h, v, cs).bytes); }
  }

  /** mar_decode, in a state that has the tables of h. */
  method MarDecode(s: seq<Byte>, h: Heap, cs: Constants) returns (ok: bool, v: Value, h': Heap)
    ensures ok <==> Unmarshal(s, h, cs).Got?
    ensures ok ==> v == Unmarshal(s, h, cs).v && h' == Unmarshal(s, h, cs).m.heap
  {
    hide Stored;
    ok, v, h' := false, Nil, h;
    if |s| < 1 || s[0] != MAR_MAGIC { return; }
    var seen, idx := StoreConstants(cs);
    var d := new Decoder(h, seen, idx);
    var p;
    ok, v, p := d.DecodeValue(s[1..], 0);
    assert s[1..][0..] == s[1..];
    h' := d.heap;
  }

  lemma {:induction false} FitsItself(h: Heap, cs: Constants)
    requires GoodConstants(cs, |h|)
    ensures Fit(cs, cs, h)
    ensures forall t | t in Given(cs, cs) :: Given(cs, cs)[t] == Table(t)
  {
    var g := Given(cs, cs);
    forall t | t in g ensures g[t] == Table(t) && t < |h| {
      assert GoodValue(cs[Numbered(cs)[t] - 1], |h|);
    }
  }

  /**
   * mar_clone: whenever the encoding succeeds, encoding and decoding again makes a copy of the whole graph, up to the
   * constants: these are shared by the original and the copy, and no table there before is changed.
   */
  method MarClone(h: Heap, v: Value, cs: Constants) returns (ok: bool, v': Value, h': Heap, ghost phi: Places)
    requires GoodHeap(h) && GoodValue(v, |h|) && GoodConstants(cs, |h|) && |cs| < 0x4000_0000
    ensures ok <==> MarshalRoundTrip.Marshal(h, v, cs).Code?
    ensures Fit(cs, cs, h) && forall t | t in Given(cs, cs) :: Given(cs, cs)[t] == Table(t)
    ensures ok ==> IsCopy(h, v, cs, phi, v', h, h', cs)
  {
    hide MarshalRoundTrip.Marshal, Unmarshal, IsCopy, Fit, Given;
    FitsItself(h, cs);
    var s;
    ok, s := MarEncode(h, v, cs);
    v', h', phi := Nil, h, map[];
    if ok {
      phi := MarshalRoundTrip.MarshalRoundTrip(h, v, cs, [], h, cs);
      assert s + [] == s;
      ok, v', h' := MarDecode(s, h, cs);
    }
  }
}
