/** How the encoder writes the parts of a block: each loop appends exactly the bits the format prescribes. */
module SendParts {
  import opened Bits
  import opened Rotations
  import opened BitStrings
  import opened BitWriter
  import opened HuffmanCodes
  import opened BlockParts
  import opened BlockData
  import opened MtfEncode

  /** Once todo is written, all of total is. */
  ghost predicate Sent(bits: seq<bool>, todo: seq<bool>, total: seq<bool>) {
    bits + todo == total
  }

  lemma {:induction false} SentMore(bits: seq<bool>, todo: seq<bool>, total: seq<bool>, now: seq<bool>,
    later: seq<bool>)
    requires Sent(bits, todo, total) && todo == now + later
    ensures Sent(bits + now, later, total) && |bits| + |now| <= |total|
  {
    assert (bits + now) + later == bits + (now + later);
  }

  lemma {:induction false} SentAll(bits: seq<bool>, total: seq<bool>)
    requires Sent(bits, [], total)
    ensures bits == total
  {
    assert bits + [] == bits;
  }

  lemma {:induction false} OneBit(bit: bool)
    ensures BitsOf(if bit then 1 else 0, 1) == [bit] && Pow2(1) == 2
  {
    assert Pow2(0) == 1;
  }

  method SendBit(w: Writer, bit: bool, ghost later: seq<bool>, ghost total: seq<bool>)
    requires w.Valid() && Sent(w.Bits(), [bit] + later, total) && |total| <= 8 * w.zbits.Length
    modifies w, w.zbits
    ensures w.Valid() && Sent(w.Bits(), later, total)
  {
    OneBit(bit);
    SentMore(w.Bits(), [bit] + later, total, [bit], later);
    hide Sent, BitsOf;
    if bit { w.W(1, 1); } else { w.W(1, 0); }
  }

  method SendNumber(w: Writer, n: int, v: int, ghost later: seq<bool>, ghost total: seq<bool>)
    requires w.Valid() && 1 <= n <= 25 && 0 <= v < Pow2(n)
    requires Sent(w.Bits(), BitsOf(v, n) + later, total) && |total| <= 8 * w.zbits.Length
    modifies w, w.zbits
    ensures w.Valid() && Sent(w.Bits(), later, total)
  {
    SentMore(w.Bits(), BitsOf(v, n) + later, total, BitsOf(v, n), later);
    hide Sent, BitsOf;
    w.W(n, v);
  }

  // ---- the mapping table

  method FindRows(inUse: array<bool>) returns (inUse16: array<bool>)
    requires inUse.Length == 256
    ensures fresh(inUse16) && inUse16[..] == RowFlags(inUse[..])
  {
    ghost var u := inUse[..];
    inUse16 := new bool[16];
    for i := 0 to 16
      invariant forall k | 0 <= k < i :: inUse16[k] == (true in Row(u, k))
    {
      inUse16[i] := false;
      for j := 0 to 16
        invariant inUse16[i] == (true in Row(u, i)[..j])
        invariant forall k | 0 <= k < i :: inUse16[k] == (true in Row(u, k))
      {
        assert Row(u, i)[..j + 1] == Row(u, i)[..j] + [u[16 * i + j]];
        if inUse[i * 16 + j] { inUse16[i] := true; }
      }
      assert Row(u, i)[..16] == Row(u, i);
    }
  }

  /** 16 flags, one bit each. */
  method SendFlags(w: Writer, flags: array<bool>, lo: int, ghost later: seq<bool>, ghost total: seq<bool>)
    requires w.Valid() && 0 <= lo <= lo + 16 <= flags.Length
    requires Sent(w.Bits(), flags[lo..lo + 16] + later, total) && |total| <= 8 * w.zbits.Length
    modifies w, w.zbits
    ensures w.Valid() && Sent(w.Bits(), later, total)
  {
    hide Sent;
    for j := 0 to 16
      invariant w.Valid()
      invariant Sent(w.Bits(), flags[lo + j..lo + 16] + later, total)
    {
      assert flags[lo + j..lo + 16] + later == [flags[lo + j]] + (flags[lo + j + 1..lo + 16] + later);
      SendBit(w, flags[lo + j], flags[lo + j + 1..lo + 16] + later, total);
    }
    assert flags[lo + 16..lo + 16] + later == later;
  }

  method SendMapping(w: Writer, inUse: array<bool>, ghost later: seq<bool>, ghost total: seq<bool>)
    requires w.Valid() && inUse.Length == 256
    requires Sent(w.Bits(), MappingBits(inUse[..]) + later, total) && |total| <= 8 * w.zbits.Length
    modifies w, w.zbits
    ensures w.Valid() && Sent(w.Bits(), later, total)
  {
    hide Sent, RowFlags, MappingBits, RowsFrom;
    ghost var u := inUse[..];
    var inUse16 := FindRows(inUse);
    MappingTodo(u, inUse16[..], later);
    SendFlags(w, inUse16, 0, RowsFrom(u, 0) + later, total);
    for i := 0 to 16
      invariant w.Valid() && inUse[..] == u && inUse16[..] == RowFlags(u)
      invariant Sent(w.Bits(), RowsFrom(u, i) + later, total)
    {
      SendRow(w, inUse, i, inUse16[i], later, total);
    }
    RowsDone(u, later);
  }

  method SendRow(w: Writer, inUse: array<bool>, i: int, used: bool, ghost later: seq<bool>, ghost total: seq<bool>)
    requires w.Valid() && inUse.Length == 256 && 0 <= i < 16 && used == RowFlags(inUse[..])[i]
    requires Sent(w.Bits(), RowsFrom(inUse[..], i) + later, total) && |total| <= 8 * w.zbits.Length
    modifies w, w.zbits
    ensures w.Valid() && Sent(w.Bits(), RowsFrom(inUse[..], i + 1) + later, total)
  {
    ghost var u := inUse[..];
    hide Sent, RowFlags, RowsFrom;
    RowTodo(u, i, later);
    assert inUse[i * 16..i * 16 + 16] == u[i * 16..i * 16 + 16];
    if used { SendFlags(w, inUse, i * 16, RowsFrom(u, i + 1) + later, total); }
  }

  lemma {:induction false} MappingTodo(u: seq<bool>, flags: seq<bool>, later: seq<bool>)
    requires |u| == 256 && flags == RowFlags(u)
    ensures MappingBits(u) + later == flags[0..16] + (RowsFrom(u, 0) + later)
  {
    assert flags[0..16] == flags;
  }

  lemma {:induction false} RowsDone(u: seq<bool>, later: seq<bool>)
    requires |u| == 256
    ensures RowsFrom(u, 16) + later == later
  {
  }

  lemma {:induction false} RowTodo(u: seq<bool>, i: nat, later: seq<bool>)
    requires |u| == 256 && i < 16
    ensures RowsFrom(u, i) + later == if RowFlags(u)[i] then u[i * 16..i * 16 + 16] + (RowsFrom(u, i + 1) + later)
      else RowsFrom(u, i + 1) + later
  {
    assert RowsFrom(u, i) + later == (if true in Row(u, i) then Row(u, i) else []) + (RowsFrom(u, i + 1) + later);
  }

  // ---- selectors

  method SendSelectors(w: Writer, selectorMtf: array<int>, nSelectors: int, ghost later: seq<bool>,
    ghost total: seq<bool>)
    requires w.Valid() && 0 <= nSelectors <= selectorMtf.Length && forall i | 0 <= i < nSelectors :: 0 <= selectorMtf[i]
    requires Sent(w.Bits(), SelectorBits(selectorMtf[..nSelectors]) + later, total) && |total| <= 8 * w.zbits.Length
    requires selectorMtf != w.zbits
    modifies w, w.zbits
    ensures w.Valid() && Sent(w.Bits(), later, total)
  {
    ghost var js := selectorMtf[..nSelectors];
    assert js[0..] == js;
    hide Sent, SelectorBits, Unary;
    for i := 0 to nSelectors
      invariant w.Valid() && selectorMtf[..nSelectors] == js
      invariant Sent(w.Bits(), SelectorBits(js[i..]) + later, total)
    {
      SelectorTodo(js[i..], later);
      assert js[i..][1..] == js[i + 1..];
      SendUnary(w, selectorMtf[i], SelectorBits(js[i + 1..]) + later, total);
    }
    assert js[nSelectors..] == [];
    SelectorsDone(later);
  }

  lemma {:induction false} SelectorTodo(js: seq<int>, later: seq<bool>)
    requires js != [] && js[0] >= 0
    ensures SelectorBits(js) + later == Unary(js[0]) + (SelectorBits(js[1..]) + later)
  {
  }

  lemma {:induction false} SelectorsDone(later: seq<bool>)
    ensures SelectorBits([]) + later == later
  {
  }

  method SendUnary(w: Writer, n: int, ghost later: seq<bool>, ghost total: seq<bool>)
    requires w.Valid() && 0 <= n && Sent(w.Bits(), Unary(n) + later, total) && |total| <= 8 * w.zbits.Length
    modifies w, w.zbits
    ensures w.Valid() && Sent(w.Bits(), later, total)
  {
    hide Sent;
    for j := 0 to n
      invariant w.Valid()
      invariant Sent(w.Bits(), Unary(n - j) + later, total)
    {
      assert Unary(n - j) + later == [true] + (Unary(n - j - 1) + later);
      SendBit(w, true, Unary(n - j - 1) + later, total);
    }
    assert Unary(0) == [false];
    SendBit(w, false, later, total);
  }

  // ---- coding tables

  method SendTable(w: Writer, len: array<int>, alphaSize: int, ghost lengths: seq<Byte>, ghost later: seq<bool>,
    ghost total: seq<bool>)
    requires w.Valid() && len != w.zbits && alphaSize == |lengths| <= len.Length && IsLengths(lengths)
    requires forall i | 0 <= i < alphaSize :: len[i] == lengths[i] as int
    requires Sent(w.Bits(), TableBits(lengths) + later, total) && |total| <= 8 * w.zbits.Length
    modifies w, w.zbits
    ensures w.Valid() && Sent(w.Bits(), later, total)
  {
    hide Sent, LengthsFrom, BitsOf, StepBits, TableBits;
    TableTodo(lengths, later);
    SendNumber(w, 5, len[0], LengthsFrom(len[0], lengths) + later, total);
    hide IsLengths;
    assert lengths[0..] == lengths;
    var curr := len[0];
    for i := 0 to alphaSize
      invariant w.Valid() && forall i | 0 <= i < alphaSize :: len[i] == lengths[i] as int
      invariant Sent(w.Bits(), LengthsFrom(curr, lengths[i..]) + later, total)
    {
      LengthsTodo(curr, lengths[i..], later);
      assert lengths[i..][1..] == lengths[i + 1..];
      SendSteps(w, curr, len[i], LengthsFrom(len[i], lengths[i + 1..]) + later, total);
      curr := len[i];
    }
    assert lengths[alphaSize..] == [];
    LengthsDone(curr, later);
  }

  lemma {:induction false} TableTodo(len: seq<Byte>, later: seq<bool>)
    requires IsLengths(len)
    ensures 1 <= len[0] as int < Pow2(5)
    ensures TableBits(len) + later == BitsOf(len[0] as int, 5) + (LengthsFrom(len[0] as int, len) + later)
  {
    assert Pow2(5) == 32;
  }

  lemma {:induction false} LengthsTodo(curr: int, len: seq<Byte>, later: seq<bool>)
    requires len != []
    ensures LengthsFrom(curr, len) + later == StepBits(curr, len[0] as int) +
      (LengthsFrom(len[0] as int, len[1..]) + later)
  {
  }

  lemma {:induction false} LengthsDone(curr: int, later: seq<bool>)
    ensures LengthsFrom(curr, []) + later == later
  {
  }

  /** One length, as steps from the one before. */
  method SendSteps(w: Writer, from: int, to: int, ghost later: seq<bool>, ghost total: seq<bool>)
    requires w.Valid() && Sent(w.Bits(), StepBits(from, to) + later, total) && |total| <= 8 * w.zbits.Length
    modifies w, w.zbits
    ensures w.Valid() && Sent(w.Bits(), later, total)
  {
    hide Sent, StepBits, BitsOf;
    UpDown();
    var curr := from;
    while curr < to
      invariant w.Valid() && (curr <= to || curr == from)
      invariant Sent(w.Bits(), StepBits(curr, to) + later, total)
    {
      StepTodo(curr, to, later);
      SendNumber(w, 2, 2, StepBits(curr + 1, to) + later, total);
      curr := curr + 1;
    }
    while curr > to
      invariant w.Valid() && curr >= to
      invariant Sent(w.Bits(), StepBits(curr, to) + later, total)
    {
      StepTodo(curr, to, later);
      SendNumber(w, 2, 3, StepBits(curr - 1, to) + later, total);
      curr := curr - 1;
    }
    StepTodo(to, to, later);
    SendBit(w, false, later, total);
  }

  lemma {:induction false} StepTodo(curr: int, to: int, later: seq<bool>)
    ensures curr < to ==> StepBits(curr, to) + later == BitsOf(2, 2) + (StepBits(curr + 1, to) + later)
    ensures curr > to ==> StepBits(curr, to) + later == BitsOf(3, 2) + (StepBits(curr - 1, to) + later)
    ensures curr == to ==> StepBits(curr, to) + later == [false] + later
  {
    UpDown();
    hide BitsOf;
  }

  lemma {:induction false} UpDown()
    ensures BitsOf(2, 2) == [true, false] && BitsOf(3, 2) == [true, true] && Pow2(2) == 4
  {
    assert Pow2(0) == 1 && Pow2(1) == 2;
    assert BitsOf(0, 1) == [false] && BitsOf(1, 1) == [true];
  }
}
