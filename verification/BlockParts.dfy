/**
 * The parts of a compressed block in front of its data: mapping table, selectors, coding tables. How each is written
 * and read.
 */
module BlockParts {
  import opened Bits
  import opened Rotations
  import opened BitStrings
  import opened MoveToFront
  import opened HuffmanCodes

  // ---- the mapping table: which bytes occur

  function Row(u: seq<bool>, i: nat): (r: seq<bool>)
    requires |u| == 256 && i < 16
    ensures |r| == 16
  {
    u[16 * i..16 * i + 16]
  }

  function RowFlags(u: seq<bool>): (r: seq<bool>)
    requires |u| == 256
    ensures |r| == 16
  {
    seq(16, i requires 0 <= i < 16 => true in Row(u, i))
  }

  /** Rows i and on, those without any byte in use left out. */
  function RowsFrom(u: seq<bool>, i: nat): seq<bool>
    requires |u| == 256 && i <= 16
    decreases 16 - i
  {
    if i == 16 then [] else (if true in Row(u, i) then Row(u, i) else []) + RowsFrom(u, i + 1)
  }

  function MappingBits(u: seq<bool>): seq<bool>
    requires |u| == 256
  {
    RowFlags(u) + RowsFrom(u, 0)
  }

  function ReadRows(flags: seq<bool>, i: nat, bits: seq<bool>): (r: Parse<seq<bool>>)
    requires |flags| == 16 && i <= 16
    ensures r.Done? ==> |r.rest| <= |bits|
    ensures r.Done? ==> |r.value| == 256 - 16 * i
    decreases 16 - i
  {
    if i == 16 then Done([], bits)
    else if flags[i] && |bits| < 16 then NeedMore
    else
      var row := if flags[i] then bits[..16] else seq(16, k => false);
      var (v, rest) :- ReadRows(flags, i + 1, if flags[i] then bits[16..] else bits);
      Done(row + v, rest)
  }

  function ReadMapping(bits: seq<bool>): (r: Parse<seq<bool>>)
    ensures r.Done? ==> |r.rest| <= |bits|
    ensures r.Done? ==> |r.value| == 256
  {
    if |bits| < 16 then NeedMore else ReadRows(bits[..16], 0, bits[16..])
  }

  lemma {:induction false} RowsRoundTrip(u: seq<bool>, i: nat, rest: seq<bool>)
    requires |u| == 256 && i <= 16
    ensures ReadRows(RowFlags(u), i, RowsFrom(u, i) + rest) == Done(u[16 * i..], rest)
    decreases 16 - i
  {
    if i < 16 {
      var flags, bits := RowFlags(u), RowsFrom(u, i) + rest;
      var used := flags[i];
      RowsRoundTrip(u, i + 1, rest);
      hide RowFlags;
      assert u[16 * i..] == Row(u, i) + u[16 * (i + 1)..];
      if used {
        assert bits == Row(u, i) + (RowsFrom(u, i + 1) + rest);
        assert bits[..16] == Row(u, i) && bits[16..] == RowsFrom(u, i + 1) + rest;
      } else {
        EmptyRow(Row(u, i));
        assert bits == RowsFrom(u, i + 1) + rest;
      }
    } else {
      assert RowsFrom(u, i) + rest == rest;
    }
  }

  lemma {:induction false} EmptyRow(row: seq<bool>)
    requires |row| == 16 && true !in row
    ensures row == seq(16, k => false)
  {
    forall k | 0 <= k < 16 ensures !row[k] { }
  }

  lemma {:induction false} MappingRoundTrip(u: seq<bool>, rest: seq<bool>)
    requires |u| == 256
    ensures ReadMapping(MappingBits(u) + rest) == Done(u, rest)
  {
    var bits := MappingBits(u) + rest;
    assert bits == RowFlags(u) + (RowsFrom(u, 0) + rest);
    assert bits[..16] == RowFlags(u) && bits[16..] == RowsFrom(u, 0) + rest;
    RowsRoundTrip(u, 0, rest);
  }

  // ---- selectors, in unary

  function Unary(j: nat): (r: seq<bool>)
    ensures |r| == j + 1
  {
    if j == 0 then [false] else [true] + Unary(j - 1)
  }

  function SelectorBits(js: seq<int>): seq<bool> {
    if js == [] then [] else Unary(if js[0] < 0 then 0 else js[0]) + SelectorBits(js[1..])
  }

  /** The encoder sends the selectors' positions in a move-to-front list. */
  function SelectorIndices(sel: seq<int>, nGroups: nat): (js: seq<int>)
    requires forall i | 0 <= i < |sel| :: 0 <= sel[i] < nGroups
    ensures |js| == |sel| && forall i | 0 <= i < |js| :: 0 <= js[i] < nGroups
  {
    SelectorsListed(sel, nGroups);
    Indices(Identity(nGroups), sel)
  }

  lemma {:induction false} SelectorsListed(sel: seq<int>, nGroups: nat)
    requires forall i | 0 <= i < |sel| :: 0 <= sel[i] < nGroups
    ensures AllIn(sel, Identity(nGroups))
  {
    forall i | 0 <= i < |sel| ensures sel[i] in Identity(nGroups) { assert Identity(nGroups)[sel[i]] == sel[i]; }
  }

  /** The decoder's list gives the selectors back. */
  lemma {:induction false} SelectorsRestored(sel: seq<int>, nGroups: nat)
    requires forall i | 0 <= i < |sel| :: 0 <= sel[i] < nGroups
    ensures Symbols(Identity(nGroups), SelectorIndices(sel, nGroups)) == sel
  {
    SelectorsListed(sel, nGroups);
    SymbolsOfIndices(Identity(nGroups), sel);
  }

  function ReadUnary(j: nat, limit: int, bits: seq<bool>): (r: Parse<int>)
    ensures r.Done? ==> |r.rest| <= |bits|
    ensures r.Done? ==> j <= r.value && (j < limit ==> r.value < limit)
    decreases |bits|
  {
    if bits == [] then NeedMore
    else if !bits[0] then Done(j, bits[1..])
    else if j + 1 >= limit then Bad
    else ReadUnary(j + 1, limit, bits[1..])
  }

  function ReadSelectors(n: nat, nGroups: int, bits: seq<bool>): (r: Parse<seq<int>>)
    ensures r.Done? ==> |r.rest| <= |bits|
    ensures r.Done? ==> |r.value| == n
    ensures r.Done? && 0 < nGroups ==> forall i | 0 <= i < n :: 0 <= r.value[i] < nGroups
  {
    if n == 0 then Done([], bits)
    else
      var (j, rest) :- ReadUnary(0, nGroups, bits);
      var (js, rest') :- ReadSelectors(n - 1, nGroups, rest);
      Done([j] + js, rest')
  }

  lemma {:induction false} UnaryRoundTrip(j: nat, from: nat, limit: int, rest: seq<bool>)
    requires from + j < limit
    ensures ReadUnary(from, limit, Unary(j) + rest) == Done(from + j, rest)
    decreases j
  {
    var bits := Unary(j) + rest;
    if j == 0 {
      assert bits[1..] == rest;
    } else {
      assert bits[1..] == Unary(j - 1) + rest;
      UnaryRoundTrip(j - 1, from + 1, limit, rest);
    }
  }

  lemma {:induction false} FirstSelector(js: seq<int>, rest: seq<bool>)
    ensures js == [] ==> SelectorBits(js) + rest == rest
    ensures js != [] && js[0] >= 0 ==> SelectorBits(js) + rest == Unary(js[0]) + (SelectorBits(js[1..]) + rest)
  {
    hide Unary;
  }

  lemma {:induction false} SelectorsRoundTrip(js: seq<int>, nGroups: int, rest: seq<bool>)
    requires forall i | 0 <= i < |js| :: 0 <= js[i] < nGroups
    ensures ReadSelectors(|js|, nGroups, SelectorBits(js) + rest) == Done(js, rest)
  {
    hide Unary, ReadUnary, SelectorBits;
    FirstSelector(js, rest);
    if js != [] {
      var more := SelectorBits(js[1..]) + rest;
      UnaryRoundTrip(js[0], 0, nGroups, more);
      SelectorsRoundTrip(js[1..], nGroups, rest);
      assert js == [js[0]] + js[1..];
    }
  }

  // ---- code lengths, as steps from the one before

  /** From curr to the length to: 10 for one up, 11 for one down, 0 at the end. */
  function StepBits(curr: int, to: int): seq<bool>
    decreases if curr < to then to - curr else curr - to
  {
    if curr < to then [true, false] + StepBits(curr + 1, to)
    else if curr > to then [true, true] + StepBits(curr - 1, to)
    else [false]
  }

  function LengthsFrom(curr: int, len: seq<Byte>): seq<bool>
    decreases |len|
  {
    if len == [] then [] else StepBits(curr, len[0] as int) + LengthsFrom(len[0] as int, len[1..])
  }

  function TableBits(len: seq<Byte>): seq<bool>
  {
    if len == [] then [] else BitsOf(len[0] as int, 5) + LengthsFrom(len[0] as int, len)
  }

  function ReadLength(curr: int, bits: seq<bool>): (r: Parse<int>)
    ensures r.Done? ==> |r.rest| <= |bits|
    ensures r.Done? ==> 1 <= r.value <= LONGEST_CODE
    decreases |bits|
  {
    if curr < 1 || curr > LONGEST_CODE then Bad
    else if bits == [] then NeedMore
    else if !bits[0] then Done(curr, bits[1..])
    else if |bits| == 1 then NeedMore
    else ReadLength(if bits[1] then curr - 1 else curr + 1, bits[2..])
  }

  function ReadLengths(n: nat, curr: int, bits: seq<bool>): (r: Parse<seq<Byte>>)
    ensures r.Done? ==> |r.rest| <= |bits|
    ensures r.Done? ==> |r.value| == n && forall i | 0 <= i < n :: 1 <= r.value[i] as int <= LONGEST_CODE
  {
    if n == 0 then Done([], bits)
    else
      var (c, rest) :- ReadLength(curr, bits);
      var (l, rest') :- ReadLengths(n - 1, c, rest);
      Done([c as Byte] + l, rest')
  }

  function ReadTable(n: nat, bits: seq<bool>): (r: Parse<seq<Byte>>)
    ensures r.Done? ==> |r.rest| <= |bits|
    ensures r.Done? ==> |r.value| == n && forall i | 0 <= i < n :: 1 <= r.value[i] as int <= LONGEST_CODE
  {
    var (curr, rest) :- ReadBits(bits, 5);
    ReadLengths(n, curr, rest)
  }

  lemma {:induction false} StepsRoundTrip(curr: int, to: int, rest: seq<bool>)
    requires 1 <= curr <= LONGEST_CODE && 1 <= to <= LONGEST_CODE
    ensures ReadLength(curr, StepBits(curr, to) + rest) == Done(to, rest)
    decreases if curr < to then to - curr else curr - to
  {
    var bits := StepBits(curr, to) + rest;
    if curr == to {
      assert bits[1..] == rest;
    } else {
      var c := if curr < to then curr + 1 else curr - 1;
      assert bits[2..] == StepBits(c, to) + rest;
      StepsRoundTrip(c, to, rest);
    }
  }

  lemma {:induction false} LengthsRoundTrip(curr: int, len: seq<Byte>, rest: seq<bool>)
    requires 1 <= curr <= LONGEST_CODE && forall i | 0 <= i < |len| :: 1 <= len[i] as int <= LONGEST_CODE
    ensures ReadLengths(|len|, curr, LengthsFrom(curr, len) + rest) == Done(len, rest)
    decreases |len|
  {
    if len == [] {
      assert LengthsFrom(curr, len) + rest == rest;
    } else {
      var c := len[0] as int;
      var more := LengthsFrom(c, len[1..]) + rest;
      assert LengthsFrom(curr, len) + rest == StepBits(curr, c) + more;
      StepsRoundTrip(curr, c, more);
      LengthsRoundTrip(c, len[1..], rest);
      assert len == [c as Byte] + len[1..];
    }
  }

  lemma {:induction false} TableRoundTrip(len: seq<Byte>, rest: seq<bool>)
    requires IsLengths(len)
    ensures ReadTable(|len|, TableBits(len) + rest) == Done(len, rest)
  {
    var c := len[0] as int;
    var more := LengthsFrom(c, len) + rest;
    assert TableBits(len) + rest == BitsOf(c, 5) + more;
    assert Pow2(5) == 32;
    ReadBack(c, 5, more);
    LengthsRoundTrip(c, len, rest);
  }

  /** One table behind another. */
  function TablesBits(lens: seq<seq<Byte>>): seq<bool>
  {
    if lens == [] then [] else TableBits(lens[0]) + TablesBits(lens[1..])
  }

  function ReadTables(t: nat, n: nat, bits: seq<bool>): (r: Parse<seq<seq<Byte>>>)
    ensures r.Done? ==> |r.rest| <= |bits|
    ensures r.Done? ==> |r.value| == t
    ensures r.Done? && 1 <= n <= MAX_ALPHA_SIZE ==> forall k | 0 <= k < t :: |r.value[k]| == n && IsLengths(r.value[k])
  {
    if t == 0 then Done([], bits)
    else
      var (len, rest) :- ReadTable(n, bits);
      var (lens, rest') :- ReadTables(t - 1, n, rest);
      Done([len] + lens, rest')
  }

  lemma {:induction false} TablesRoundTrip(lens: seq<seq<Byte>>, n: nat, rest: seq<bool>)
    requires forall t | 0 <= t < |lens| :: |lens[t]| == n && IsLengths(lens[t])
    ensures ReadTables(|lens|, n, TablesBits(lens) + rest) == Done(lens, rest)
  {
    if lens == [] {
      assert TablesBits(lens) + rest == rest;
    } else {
      var more := TablesBits(lens[1..]) + rest;
      assert TablesBits(lens) + rest == TableBits(lens[0]) + more;
      TableRoundTrip(lens[0], more);
      TablesRoundTrip(lens[1..], n, rest);
      assert lens == [lens[0]] + lens[1..];
    }
  }
}
