/**
 * A whole stream of one block, written out number by number, and what it decompresses to. Coder and decoder are proved
 * against the same format; the numbers here say which format it is.
 */
module KnownStream {
  import opened Bits
  import opened Rotations
  import opened InverseBwt
  import opened Counting
  import opened BitStrings
  import opened BitReader
  import opened MoveToFront
  import opened MtfEncode
  import opened HuffmanCodes
  import opened BlockParts
  import opened BlockData
  import opened BlockFormat
  import opened RunLength
  import opened StreamFormat
  import opened CompressedStream
  import opened Lossless
  import Crc
  import ZlibCrc
  import CrcSlicing
  import CrcMeaning

  // ---- numbers of some bits each, one behind the other

  datatype Fields = End | Field(value: nat, width: nat, more: Fields)

  function FieldBits(f: Fields): seq<bool> {
    if f.End? then [] else BitsOf(f.value, f.width) + FieldBits(f.more)
  }

  lemma {:induction false} MoreFields(v: nat, w: nat, f: Fields)
    ensures FieldBits(Field(v, w, f)) == BitsOf(v, w) + FieldBits(f) && FieldBits(End) == []
  {
  }

  // ---- the block: six times a, b, a

  const TEXT: seq<Byte> := [97, 97, 97, 97, 97, 97, 98, 97]
  const RUNS: seq<Run> := [Run(97, 6), Run(98, 1), Run(97, 1)]
  const BLOCK: seq<Byte> := [97, 97, 97, 97, 2, 98, 97]
  const ORDER: seq<int> := [4, 3, 2, 1, 0, 6, 5]
  const SYMBOLS: seq<int> := [2, 1, 0, 3, 3, 4]

  lemma {:induction false} TheRuns()
    ensures AreRuns(RUNS) && Plain(RUNS) == TEXT && Encode(RUNS) == BLOCK
  {
    assert RUNS[1..] == [Run(98, 1), Run(97, 1)] && RUNS[1..][1..] == [Run(97, 1)] && RUNS[1..][1..][1..] == [];
    assert Pair(Run(97, 6)) == [97, 97, 97, 97, 2] && Pair(Run(98, 1)) == [98] && Pair(Run(97, 1)) == [97];
    assert Copies(97, 6) == [97, 97, 97, 97, 97, 97] && Copies(98, 1) == [98] && Copies(97, 1) == [97];
    assert Encode(RUNS[1..][1..]) == [97] && Plain(RUNS[1..][1..]) == [97];
    assert Encode(RUNS[1..]) == [98, 97] && Plain(RUNS[1..]) == [98, 97];
  }

  /** Rotation x of the order is a, x times, and then 2, but for the last. */
  lemma {:induction false} RotationIs(x: nat, k: nat)
    requires k <= x < 6
    ensures Ch(BLOCK, ORDER[x], k) == if k == x then 2 else 97
    ensures Ch(BLOCK, ORDER[6], 0) == 98
  {
  }

  lemma {:induction false} TheOrder()
    ensures IsRotationOrder(BLOCK, ORDER) && ORDER[4] == 0
  {
    hide Ch;
    forall x, y | 0 <= x < y < 7
      ensures LessEq(BLOCK, ORDER[x], ORDER[y], 7)
    {
      var at := if y == 6 then 0 else x;
      forall k | 0 <= k <= at
        ensures k < at ==> Ch(BLOCK, ORDER[x], k) == Ch(BLOCK, ORDER[y], k)
        ensures k == at ==> Ch(BLOCK, ORDER[x], k) < Ch(BLOCK, ORDER[y], k)
      {
        RotationIs(x, k);
        if y < 6 { RotationIs(y, k); }
      }
      assert LessAt(BLOCK, ORDER[x], ORDER[y], at);
    }
  }

  lemma {:induction false} TheColumn()
    ensures LastColumn(BLOCK, ORDER) == [97, 97, 97, 97, 97, 98, 2]
  {
  }

  // ---- its symbols

  lemma {:induction false} RankFlat(u: seq<bool>, v: nat, w: nat)
    requires v <= w <= |u| && forall k | v <= k < w :: !u[k]
    ensures Rank(u, w) == Rank(u, v)
    decreases w
  {
    if v < w { RankFlat(u, v, w - 1); }
  }

  lemma {:induction false} TheRanks()
    ensures Rank(InUse(BLOCK), 2) == 0 && Rank(InUse(BLOCK), 97) == 1 && Rank(InUse(BLOCK), 98) == 2
    ensures Rank(InUse(BLOCK), 256) == 3
  {
    var u := InUse(BLOCK);
    assert u[2] && u[97] && u[98] by { assert BLOCK[4] == 2 && BLOCK[0] == 97 && BLOCK[5] == 98; }
    RankFlat(u, 0, 2);
    RankFlat(u, 3, 97);
    RankFlat(u, 99, 256);
    assert Rank(u, 3) == 1 && Rank(u, 99) == 3;
  }

  lemma {:induction false} NextIndex(list: seq<int>, j: nat, list': seq<int>, l: seq<int>, js: seq<int>)
    requires |list| == 3 && j < 3 && (forall i | 0 <= i < j :: list[i] != list[j]) && ToFront(list, j) == list'
    requires AllIn(l, list') && Indices(list', l) == js
    ensures AllIn([list[j]] + l, list) && Indices(list, [list[j]] + l) == [j] + js
  {
    hide Indices;
    forall i | 0 <= i < |l| ensures l[i] in list { ToFrontMembers(list, j, l[i]); }
    FirstIndex(list, j);
    IndicesStep(list, [list[j]] + l);
    assert ([list[j]] + l)[1..] == l;
  }

  lemma {:induction false} FirstIndex(list: seq<int>, j: nat)
    requires j < |list| && forall i | 0 <= i < j :: list[i] != list[j]
    ensures IndexOf(list, list[j]) == j
  {
    if j > 0 {
      assert list[1..][j - 1] == list[j];
      FirstIndex(list[1..], j - 1);
    }
  }

  lemma {:induction false} IndicesStep(list: seq<int>, l: seq<int>)
    requires AllIn(l, list) && l != []
    ensures var j := IndexOf(list, l[0]);
      AllIn(l[1..], ToFront(list, j)) && Indices(list, l) == [j] + Indices(ToFront(list, j), l[1..])
  {
    AllInNext(l, list, IndexOf(list, l[0]));
  }

  /** The list as it moves. */
  lemma {:induction false} TheLists()
    ensures ToFront([0, 1, 2], 1) == [1, 0, 2] && ToFront([1, 0, 2], 0) == [1, 0, 2]
    ensures ToFront([1, 0, 2], 2) == [2, 1, 0] && ToFront([2, 1, 0], 2) == [0, 2, 1]
    ensures AllIn([], [0, 2, 1]) && Indices([0, 2, 1], []) == []
  {
  }

  lemma {:induction false} TheIndices()
    ensures AllIn([1, 1, 1, 1, 1, 2, 0], [0, 1, 2])
    ensures Indices([0, 1, 2], [1, 1, 1, 1, 1, 2, 0]) == [1, 0, 0, 0, 0, 2, 2]
  {
    hide *;
    TheLists();
    NextIndex([2, 1, 0], 2, [0, 2, 1], [], []);
    var none: seq<int> := [];
    assert [0] + none == [0] && [2] + none == [2];
    NextIndex([1, 0, 2], 2, [2, 1, 0], [0], [2]);
    assert [2] + [0] == [2, 0] && [2] + [2] == [2, 2];
    NextIndex([1, 0, 2], 0, [1, 0, 2], [2, 0], [2, 2]);
    assert [1] + [2, 0] == [1, 2, 0] && [0] + [2, 2] == [0, 2, 2];
    NextIndex([1, 0, 2], 0, [1, 0, 2], [1, 2, 0], [0, 2, 2]);
    assert [1] + [1, 2, 0] == [1, 1, 2, 0] && [0] + [0, 2, 2] == [0, 0, 2, 2];
    NextIndex([1, 0, 2], 0, [1, 0, 2], [1, 1, 2, 0], [0, 0, 2, 2]);
    assert [1] + [1, 1, 2, 0] == [1, 1, 1, 2, 0] && [0] + [0, 0, 2, 2] == [0, 0, 0, 2, 2];
    NextIndex([1, 0, 2], 0, [1, 0, 2], [1, 1, 1, 2, 0], [0, 0, 0, 2, 2]);
    assert [1] + [1, 1, 1, 2, 0] == [1, 1, 1, 1, 2, 0] && [0] + [0, 0, 0, 2, 2] == [0, 0, 0, 0, 2, 2];
    NextIndex([0, 1, 2], 1, [1, 0, 2], [1, 1, 1, 1, 2, 0], [0, 0, 0, 0, 2, 2]);
    assert [1] + [1, 1, 1, 1, 2, 0] == [1, 1, 1, 1, 1, 2, 0] && [1] + [0, 0, 0, 0, 2, 2] == [1, 0, 0, 0, 0, 2, 2];
  }

  lemma {:induction false} TheStream()
    ensures SymbolStream([1, 0, 0, 0, 0, 2, 2], 0, 4) == SYMBOLS
  {
    var js: seq<int> := [1, 0, 0, 0, 0, 2, 2];
    assert RunSymbols(0) == [] && RunSymbols(1) == [RUNA] && RunSymbols(4) == [RUNB, RUNA];
    assert js[6..] == [2] && js[7..] == [] && js[6..][1..] == js[7..] && js[5..][1..] == js[6..];
    assert js[4..][1..] == js[5..] && js[3..][1..] == js[4..] && js[2..][1..] == js[3..] && js[1..][1..] == js[2..];
    assert SymbolStream(js[7..], 0, 4) == [4] && SymbolStream(js[6..], 0, 4) == [3, 4];
    assert SymbolStream(js[5..], 4, 4) == [1, 0, 3, 3, 4];
    assert SymbolStream(js[4..], 3, 4) == [1, 0, 3, 3, 4] && SymbolStream(js[3..], 2, 4) == [1, 0, 3, 3, 4];
    assert SymbolStream(js[2..], 1, 4) == [1, 0, 3, 3, 4] && SymbolStream(js[1..], 0, 4) == [1, 0, 3, 3, 4];
  }

  lemma {:induction false} TheSymbols()
    ensures SymbolsOf(BLOCK, ORDER) == SYMBOLS && AlphaSize(BLOCK) == 5
  {
    hide Indices, SymbolStream, Rank, InUse;
    TheRanks();
    TheColumn();
    TheIndices();
    TheStream();
    assert Identity(3) == [0, 1, 2];
    assert ColumnSymbols(BLOCK, ORDER, InUse(BLOCK)) == [1, 1, 1, 1, 1, 2, 0];
  }

  // ---- its tables

  const TABLES: seq<seq<Byte>> := [[2, 2, 2, 3, 3], [3, 3, 2, 2, 2]]
  const SELECTORS: seq<int> := [1]

  function TheChoice(): Choice {
    Choice(TABLES, SELECTORS)
  }

  /** From the second length on, the first codes double. */
  lemma {:induction false} FirstDoubles(len: seq<Byte>, n: nat)
    requires n >= 4 && (forall i | 0 <= i < |len| :: 1 <= len[i] <= 3)
    ensures First(len, n) == First(len, 4) * Pow2(n - 4)
    decreases n
  {
    if n > 4 {
      FirstDoubles(len, n - 1);
      NoneOf(len, n - 1, |len|);
      TwiceProduct(First(len, 4), Pow2(n - 5));
    }
  }

  lemma {:induction false} NoneOf(len: seq<Byte>, n: nat, m: nat)
    requires n > 3 && m <= |len| && (forall i | 0 <= i < |len| :: 1 <= len[i] <= 3)
    ensures Count(len, n, m) == 0
  {
    if m > 0 { NoneOf(len, n, m - 1); }
  }

  lemma {:induction false} CountOfFive(len: seq<Byte>, c: int)
    requires |len| == 5
    ensures Count(len, c, 0) == 0 && Count(len, c, 1) == One(len[0], c)
    ensures Count(len, c, 2) == One(len[0], c) + One(len[1], c)
    ensures Count(len, c, 3) == One(len[0], c) + One(len[1], c) + One(len[2], c)
    ensures Count(len, c, 4) == One(len[0], c) + One(len[1], c) + One(len[2], c) + One(len[3], c)
    ensures Count(len, c, 5) == One(len[0], c) + One(len[1], c) + One(len[2], c) + One(len[3], c) + One(len[4], c)
  {
  }

  function One(a: int, c: int): nat {
    if a == c then 1 else 0
  }

  lemma {:induction false} FirstCodes(len: seq<Byte>)
    requires |len| == 5 && (forall i | 0 <= i < 5 :: 2 <= len[i] <= 3) && Count(len, 2, 5) == 3 && Count(len, 3, 5) == 2
    ensures First(len, 2) == 0 && First(len, 3) == 6 && First(len, 4) == 16
    ensures HasRoom(len) && IsLengths(len)
  {
    hide Count;
    CountOfFive(len, 0);
    CountOfFive(len, 1);
    FirstDoubles(len, LONGEST_CODE + 1);
    assert First(len, 0) == 0 && First(len, 1) == 0;
    Pow2Sum(4, LONGEST_CODE - 3);
    assert Pow2(4) == 16;
  }

  lemma {:induction false} TheCounts()
    ensures Count(TABLES[0], 2, 5) == 3 && Count(TABLES[0], 3, 5) == 2
    ensures Count(TABLES[1], 2, 5) == 3 && Count(TABLES[1], 3, 5) == 2
    ensures Count(TABLES[1], 3, 0) == 0 && Count(TABLES[1], 3, 1) == 1
    ensures Count(TABLES[1], 2, 2) == 0 && Count(TABLES[1], 2, 3) == 1 && Count(TABLES[1], 2, 4) == 2
  {
    hide Count;
    CountOfFive(TABLES[0], 2);
    CountOfFive(TABLES[0], 3);
    CountOfFive(TABLES[1], 2);
    CountOfFive(TABLES[1], 3);
  }

  lemma {:induction false} TheChoiceFits()
    ensures IsChoice(TheChoice(), SYMBOLS, 5) && CanCode(TABLES, SELECTORS, SYMBOLS)
  {
    TheCounts();
    FirstCodes(TABLES[0]);
    FirstCodes(TABLES[1]);
    hide HasRoom, IsLengths;
    ChoiceCodes(TheChoice(), SYMBOLS, 5);
  }

  lemma {:induction false} TheCodes()
    ensures CodeBits(TABLES[1], 0) == BitsOf(6, 3) && CodeBits(TABLES[1], 1) == BitsOf(7, 3)
    ensures CodeBits(TABLES[1], 2) == BitsOf(0, 2) && CodeBits(TABLES[1], 3) == BitsOf(1, 2)
    ensures CodeBits(TABLES[1], 4) == BitsOf(2, 2)
  {
    hide BitsOf, Count;
    TheCounts();
    FirstCodes(TABLES[1]);
  }

  // ---- its bits

  function Nibble(v: nat): seq<bool> {
    [v / 8 % 2 == 1, v / 4 % 2 == 1, v / 2 % 2 == 1, v % 2 == 1]
  }

  lemma {:induction false} FourBits(v: nat)
    requires v < 16
    ensures BitsOf(v, 4) == Nibble(v)
  {
    SmallestPowers();
    BitsFrom(v, 3);
    BitsFrom(v % 8, 2);
    BitsFrom(v % 8 % 4, 1);
    BitsFrom(v % 8 % 4 % 2, 0);
    hide BitsOf;
  }

  lemma {:induction false} SmallestPowers()
    ensures Pow2(3) == 8 && Pow2(2) == 4 && Pow2(1) == 2 && Pow2(0) == 1
  {
  }

  lemma {:induction false} BitsFrom(v: nat, n: nat)
    ensures BitsOf(v, n + 1) == [v / Pow2(n) % 2 == 1] + BitsOf(v % Pow2(n), n) && BitsOf(v % Pow2(0), 0) == []
  {
  }

  lemma {:induction false} SixteenBits(a: nat, b: nat, c: nat, d: nat)
    requires a < 16 && b < 16 && c < 16 && d < 16
    ensures BitsOf(0x1000 * a + 0x100 * b + 0x10 * c + d, 16) == Nibble(a) + Nibble(b) + Nibble(c) + Nibble(d)
  {
    hide *;
    FourAndEight();
    FourBits(a);
    FourBits(b);
    FourBits(c);
    FourBits(d);
    BitsSplit(a, b, 4, 4);
    BitsSplit(c, d, 4, 4);
    BitsSplit(16 * a + b, 16 * c + d, 8, 8);
    Regrouped4(Nibble(a), Nibble(b), Nibble(c), Nibble(d));
  }

  lemma {:induction false} FourAndEight()
    ensures Pow2(4) == 16 && Pow2(8) == 256
  {
    Pow2Values();
  }

  lemma {:induction false} Regrouped4(a: seq<bool>, b: seq<bool>, c: seq<bool>, d: seq<bool>)
    ensures (a + b) + (c + d) == a + b + c + d
  {
  }

  lemma {:induction false} RowsSkip(u: seq<bool>, i: nat, j: nat)
    requires |u| == 256 && i <= j <= 16 && forall k | i <= k < j :: true !in Row(u, k)
    ensures RowsFrom(u, i) == RowsFrom(u, j)
    decreases j - i
  {
    if i < j { RowsSkip(u, i + 1, j); }
  }

  lemma {:induction false} UsedIs(v: nat)
    requires v < 256
    ensures InUse(BLOCK)[v] <==> v == 2 || v == 97 || v == 98
  {
    assert BLOCK[4] == 2 && BLOCK[0] == 97 && BLOCK[5] == 98;
  }

  lemma {:induction false} TheRows(i: nat)
    requires i < 16
    ensures true in Row(InUse(BLOCK), i) <==> i == 0 || i == 6
    ensures Row(InUse(BLOCK), 0) == Nibble(2) + Nibble(0) + Nibble(0) + Nibble(0)
    ensures Row(InUse(BLOCK), 6) == Nibble(6) + Nibble(0) + Nibble(0) + Nibble(0)
  {
    hide InUse;
    var u := InUse(BLOCK);
    forall v | 0 <= v < 256 ensures u[v] <==> v == 2 || v == 97 || v == 98 { UsedIs(v); }
    assert Row(u, 0)[2] && Row(u, 6)[1];
  }

  lemma {:induction false} TheMapping()
    ensures MappingBits(InUse(BLOCK)) == BitsOf(0x8200, 16) + (BitsOf(0x2000, 16) + BitsOf(0x6000, 16))
  {
    hide InUse, BitsOf, Row;
    var u := InUse(BLOCK);
    forall i | 0 <= i < 16 ensures true in Row(u, i) <==> i == 0 || i == 6 { TheRows(i); }
    TheRows(0);
    SixteenBits(8, 2, 0, 0);
    SixteenBits(2, 0, 0, 0);
    SixteenBits(6, 0, 0, 0);
    assert RowFlags(u) == Nibble(8) + Nibble(2) + Nibble(0) + Nibble(0);
    RowsSkip(u, 1, 6);
    RowsSkip(u, 7, 16);
    hide Nibble;
    assert RowsFrom(u, 7) == [] && RowsFrom(u, 6) == Row(u, 6) + [];
    assert RowsFrom(u, 0) == Row(u, 0) + RowsFrom(u, 6);
  }

  lemma {:induction false} ShortBits()
    ensures BitsOf(0, 1) == [false] && BitsOf(2, 2) == [true, false]
    ensures BitsOf(4, 3) == [true, false, false] && BitsOf(6, 3) == [true, true, false]
  {
    assert Pow2(2) == 4 && Pow2(1) == 2 && Pow2(0) == 1;
    assert BitsOf(0, 1) == [false] + BitsOf(0, 0) && BitsOf(1, 1) == [true] + BitsOf(0, 0);
    assert BitsOf(0, 2) == [false] + BitsOf(0, 1) && BitsOf(2, 2) == [true] + BitsOf(0, 1);
  }

  lemma {:induction false} TheSelectors()
    ensures SelectorBits(SelectorIndices(SELECTORS, 2)) == BitsOf(2, 2)
  {
    hide *;
    ShortBits();
    FirstIndex([0, 1], 1);
    IndicesStep([0, 1], [1]);
    NoIndices(ToFront([0, 1], 1));
    OneSelector();
    assert [1] + [] == [1];
  }

  lemma {:induction false} OneSelector()
    ensures SELECTORS == [1] && [1][1..] == [] && SelectorBits([1]) == [true, false]
    ensures (forall i | 0 <= i < |SELECTORS| :: 0 <= SELECTORS[i] < 2) && AllIn(SELECTORS, [0, 1])
    ensures SelectorIndices(SELECTORS, 2) == Indices([0, 1], SELECTORS)
  {
    hide Indices;
    assert Identity(2) == [0, 1];
    assert Unary(1) == [true] + Unary(0);
    assert SelectorBits([1]) == Unary(1) + SelectorBits([]);
  }

  lemma {:induction false} NoIndices(list: seq<int>)
    ensures AllIn([], list) && Indices(list, []) == []
  {
  }

  lemma {:induction false} LengthsAre(curr: int, a: Byte, b: Byte, c: Byte, d: Byte, e: Byte)
    ensures LengthsFrom(curr, [a, b, c, d, e]) == StepBits(curr, a) + (StepBits(a, b) + (StepBits(b, c) +
      (StepBits(c, d) + StepBits(d, e))))
  {
    hide StepBits;
    assert LengthsFrom(e, []) == [];
    assert [e][1..] == [] && [d, e][1..] == [e] && [c, d, e][1..] == [d, e] && [b, c, d, e][1..] == [c, d, e];
    assert [a, b, c, d, e][1..] == [b, c, d, e];
    assert LengthsFrom(d, [e]) == StepBits(d, e) + [];
    assert LengthsFrom(c, [d, e]) == StepBits(c, d) + LengthsFrom(d, [e]);
    assert LengthsFrom(b, [c, d, e]) == StepBits(b, c) + LengthsFrom(c, [d, e]);
    assert LengthsFrom(a, [b, c, d, e]) == StepBits(a, b) + LengthsFrom(b, [c, d, e]);
  }

  lemma {:induction false} TheSteps()
    ensures StepBits(2, 2) == BitsOf(0, 1) == StepBits(3, 3)
    ensures StepBits(2, 3) == BitsOf(4, 3) && StepBits(3, 2) == BitsOf(6, 3)
  {
    hide BitsOf;
    ShortBits();
    assert StepBits(2, 3) == [true, false] + StepBits(3, 3) && StepBits(3, 2) == [true, true] + StepBits(2, 2);
  }

  lemma {:induction false} TheTables()
    ensures var z := BitsOf(0, 1);
      && TableBits(TABLES[0]) == BitsOf(2, 5) + (z + (z + (z + (BitsOf(4, 3) + z))))
      && TableBits(TABLES[1]) == BitsOf(3, 5) + (z + (z + (BitsOf(6, 3) + (z + z))))
      && TablesBits(TABLES) == TableBits(TABLES[0]) + (TableBits(TABLES[1]) + [])
  {
    hide BitsOf, StepBits, LengthsFrom;
    TheSteps();
    LengthsAre(2, 2, 2, 2, 3, 3);
    LengthsAre(3, 3, 3, 2, 2, 2);
    assert TABLES[1..][1..] == [];
    hide TableBits;
    assert TablesBits(TABLES[1..]) == TableBits(TABLES[1]) + TablesBits(TABLES[1..][1..]);
  }

  lemma {:induction false} DataStep(syms: seq<int>, k: nat)
    requires k < |syms| <= 50 && CanCode(TABLES, SELECTORS, syms)
    ensures 0 <= syms[k] < 5
    ensures DataBits(TABLES, SELECTORS, syms, k) == CodeBits(TABLES[1], syms[k]) +
      DataBits(TABLES, SELECTORS, syms, k + 1)
  {
    assert InGroup(TABLES, SELECTORS, syms, k) && k / GROUP_SIZE == 0;
    hide CodeBits;
  }

  lemma {:induction false} TheData()
    requires CanCode(TABLES, SELECTORS, SYMBOLS)
    ensures DataBits(TABLES, SELECTORS, SYMBOLS, 0) == BitsOf(0, 2) + (BitsOf(7, 3) + (BitsOf(6, 3) +
      (BitsOf(1, 2) + (BitsOf(1, 2) + (BitsOf(2, 2) + [])))))
  {
    hide BitsOf, CodeBits, DataBits, CanCode;
    TheCodes();
    NoMoreBits(TABLES, SELECTORS, SYMBOLS);
    DataStep(SYMBOLS, 0);
    DataStep(SYMBOLS, 1);
    DataStep(SYMBOLS, 2);
    DataStep(SYMBOLS, 3);
    DataStep(SYMBOLS, 4);
    DataStep(SYMBOLS, 5);
  }

  // ---- its checksum

  lemma {:induction false} FirstTurns()
    ensures var x: bv32 := 0x9e00_0000; Crc.CrcBit(Crc.CrcBit(Crc.CrcBit(Crc.CrcBit(x)))) == 0xc2c9_f00f
    ensures var x: bv32 := 0xc2c9_f00f; Crc.CrcBit(Crc.CrcBit(Crc.CrcBit(Crc.CrcBit(x)))) == 0x1993_9b94
    ensures var x: bv32 := 0x8700_0000; Crc.CrcBit(Crc.CrcBit(Crc.CrcBit(Crc.CrcBit(x)))) == 0x5608_edb8
    ensures var x: bv32 := 0x5608_edb8; Crc.CrcBit(Crc.CrcBit(Crc.CrcBit(Crc.CrcBit(x)))) == 0x774b_b0eb
    ensures var x: bv32 := 0x7a00_0000; Crc.CrcBit(Crc.CrcBit(Crc.CrcBit(Crc.CrcBit(x)))) == 0xbe47_5005
    ensures var x: bv32 := 0xbe47_5005; Crc.CrcBit(Crc.CrcBit(Crc.CrcBit(Crc.CrcBit(x)))) == 0xcf3e_cb31
    ensures var x: bv32 := 0x8100_0000; Crc.CrcBit(Crc.CrcBit(Crc.CrcBit(Crc.CrcBit(x)))) == 0x3608_edb8
    ensures var x: bv32 := 0x3608_edb8; Crc.CrcBit(Crc.CrcBit(Crc.CrcBit(Crc.CrcBit(x)))) == 0x6dcd_fd59
  {
  }

  lemma {:induction false} LastTurns()
    ensures var x: bv32 := 0x1600_0000; Crc.CrcBit(Crc.CrcBit(Crc.CrcBit(Crc.CrcBit(x)))) == 0x64c1_1db7
    ensures var x: bv32 := 0x64c1_1db7; Crc.CrcBit(Crc.CrcBit(Crc.CrcBit(Crc.CrcBit(x)))) == 0x5697_96c2
    ensures var x: bv32 := 0xda00_0000; Crc.CrcBit(Crc.CrcBit(Crc.CrcBit(Crc.CrcBit(x)))) == 0x91cd_86d3
    ensures var x: bv32 := 0x91cd_86d3; Crc.CrcBit(Crc.CrcBit(Crc.CrcBit(Crc.CrcBit(x)))) == 0x3e11_9d3f
    ensures var x: bv32 := 0x0700_0000; Crc.CrcBit(Crc.CrcBit(Crc.CrcBit(Crc.CrcBit(x)))) == 0x7000_0000
    ensures var x: bv32 := 0x7000_0000; Crc.CrcBit(Crc.CrcBit(Crc.CrcBit(Crc.CrcBit(x)))) == 0x1e47_5005
    ensures var x: bv32 := 0xa100_0000; Crc.CrcBit(Crc.CrcBit(Crc.CrcBit(Crc.CrcBit(x)))) == 0x3f8a_d6d6
    ensures var x: bv32 := 0x3f8a_d6d6; Crc.CrcBit(Crc.CrcBit(Crc.CrcBit(Crc.CrcBit(x)))) == 0xf5ee_4bb9
  {
  }

  lemma {:induction false} TheStates()
    ensures CrcMeaning.Looked(0xffff_ffff, 0x61) == 0x9e00_0000 && CrcMeaning.Up8(0xffff_ffff) == 0xffff_ff00
    ensures ZlibCrc.Xor(0xffff_ff00, 0x1993_9b94) == 0xe66c_6494
    ensures CrcMeaning.Looked(0xe66c_6494, 0x61) == 0x8700_0000 && CrcMeaning.Up8(0xe66c_6494) == 0x6c64_9400
    ensures ZlibCrc.Xor(0x6c64_9400, 0x774b_b0eb) == 0x1b2f_24eb
    ensures CrcMeaning.Looked(0x1b2f_24eb, 0x61) == 0x7a00_0000 && CrcMeaning.Up8(0x1b2f_24eb) == 0x2f24_eb00
    ensures ZlibCrc.Xor(0x2f24_eb00, 0xcf3e_cb31) == 0xe01a_2031
    ensures CrcMeaning.Looked(0xe01a_2031, 0x61) == 0x8100_0000 && CrcMeaning.Up8(0xe01a_2031) == 0x1a20_3100
    ensures ZlibCrc.Xor(0x1a20_3100, 0x6dcd_fd59) == 0x77ed_cc59
    ensures CrcMeaning.Looked(0x77ed_cc59, 0x61) == 0x1600_0000 && CrcMeaning.Up8(0x77ed_cc59) == 0xedcc_5900
    ensures ZlibCrc.Xor(0xedcc_5900, 0x5697_96c2) == 0xbb5b_cfc2
    ensures CrcMeaning.Looked(0xbb5b_cfc2, 0x61) == 0xda00_0000 && CrcMeaning.Up8(0xbb5b_cfc2) == 0x5bcf_c200
    ensures ZlibCrc.Xor(0x5bcf_c200, 0x3e11_9d3f) == 0x65de_5f3f
    ensures CrcMeaning.Looked(0x65de_5f3f, 0x62) == 0x0700_0000 && CrcMeaning.Up8(0x65de_5f3f) == 0xde5f_3f00
    ensures ZlibCrc.Xor(0xde5f_3f00, 0x1e47_5005) == 0xc018_6f05
    ensures CrcMeaning.Looked(0xc018_6f05, 0x61) == 0xa100_0000 && CrcMeaning.Up8(0xc018_6f05) == 0x186f_0500
    ensures ZlibCrc.Xor(0x186f_0500, 0xf5ee_4bb9) == 0xed81_4eb9
    ensures CrcSlicing.Wide(CrcSlicing.Octet(97)) == 0x61 && CrcSlicing.Wide(CrcSlicing.Octet(98)) == 0x62
    ensures ZlibCrc.Xor(0xed81_4eb9, ZlibCrc.ONES) == 0x127e_b146
  {
  }

  /** One more byte: looked up at l, which half way through its eight bits has become m, and then t. */
  lemma {:induction false} Fed(s: seq<Byte>, x: bv32, c: Byte, l: bv32, m: bv32, t: bv32)
    requires 0 <= Crc.CRC_START < WORD && CrcMeaning.AsWord(Crc.CrcFrom(Crc.CRC_START, s)) == x
    requires CrcMeaning.Looked(x, CrcSlicing.Wide(CrcSlicing.Octet(c))) == l
    requires Crc.CrcBit(Crc.CrcBit(Crc.CrcBit(Crc.CrcBit(l)))) == m
    requires Crc.CrcBit(Crc.CrcBit(Crc.CrcBit(Crc.CrcBit(m)))) == t
    ensures CrcMeaning.AsWord(Crc.CrcFrom(Crc.CRC_START, s + [c])) == ZlibCrc.Xor(CrcMeaning.Up8(x), t)
  {
    hide *;
    Crc.CrcAppend(Crc.CRC_START, s, [c]);
    Crc.CrcOne(Crc.CrcFrom(Crc.CRC_START, s), c);
    CrcMeaning.ByteIs(Crc.CrcFrom(Crc.CRC_START, s), c);
    CrcMeaning.StepIs(x, CrcSlicing.Wide(CrcSlicing.Octet(c)));
    CrcMeaning.EightIs(l);
  }

  lemma {:induction false} TheRegister()
    ensures 0 <= Crc.CRC_START < WORD
    ensures CrcMeaning.AsWord(Crc.CrcFrom(Crc.CRC_START, TEXT)) == 0xed81_4eb9
  {
    hide *;
    StartIs();
    FirstTurns();
    LastTurns();
    TheStates();
    var none: seq<Byte> := [];
    Fed(none, 0xffff_ffff, 97, 0x9e00_0000, 0xc2c9_f00f, 0x1993_9b94);
    assert none + [97] == [97];
    Fed([97], 0xe66c_6494, 97, 0x8700_0000, 0x5608_edb8, 0x774b_b0eb);
    assert [97] + [97] == [97, 97];
    Fed([97, 97], 0x1b2f_24eb, 97, 0x7a00_0000, 0xbe47_5005, 0xcf3e_cb31);
    assert [97, 97] + [97] == [97, 97, 97];
    Fed([97, 97, 97], 0xe01a_2031, 97, 0x8100_0000, 0x3608_edb8, 0x6dcd_fd59);
    assert [97, 97, 97] + [97] == [97, 97, 97, 97];
    Fed([97, 97, 97, 97], 0x77ed_cc59, 97, 0x1600_0000, 0x64c1_1db7, 0x5697_96c2);
    assert [97, 97, 97, 97] + [97] == [97, 97, 97, 97, 97];
    Fed([97, 97, 97, 97, 97], 0xbb5b_cfc2, 97, 0xda00_0000, 0x91cd_86d3, 0x3e11_9d3f);
    assert [97, 97, 97, 97, 97] + [97] == [97, 97, 97, 97, 97, 97];
    Fed([97, 97, 97, 97, 97, 97], 0x65de_5f3f, 98, 0x0700_0000, 0x7000_0000, 0x1e47_5005);
    assert [97, 97, 97, 97, 97, 97] + [98] == [97, 97, 97, 97, 97, 97, 98];
    Fed([97, 97, 97, 97, 97, 97, 98], 0xc018_6f05, 97, 0xa100_0000, 0x3f8a_d6d6, 0xf5ee_4bb9);
    assert [97, 97, 97, 97, 97, 97, 98] + [97] == [97, 97, 97, 97, 97, 97, 98, 97];
  }

  lemma {:induction false} StartIs()
    ensures 0 <= Crc.CRC_START < WORD && CrcMeaning.AsWord(Crc.CrcFrom(Crc.CRC_START, [])) == 0xffff_ffff
    ensures TEXT == [97, 97, 97, 97, 97, 97, 98, 97] && ZlibCrc.ONES == 0xffff_ffff
  {
  }

  lemma {:induction false} TheChecksum()
    ensures Crc.BlockCrc(TEXT) == 0x127e_b146
  {
    hide *;
    TheRegister();
    StartIs();
    TheStates();
    BlockCrcOf(TEXT);
    CrcMeaning.FinalisedIs(Crc.CrcFrom(Crc.CRC_START, TEXT));
    WordOnce(Crc.BlockCrc(TEXT));
  }

  lemma {:induction false} WordOnce(n: nat)
    requires n < WORD && CrcMeaning.AsWord(n) == 0x127e_b146
    ensures n == 0x127e_b146
  {
  }

  lemma {:induction false} BlockCrcOf(s: seq<Byte>)
    ensures 0 <= Crc.CRC_START < WORD && Crc.BlockCrc(s) == Crc.Finalised(Crc.CrcFrom(Crc.CRC_START, s)) < WORD
  {
    hide Crc.CrcFrom, Crc.Finalised;
  }

  // ---- the stream

  function Then(f: Fields, g: Fields): Fields {
    if f.End? then g else f.(more := Then(f.more, g))
  }

  lemma {:induction false} ThenBits(f: Fields, g: Fields)
    ensures FieldBits(Then(f, g)) == FieldBits(f) + FieldBits(g)
  {
    hide BitsOf;
    if f.Field? { ThenBits(f.more, g); }
  }

  /** BZh9. */
  function StreamHead(): Fields {
    Field(0x42, 8, Field(0x5a, 8, Field(0x68, 8, Field(0x39, 8, End))))
  }

  /** The digits of pi, the checksum, a flag, and the place of the block among its rotations. */
  function BlockHead(): Fields {
    Field(0x31, 8, Field(0x41, 8, Field(0x59, 8, Field(0x26, 8, Field(0x53, 8, Field(0x59, 8,
    Field(0x127e_b146, 32, Field(0, 1, Field(4, 24, End)))))))))
  }

  /** Rows 0 and 6 of 16 bytes each are in use: byte 2, and a and b. */
  function MappingFields(): Fields {
    Field(0x8200, 16, Field(0x2000, 16, Field(0x6000, 16, End)))
  }

  /** Two tables and one selector, which is 1; the lengths 2 2 2 3 3 and 3 3 2 2 2. */
  function TableFields(): Fields {
    Field(2, 3, Field(1, 15, Field(2, 2,
    Field(2, 5, Field(0, 1, Field(0, 1, Field(0, 1, Field(4, 3, Field(0, 1,
    Field(3, 5, Field(0, 1, Field(0, 1, Field(6, 3, Field(0, 1, Field(0, 1, End)))))))))))))))
  }

  /** The codes of the symbols 2, 1, 0, 3, 3, 4. */
  function SymbolFields(): Fields {
    Field(0, 2, Field(7, 3, Field(6, 3, Field(1, 2, Field(1, 2, Field(2, 2, End))))))
  }

  /** The digits of the root of pi, and the checksum of all blocks. */
  function StreamTail(): Fields {
    Field(0x17, 8, Field(0x72, 8, Field(0x45, 8, Field(0x38, 8, Field(0x50, 8, Field(0x90, 8,
    Field(0x127e_b146, 32, End)))))))
  }

  function WholeStream(): Fields {
    Then(StreamHead(),
      Then(BlockHead(), Then(MappingFields(), Then(TableFields(), Then(SymbolFields(), StreamTail())))))
  }

  lemma {:induction false} SixBytes(a: Byte, b: Byte, c: Byte, d: Byte, e: Byte, f: Byte, more: Fields)
    ensures FieldBits(Field(a, 8, Field(b, 8, Field(c, 8, Field(d, 8, Field(e, 8, Field(f, 8, more))))))) ==
      InputBits([a, b, c, d, e, f]) + FieldBits(more)
  {
    hide BitsOf, FieldBits;
    assert [f][1..] == [] && [e, f][1..] == [f] && [d, e, f][1..] == [e, f] && [c, d, e, f][1..] == [d, e, f];
    assert [b, c, d, e, f][1..] == [c, d, e, f] && [a, b, c, d, e, f][1..] == [b, c, d, e, f];
    assert InputBits([]) == [];
    MoreFields(f, 8, more);
    var g := Field(f, 8, more);
    MoreFields(e, 8, g);
    MoreFields(d, 8, Field(e, 8, g));
    MoreFields(c, 8, Field(d, 8, Field(e, 8, g)));
    MoreFields(b, 8, Field(c, 8, Field(d, 8, Field(e, 8, g))));
    MoreFields(a, 8, Field(b, 8, Field(c, 8, Field(d, 8, Field(e, 8, g)))));
    assert InputBits([f]) == BitsOf(f, 8) + InputBits([]) && InputBits([e, f]) == BitsOf(e, 8) + InputBits([f]);
    assert InputBits([d, e, f]) == BitsOf(d, 8) + InputBits([e, f]);
    assert InputBits([c, d, e, f]) == BitsOf(c, 8) + InputBits([d, e, f]);
    assert InputBits([b, c, d, e, f]) == BitsOf(b, 8) + InputBits([c, d, e, f]);
    assert InputBits([a, b, c, d, e, f]) == BitsOf(a, 8) + InputBits([b, c, d, e, f]);
  }

  lemma {:induction false} HeadIs()
    ensures FieldBits(StreamHead()) == InputBits(STREAM_MAGIC) + BitsOf(LEVEL_ZERO + 9, 8)
  {
    hide BitsOf;
    assert STREAM_MAGIC[1..] == [0x5a, 0x68] && STREAM_MAGIC[1..][1..] == [0x68];
    assert STREAM_MAGIC[1..][1..][1..] == [];
    assert InputBits(STREAM_MAGIC[1..][1..]) == BitsOf(0x68, 8) + [];
    assert InputBits(STREAM_MAGIC[1..]) == BitsOf(0x5a, 8) + InputBits(STREAM_MAGIC[1..][1..]);
    assert FieldBits(Field(0x39, 8, End)) == BitsOf(0x39, 8) + [];
    assert FieldBits(Field(0x68, 8, Field(0x39, 8, End))) == BitsOf(0x68, 8) + FieldBits(Field(0x39, 8, End));
  }

  lemma {:induction false} BlockHeadIs()
    ensures FieldBits(BlockHead()) == InputBits(BLOCK_MAGIC) +
      (BitsOf(0x127e_b146, 32) + (BitsOf(0, 1) + BitsOf(4, 24)))
  {
    hide BitsOf, FieldBits, InputBits;
    SixBytes(0x31, 0x41, 0x59, 0x26, 0x53, 0x59, Field(0x127e_b146, 32, Field(0, 1, Field(4, 24, End))));
    MoreFields(0x127e_b146, 32, Field(0, 1, Field(4, 24, End)));
    MoreFields(0, 1, Field(4, 24, End));
    MoreFields(4, 24, End);
  }

  lemma {:induction false} MappingIs()
    ensures FieldBits(MappingFields()) == MappingBits(InUse(BLOCK))
  {
    hide BitsOf, FieldBits, MappingBits, InUse;
    TheMapping();
    MoreFields(0x8200, 16, Field(0x2000, 16, Field(0x6000, 16, End)));
    MoreFields(0x2000, 16, Field(0x6000, 16, End));
    MoreFields(0x6000, 16, End);
  }

  lemma {:induction false} TableIs()
    ensures FieldBits(TableFields()) == BitsOf(2, 3) + (BitsOf(1, 15) +
      (SelectorBits(SelectorIndices(SELECTORS, 2)) + TablesBits(TABLES)))
  {
    hide *;
    TheSelectors();
    TheTables();
    TableParts();
    var z := BitsOf(0, 1);
    LongRegroup(BitsOf(2, 5), z, BitsOf(4, 3), FieldBits(SecondTable()));
    OnlyRegroup(BitsOf(3, 5), z, BitsOf(6, 3));
  }

  function SecondTable(): Fields {
    Field(3, 5, Field(0, 1, Field(0, 1, Field(6, 3, Field(0, 1, Field(0, 1, End))))))
  }

  lemma {:induction false} OnlyRegroup(a: seq<bool>, z: seq<bool>, s: seq<bool>)
    ensures a + (z + (z + (s + (z + (z + []))))) == (a + (z + (z + (s + (z + z))))) + []
  {
  }

  lemma {:induction false} LongRegroup(a: seq<bool>, z: seq<bool>, s: seq<bool>, more: seq<bool>)
    ensures a + (z + (z + (z + (s + (z + more))))) == (a + (z + (z + (z + (s + z))))) + more
  {
  }

  lemma {:induction false} TableParts()
    ensures var z := BitsOf(0, 1);
      && FieldBits(SecondTable()) == BitsOf(3, 5) + (z + (z + (BitsOf(6, 3) + (z + (z + [])))))
      && FieldBits(TableFields()) == BitsOf(2, 3) + (BitsOf(1, 15) + (BitsOf(2, 2) +
        (BitsOf(2, 5) + (z + (z + (z + (BitsOf(4, 3) + (z + FieldBits(SecondTable())))))))))
  {
    hide BitsOf, FieldBits;
    var g := SecondTable();
    var h := Field(0, 1, Field(0, 1, Field(0, 1, Field(4, 3, Field(0, 1, g)))));
    MoreFields(2, 3, Field(1, 15, Field(2, 2, Field(2, 5, h))));
    MoreFields(1, 15, Field(2, 2, Field(2, 5, h)));
    MoreFields(2, 2, Field(2, 5, h));
    MoreFields(2, 5, h);
    MoreFields(0, 1, h.more);
    MoreFields(0, 1, h.more.more);
    MoreFields(0, 1, h.more.more.more);
    MoreFields(4, 3, Field(0, 1, g));
    MoreFields(0, 1, g);
    MoreFields(3, 5, g.more);
    MoreFields(0, 1, g.more.more);
    MoreFields(0, 1, g.more.more.more);
    MoreFields(6, 3, g.more.more.more.more);
    MoreFields(0, 1, Field(0, 1, End));
    MoreFields(0, 1, End);
  }

  lemma {:induction false} SymbolsAre()
    requires CanCode(TABLES, SELECTORS, SYMBOLS)
    ensures FieldBits(SymbolFields()) == DataBits(TABLES, SELECTORS, SYMBOLS, 0)
  {
    hide BitsOf, FieldBits, DataBits, CanCode;
    TheData();
    var f := SymbolFields();
    MoreFields(0, 2, f.more);
    MoreFields(7, 3, f.more.more);
    MoreFields(6, 3, f.more.more.more);
    MoreFields(1, 2, f.more.more.more.more);
    MoreFields(1, 2, Field(2, 2, End));
    MoreFields(2, 2, End);
  }

  lemma {:induction false} TailIs()
    ensures FieldBits(StreamTail()) == InputBits(END_MAGIC) + BitsOf(0x127e_b146, 32)
  {
    hide BitsOf, FieldBits, InputBits;
    SixBytes(0x17, 0x72, 0x45, 0x38, 0x50, 0x90, Field(0x127e_b146, 32, End));
    MoreFields(0x127e_b146, 32, End);
  }

  function ThePiece(): Piece {
    Piece(BLOCK, ORDER, 4, 0x127e_b146, TheChoice())
  }

  lemma {:induction false} PieceIs()
    ensures IsPiece(ThePiece(), 9)
    ensures InputBits(BLOCK_MAGIC) + PieceBits(ThePiece(), 9) ==
      FieldBits(BlockHead()) + (FieldBits(MappingFields()) + (FieldBits(TableFields()) + FieldBits(SymbolFields())))
  {
    hide FieldBits, BitsOf, InputBits, MappingBits, SelectorBits, TablesBits, DataBits, SymbolsOf, AlphaSize, InUse,
      IsChoice, IsRotationOrder, CanCode, SelectorIndices;
    TheOrder();
    TheSymbols();
    TheChoiceFits();
    BlockHeadIs();
    MappingIs();
    TableIs();
    SymbolsAre();
    BlockRegroup(InputBits(BLOCK_MAGIC), BitsOf(0x127e_b146, 32), BitsOf(0, 1), BitsOf(4, 24),
      MappingBits(InUse(BLOCK)), CodedBits(TheChoice(), SYMBOLS, 5));
    CodedRegroup(BitsOf(2, 3), BitsOf(1, 15), SelectorBits(SelectorIndices(SELECTORS, 2)), TablesBits(TABLES),
      DataBits(TABLES, SELECTORS, SYMBOLS, 0));
  }

  lemma {:induction false} BlockRegroup(a: seq<bool>, b: seq<bool>, c: seq<bool>, d: seq<bool>, e: seq<bool>,
    f: seq<bool>)
    ensures a + (b + (c + (d + (e + f)))) == (a + (b + (c + d))) + (e + f)
  {
  }

  lemma {:induction false} CodedRegroup(a: seq<bool>, b: seq<bool>, c: seq<bool>, d: seq<bool>, e: seq<bool>)
    ensures a + (b + (c + (d + e))) == (a + (b + (c + d))) + e
  {
  }

  lemma {:induction false} OneWord(c: nat)
    requires c < WORD
    ensures ZlibCrc.Xor(CrcMeaning.Turned(CrcMeaning.AsWord(0)), CrcMeaning.AsWord(c)) == CrcMeaning.AsWord(c)
  {
    assert CrcMeaning.Turned(0) == 0;
    ZeroXor(CrcMeaning.AsWord(c));
    hide CrcMeaning.Turned, ZlibCrc.Xor;
  }

  lemma {:induction false} ZeroXor(x: bv32)
    ensures ZlibCrc.Xor(0, x) == x
  {
  }

  lemma {:induction false} OneCombined()
    ensures Crc.Combined([0x127e_b146]) == 0x127e_b146
  {
    hide *;
    TheWord();
    OneCrc(0x127e_b146);
    CrcMeaning.CombineIs(0, 0x127e_b146);
    OneWord(0x127e_b146);
    WordOnce(Crc.Combine(0, 0x127e_b146));
  }

  lemma {:induction false} TheWord()
    ensures CrcMeaning.AsWord(0x127e_b146) == 0x127e_b146 && 0x127e_b146 < WORD
  {
  }

  lemma {:induction false} OneCrc(crc: nat)
    requires crc < WORD
    ensures Crc.Combined([crc]) == Crc.Combine(0, crc)
  {
    hide Crc.Combine;
    assert [crc][..0] == [] && Crc.Combined([]) == 0;
  }

  lemma {:induction false} OneMade(m: Made, level: nat)
    requires IsMade(m, level)
    ensures AreMade([m], level) && Pieces([m]) == [m.piece] && Crcs([m]) == [m.piece.crc]
    ensures m.piece.crc < WORD && CombinedCrc([m], level) == Crc.Combined([m.piece.crc])
    ensures Covered([m]) == Plain(m.runs)
  {
    hide Encode, Plain, Crc.BlockCrc, AreRuns, Crc.Combined, IsRotationOrder, IsChoice;
    assert [m][..0] == [] && Covered([]) == [];
  }

  lemma {:induction false} MadeIs()
    ensures var m := Made(ThePiece(), RUNS);
      AreMade([m], 9) && Covered([m]) == TEXT && Pieces([m]) == [ThePiece()] && CombinedCrc([m], 9) == 0x127e_b146
  {
    hide *;
    TheMade();
    TheRuns();
    OneCombined();
    OneMade(Made(ThePiece(), RUNS), 9);
  }

  lemma {:induction false} TheMade()
    ensures IsMade(Made(ThePiece(), RUNS), 9) && ThePiece().crc == 0x127e_b146
  {
    PieceIs();
    TheRuns();
    TheChecksum();
    hide IsPiece, Encode, Plain, Crc.BlockCrc, AreRuns;
  }

  lemma {:induction false} StreamIs()
    ensures ArePieces([ThePiece()], 9)
    ensures StreamBits([ThePiece()], 9, 0x127e_b146) == FieldBits(WholeStream())
  {
    hide FieldBits, BitsOf, InputBits, IsPiece, PieceBits, Then;
    PieceIs();
    HeadIs();
    TailIs();
    assert [ThePiece()][1..] == [];
    var s, t, u := Then(SymbolFields(), StreamTail()), TableFields(), MappingFields();
    ThenBits(SymbolFields(), StreamTail());
    ThenBits(t, s);
    ThenBits(u, Then(t, s));
    ThenBits(BlockHead(), Then(u, Then(t, s)));
    ThenBits(StreamHead(), Then(BlockHead(), Then(u, Then(t, s))));
    StreamRegroup(InputBits(STREAM_MAGIC), BitsOf(LEVEL_ZERO + 9, 8), InputBits(BLOCK_MAGIC), PieceBits(ThePiece(), 9),
      FieldBits(StreamTail()));
    PieceRegroup(FieldBits(BlockHead()), FieldBits(u), FieldBits(t), FieldBits(SymbolFields()),
      FieldBits(StreamTail()));
  }

  lemma {:induction false} StreamRegroup(a: seq<bool>, b: seq<bool>, c: seq<bool>, d: seq<bool>, e: seq<bool>)
    ensures a + (b + (c + (d + e))) == (a + b) + ((c + d) + e)
  {
  }

  lemma {:induction false} PieceRegroup(a: seq<bool>, b: seq<bool>, c: seq<bool>, d: seq<bool>, e: seq<bool>)
    ensures (a + (b + (c + d))) + e == a + (b + (c + (d + e)))
  {
  }

  /** These bits, whatever follows them, decompress to aaaaaaba. */
  lemma {:induction false} SmallStream(rest: seq<bool>)
    ensures Decompressed(FieldBits(WholeStream()) + rest) == Bytes(TEXT)
  {
    hide *;
    MadeIs();
    StreamIs();
    StreamDecompressed([Made(ThePiece(), RUNS)], 9, rest);
  }
}
