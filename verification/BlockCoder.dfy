/** Compressing one block: sorting it, coding it, choosing tables for it, and writing it. */
module BlockCoder {
  import opened Bits
  import opened Rotations
  import opened InverseBwt
  import opened ByteView
  import opened BucketHeaders
  import BlockSort
  import opened BitStrings
  import opened MoveToFront
  import opened MtfEncode
  import opened HuffmanCodes
  import opened HuffmanForest
  import opened HuffmanLengths
  import opened SelectorCoding
  import opened BlockParts
  import opened BlockData
  import opened BlockFormat
  import opened BlockSize
  import opened BitWriter
  import opened BitReader
  import opened SendParts
  import opened SendBlock
  import opened StreamFormat
  import opened SendStream

  const MAX_SELECTORS := 18002

  /** How many tables a block of nMTF symbols gets. */
  function GroupsFor(nMTF: int): (n: int)
    ensures 2 <= n <= 6
  {
    if nMTF < 200 then 2 else if nMTF < 600 then 3 else if nMTF < 1200 then 4 else if nMTF < 2400 then 5 else 6
  }

  /** Any frequencies that add up to at most as much as there are symbols. */
  method SomeFrequencies(rfreq: array<int>, alphaSize: int, nMTF: int)
    requires 0 <= alphaSize <= rfreq.Length && 0 <= nMTF
    modifies rfreq
    ensures forall v | 0 <= v < alphaSize :: 0 <= rfreq[v]
    ensures Total(rfreq[..], alphaSize) <= nMTF + alphaSize
  {
    var left := nMTF;
    for v := 0 to alphaSize
      invariant 0 <= left && forall k | 0 <= k < v :: 0 <= rfreq[k]
      invariant Total(rfreq[..], v) <= nMTF - left + v
    {
      ghost var before := rfreq[..];
      var f: int := *;
      if f < 0 || f > left { f := 0; }
      left := left - f;
      rfreq[v] := f;
      TotalSame(before, rfreq[..], v);
    }
  }

  lemma {:induction false} TotalSame(f: seq<int>, g: seq<int>, k: nat)
    requires k <= |f| && k <= |g| && forall i | 0 <= i < k :: f[i] == g[i]
    ensures Total(f, k) == Total(g, k)
  {
    if k > 0 { TotalSame(f, g, k - 1); }
  }

  /** Any selectors. */
  method SomeSelectors(selector: array<int>, nSelectors: int, nGroups: int)
    requires 0 <= nSelectors <= selector.Length && 0 < nGroups
    modifies selector
    ensures forall i | 0 <= i < nSelectors :: 0 <= selector[i] < nGroups
  {
    for i := 0 to nSelectors
      invariant forall k | 0 <= k < i :: 0 <= selector[k] < nGroups
    {
      var t: int := *;
      if t < 0 || t >= nGroups { t := 0; }
      selector[i] := t;
    }
  }

  /** One table, whatever frequencies have been collected for it. */
  method SomeTable(len: array<int>, rfreq: array<int>, alphaSize: int, nMTF: int) returns (ghost lengths: seq<Byte>)
    requires len != rfreq && 2 <= alphaSize <= MAX_ALPHA_SIZE && alphaSize <= len.Length && alphaSize <= rfreq.Length
    requires 0 <= nMTF <= 900_001
    modifies len, rfreq
    ensures |lengths| == alphaSize && HoldsLengths(len, lengths) && IsLengths(lengths) && HasRoom(lengths)
  {
    hide IsLengths, HasRoom, HoldsLengths, Total;
    SomeFrequencies(rfreq, alphaSize, nMTF);
    ghost var rounds;
    lengths, rounds := RecomputeTable(len, rfreq, alphaSize);
  }

  /** The rows are different arrays, each long enough for the largest alphabet. */
  ghost predicate AreRows(rows: seq<array<int>>) {
    |rows| == 6 && DistinctRows(rows) && forall t | 0 <= t < 6 :: rows[t].Length >= MAX_ALPHA_SIZE
  }

  method SomeTables(len: seq<array<int>>, rfreq: seq<array<int>>, nGroups: int, alphaSize: int, nMTF: int)
    returns (ghost lens: seq<seq<Byte>>)
    requires AreRows(len) && AreRows(rfreq) && (forall t | 0 <= t < 6 :: rfreq[t] !in len)
    requires 2 <= alphaSize <= MAX_ALPHA_SIZE && 2 <= nGroups <= 6 && 0 <= nMTF <= 900_001
    modifies len, rfreq
    ensures |lens| == nGroups
    ensures forall t | 0 <= t < nGroups ::
      |lens[t]| == alphaSize && HoldsLengths(len[t], lens[t]) && IsLengths(lens[t]) && HasRoom(lens[t])
  {
    lens := [];
    hide IsLengths, HasRoom, HoldsLengths;
    for t := 0 to nGroups
      invariant |lens| == t
      invariant forall s | 0 <= s < t ::
        |lens[s]| == alphaSize && HoldsLengths(len[s], lens[s]) && IsLengths(lens[s]) && HasRoom(lens[s])
      modifies len, rfreq
    {
      ghost var l := SomeTable(len[t], rfreq[t], alphaSize, nMTF);
      lens := lens + [l];
    }
  }

  method SixRows() returns (rows: seq<array<int>>)
    ensures AreRows(rows) && forall t | 0 <= t < 6 :: fresh(rows[t])
  {
    rows := [];
    for t := 0 to 6
      invariant |rows| == t && DistinctRows(rows) &&
        forall s | 0 <= s < t :: fresh(rows[s]) && rows[s].Length >= MAX_ALPHA_SIZE
    {
      var row := new int[MAX_ALPHA_SIZE];
      rows := rows + [row];
    }
  }

  method OwnArrays(level: int) returns (o: seq<array<int>>)
    requires 1 <= level <= 9
    ensures |o| == 7 && DistinctRows(o) && forall i | 0 <= i < 7 :: fresh(o[i])
    ensures o[0].Length >= BLOCK_UNIT * level && o[1].Length >= BLOCK_UNIT * level + 34 && o[2].Length == 65537 &&
      IsTable(o[2][..])
    ensures o[3].Length == 256 && o[4].Length == 258 && o[5].Length >= MAX_SELECTORS && o[6].Length >= MAX_SELECTORS
  {
    var arr1, arr2 := new int[BLOCK_UNIT * level], new int[BLOCK_UNIT * level + 34];
    var ftab := new int[65537](i => 0);
    var unseqToSeq, mtfFreq := new int[256], new int[258];
    var selector, selectorMtf := new int[MAX_SELECTORS], new int[MAX_SELECTORS];
    o := [arr1, arr2, ftab, unseqToSeq, mtfFreq, selector, selectorMtf];
  }

  class Coder {
    const arr1: array<int>
    const arr2: array<int>
    const ftab: array<int>
    const unseqToSeq: array<int>
    const mtfFreq: array<int>
    const selector: array<int>
    const selectorMtf: array<int>
    const inUse: array<bool>
    const len: seq<array<int>>
    const code: seq<array<int>>
    const rfreq: seq<array<int>>
    const w: Writer
    const level: int
    const workFactor: int

    ghost function Own(): seq<array<int>> {
      [arr1, arr2, ftab, unseqToSeq, mtfFreq, selector, selectorMtf]
    }

    /** All objects it works on. */
    ghost function Objects(): set<object> {
      {w, w.zbits, inUse, arr1, arr2, ftab, unseqToSeq, mtfFreq, selector, selectorMtf} + (set a | a in len) +
        (set a | a in code) + (set a | a in rfreq)
    }

    /** All arrays are different, and large enough. */
    ghost predicate Apart() {
      && 1 <= level <= 9 && arr1.Length >= BLOCK_UNIT * level && arr2.Length >= BLOCK_UNIT * level + 34 &&
          ftab.Length == 65537
      && unseqToSeq.Length == 256 && mtfFreq.Length == 258 && selector.Length >= MAX_SELECTORS &&
          selectorMtf.Length >= MAX_SELECTORS
      && inUse.Length == 256 && AreRows(len) && AreRows(code) && AreRows(rfreq) && DistinctRows(Own())
      && w.zbits !in Own() && w.zbits !in len && w.zbits !in code && w.zbits !in rfreq
      && (forall t | 0 <= t < 6 :: len[t] !in Own() && code[t] !in Own() && rfreq[t] !in Own())
      && (forall t | 0 <= t < 6 :: code[t] !in len && rfreq[t] !in len && rfreq[t] !in code)
    }

    /** The arrays of BZ2_bzCompressInit; the writer's room is what arr2 leaves behind the largest block. */
    constructor (level: int, workFactor: int)
      requires 1 <= level <= 9
      ensures Apart() && this.level == level && this.workFactor == workFactor && IsTable(ftab[..]) && fresh(w) &&
        fresh(w.zbits) && fresh(inUse) && fresh(arr2)
      ensures fresh(Objects())
      ensures w.Valid() && w.Bits() == [] && w.zbits.Length == 300_000 * level && w.numZ == 0
    {
      hide IsTable, DistinctRows, Objects;
      this.level := level;
      this.workFactor := workFactor;
      var o := OwnArrays(level);
      arr1, arr2, ftab, unseqToSeq, mtfFreq, selector, selectorMtf := o[0], o[1], o[2], o[3], o[4], o[5], o[6];
      inUse := new bool[256];
      var a := SixRows();
      var b := SixRows();
      var c := SixRows();
      len, code, rfreq := a, b, c;
      w := new Writer(300_000 * level);
      new;
      assert Own() == o;
      AllFresh(this);
    }

    static twostate lemma {:induction false} AllFresh(new c: Coder)
      requires fresh(c.w) && fresh(c.w.zbits) && fresh(c.inUse) && forall i | 0 <= i < 7 :: fresh(c.Own()[i])
      requires forall i | 0 <= i < |c.len| :: fresh(c.len[i])
      requires forall i | 0 <= i < |c.code| :: fresh(c.code[i])
      requires forall i | 0 <= i < |c.rfreq| :: fresh(c.rfreq[i])
      ensures fresh(c.Objects())
    {
      var o := c.Own();
      assert fresh(o[0]) && fresh(o[1]) && fresh(o[2]) && fresh(o[3]) && fresh(o[4]) && fresh(o[5]) && fresh(o[6]);
    }

    lemma {:induction false} AllDifferent()
      requires DistinctRows(Own())
      ensures arr1 != arr2 && arr1 != ftab && arr1 != unseqToSeq && arr1 != mtfFreq && arr1 != selector &&
        arr1 != selectorMtf
      ensures arr2 != ftab && arr2 != unseqToSeq && arr2 != mtfFreq && arr2 != selector && arr2 != selectorMtf
      ensures ftab != unseqToSeq && ftab != mtfFreq && ftab != selector && ftab != selectorMtf
      ensures unseqToSeq != mtfFreq && unseqToSeq != selector && unseqToSeq != selectorMtf
      ensures mtfFreq != selector && mtfFreq != selectorMtf && selector != selectorMtf
    {
      var o := Own();
      assert o[0] == arr1 && o[1] == arr2 && o[2] == ftab && o[3] == unseqToSeq && o[4] == mtfFreq &&
        o[5] == selector && o[6] == selectorMtf;
    }

    /** Tables and selectors for the block's symbols: any tables and selectors there could be. */
    method Choose(nMTF: int, alphaSize: int, ghost syms: seq<int>)
      returns (nGroups: int, nSelectors: int, ghost c: Choice)
      requires Apart() && 2 < alphaSize <= MAX_ALPHA_SIZE && 1 <= nMTF == |syms| <= 900_001 &&
        forall k | 0 <= k < nMTF :: 0 <= syms[k] < alphaSize
      modifies len, rfreq, selector, code
      ensures IsChoice(c, syms, alphaSize) && nGroups == |c.lens| && 0 <= nSelectors <= MAX_SELECTORS &&
        selector[..nSelectors] == c.sel
      ensures HoldsTables(len, code, c.lens)
    {
      AllDifferent();
      nGroups := GroupsFor(nMTF);
      nSelectors := (nMTF + 49) / 50;
      hide IsLengths, HasRoom, HoldsLengths, HoldsCodes, DistinctRows;
      SomeSelectors(selector, nSelectors, nGroups);
      ghost var lens := SomeTables(len, rfreq, nGroups, alphaSize, nMTF);
      AssignTables(len, code, nGroups, alphaSize, lens);
      c := Choice(lens, selector[..nSelectors]);
    }

    ghost predicate Ready()
      reads this, w, w.zbits, ftab
    {
      Apart() && IsTable(ftab[..]) && w.Valid()
    }

    ghost function Head(crc: nat, origPtr: nat): (s: seq<bool>)
      ensures |s| == HEADER_BITS
    {
      assert |InputBits(BLOCK_MAGIC)| == 48;
      InputBits(BLOCK_MAGIC) + (BitsOf(crc, 32) + ([false] + BitsOf(origPtr, 24)))
    }

    /** The order of the block, and the block's header. */
    method SortAndHead(nblock: int, blockCRC: int, ghost b: Block) returns (origPtr: int)
      requires Ready() && 0 < nblock <= BLOCK_UNIT * level && b == BytesOf(arr2[..], nblock) && 0 <= blockCRC < WORD
      requires |w.Bits()| + HEADER_BITS <= 8 * w.zbits.Length
      modifies arr1, arr2, ftab, w, w.zbits
      ensures Ready() && IsRotationOrder(b, arr1[..nblock]) && BytesOf(arr2[..], nblock) == b
      ensures 0 <= origPtr < nblock && arr1[origPtr] == 0 && w.Bits() == old(w.Bits()) + Head(blockCRC, origPtr)
    {
      AllDifferent();
      hide DistinctRows, IsRotationOrder, Sent, BitsOf, InputBits, BytesOf;
      origPtr := BlockSort.BlockSort(arr1, arr2, ftab, nblock, workFactor);
      ghost var total := w.Bits() + Head(blockCRC, origPtr);
      HeadTodo(w.Bits(), blockCRC, origPtr, total);
      Pow2Values();
      SendBlockHeader(w, blockCRC, origPtr, [], total);
      SentAll(w.Bits(), total);
    }

    lemma {:induction false} HeadTodo(bits: seq<bool>, crc: nat, origPtr: nat, total: seq<bool>)
      requires total == bits + Head(crc, origPtr)
      ensures Sent(bits, InputBits(BLOCK_MAGIC) + (BitsOf(crc, 32) + ([false] + (BitsOf(origPtr, 24) + []))), total)
    {
      hide InputBits, BitsOf;
      assert BitsOf(origPtr, 24) + [] == BitsOf(origPtr, 24);
    }

    /** The block's symbols, tables and selectors for them, and all of it written. */
    method CodeAndSend(nblock: int, ghost b: Block, ghost p: seq<int>) returns (ghost c: Choice)
      requires Ready() && 0 < nblock <= BLOCK_UNIT * level && b == BytesOf(arr2[..], nblock) && inUse[..] == InUse(b)
      requires p == arr1[..nblock] && IsRotationOrder(b, p)
      requires |w.Bits()| + BLOCK_BITS * level - HEADER_BITS <= 8 * w.zbits.Length
      modifies arr1, unseqToSeq, mtfFreq, selector, selectorMtf, len, code, rfreq, w, w.zbits
      ensures Ready() && IsChoice(c, SymbolsOf(b, p), AlphaSize(b))
      ensures w.Bits() == old(w.Bits()) + (MappingBits(InUse(b)) + CodedBits(c, SymbolsOf(b, p), AlphaSize(b)))
    {
      hide DistinctRows, IsRotationOrder, MappingBits, CodedBits, SymbolsOf, InUse, AlphaSize, IsChoice, HoldsTables,
        HoldsSymbols, BytesOf;
      AllDifferent();
      ghost var syms := SymbolsOf(b, p);
      OrderSize(b, p);
      var nMTF, alphaSize := Symbols(nblock, b, p);
      var nGroups, nSelectors;
      nGroups, nSelectors, c := Choose(nMTF, alphaSize, syms);
      RestLength(b, p, c, level);
      SendChosen(nMTF, alphaSize, nGroups, nSelectors, c, syms);
    }

    method SendChosen(nMTF: int, alphaSize: int, nGroups: int, nSelectors: int, ghost c: Choice, ghost syms: seq<int>)
      requires Apart() && w.Valid() && IsChoice(c, syms, alphaSize) && 1 <= nMTF == |syms| <= 900_001 &&
        HoldsSymbols(arr1, syms)
      requires nGroups == |c.lens| && 0 <= nSelectors <= MAX_SELECTORS && selector[..nSelectors] == c.sel &&
        HoldsTables(len, code, c.lens)
      requires |w.Bits()| + |MappingBits(inUse[..])| + |CodedBits(c, syms, alphaSize)| <= 8 * w.zbits.Length
      modifies selectorMtf, w, w.zbits
      ensures w.Valid() && w.Bits() == old(w.Bits()) + (MappingBits(inUse[..]) + CodedBits(c, syms, alphaSize))
    {
      AllDifferent();
      hide DistinctRows, Sent, MappingBits, CodedBits, IsChoice, HoldsTables, HoldsSymbols;
      ghost var total := w.Bits() + (MappingBits(inUse[..]) + CodedBits(c, syms, alphaSize));
      RestTodo(w.Bits(), MappingBits(inUse[..]), CodedBits(c, syms, alphaSize), total);
      SendMTFValues(w, inUse, arr1, nMTF, selector, selectorMtf, nSelectors, len, code, nGroups, alphaSize, c, syms, [],
        total);
      SentAll(w.Bits(), total);
    }

    lemma {:induction false} RestTodo(bits: seq<bool>, m: seq<bool>, c: seq<bool>, total: seq<bool>)
      requires total == bits + (m + c)
      ensures Sent(bits, m + (c + []), total)
    {
      assert c + [] == c;
    }

    method Symbols(nblock: int, ghost b: Block, ghost p: seq<int>) returns (nMTF: int, alphaSize: int)
      requires Apart() && 0 < nblock <= BLOCK_UNIT * level && b == BytesOf(arr2[..], nblock) && inUse[..] == InUse(b)
      requires p == arr1[..nblock] && IsRotationOrder(b, p)
      modifies arr1, unseqToSeq, mtfFreq
      ensures 1 <= nMTF == |SymbolsOf(b, p)| <= nblock + 1 && 2 < alphaSize == AlphaSize(b) <= MAX_ALPHA_SIZE
      ensures HoldsSymbols(arr1, SymbolsOf(b, p)) && forall k | 0 <= k < nMTF :: 0 <= SymbolsOf(b, p)[k] < alphaSize
    {
      hide DistinctRows, Pow2, Unpack, InUse, BytesOf;
      AllDifferent();
      SmallPowers();
      ColumnUnpacks(b, p, BLOCK_UNIT * level);
      SymbolCount(b, p);
      InUseMarks(b, inUse[..]);
      var nInUse;
      nMTF, nInUse := GenerateMTFValues(arr1, arr2, inUse, unseqToSeq, mtfFreq, nblock);
      alphaSize := nInUse + 2;
    }

    lemma {:induction false} InUseMarks(b: Block, u: seq<bool>)
      requires u == InUse(b)
      ensures forall i | 0 <= i < |b| :: u[b[i]]
    {
    }

    /** The block part of BZ2_compressBlock: sorted, coded and written. */
    method WriteBlock(nblock: int, blockCRC: int, ghost b: Block) returns (ghost x: Piece)
      requires Ready() && 0 < nblock <= BLOCK_UNIT * level && b == BytesOf(arr2[..], nblock) && inUse[..] == InUse(b) &&
        0 <= blockCRC < WORD
      requires |w.Bits()| + BLOCK_BITS * level <= 8 * w.zbits.Length
      modifies arr1, arr2, ftab, unseqToSeq, mtfFreq, selector, selectorMtf, len, code, rfreq, w, w.zbits
      ensures Ready() && IsPiece(x, level) && x.b == b && x.crc == blockCRC
      ensures w.Bits() == old(w.Bits()) + (InputBits(BLOCK_MAGIC) + PieceBits(x, level))
    {
      hide DistinctRows, IsRotationOrder, MappingBits, CodedBits, SymbolsOf, InUse, AlphaSize, IsChoice, BytesOf,
        InputBits, PieceBits, IsPiece, Head, Writer.Bits, Writer.Valid;
      AllDifferent();
      ghost var bits := w.Bits();
      var origPtr := SortAndHead(nblock, blockCRC, b);
      ghost var p := arr1[..nblock];
      ghost var c := CodeAndSend(nblock, b, p);
      x := Piece(b, p, origPtr, blockCRC, c);
      PieceWritten(x, bits);
    }

    lemma {:induction false} PieceWritten(x: Piece, bits: seq<bool>)
      requires 1 <= level <= 9 && |x.b| <= BLOCK_UNIT * level && x.crc < WORD && IsRotationOrder(x.b, x.p) &&
        x.origPtr < |x.b| && x.p[x.origPtr] == 0
      requires IsChoice(x.choice, SymbolsOf(x.b, x.p), AlphaSize(x.b))
      ensures IsPiece(x, level)
      ensures bits + Head(x.crc, x.origPtr) +
        (MappingBits(InUse(x.b)) + CodedBits(x.choice, SymbolsOf(x.b, x.p), AlphaSize(x.b)))
        == bits + (InputBits(BLOCK_MAGIC) + PieceBits(x, level))
    {
      PieceTodo(x, level, []);
      hide MappingBits, CodedBits, InputBits, BitsOf, PieceBits;
      HeadFirst(bits, InputBits(BLOCK_MAGIC), BitsOf(x.crc, 32), [false], BitsOf(x.origPtr, 24),
        MappingBits(InUse(x.b)),
                CodedBits(x.choice, SymbolsOf(x.b, x.p), AlphaSize(x.b)), PieceBits(x, level));
    }

    lemma {:induction false} HeadFirst(z: seq<bool>, a: seq<bool>, b: seq<bool>, c: seq<bool>, d: seq<bool>,
      e: seq<bool>, f: seq<bool>, whole: seq<bool>)
      requires whole + [] == b + (c + (d + (e + (f + []))))
      ensures z + (a + (b + (c + d))) + (e + f) == z + (a + whole)
    {
      assert whole + [] == whole && f + [] == f;
    }
  }
}
