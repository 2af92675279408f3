/** A whole compressed block: what the encoder writes for it, and that the decoder gets the block back. */
module BlockFormat {
  import opened Bits
  import opened Rotations
  import opened InverseBwt
  import opened Counting
  import opened BitStrings
  import opened MoveToFront
  import opened MtfEncode
  import opened HuffmanCodes
  import opened BlockParts
  import opened BlockData

  const BLOCK_UNIT := 100_000

  // ---- numbering the bytes in use

  /** The bytes in use below v, in order. */
  function BytesInUse(u: seq<bool>, v: nat): (r: seq<Byte>)
    requires v <= |u| <= 256
    ensures |r| == Rank(u, v)
  {
    if v == 0 then [] else BytesInUse(u, v - 1) + if u[v - 1] then [(v - 1) as Byte] else []
  }

  /** seqToUnseq: the byte for each number in use. */
  function Unseq(u: seq<bool>): (r: seq<Byte>)
    requires |u| == 256
    ensures |r| == 256
  {
    BytesInUse(u, 256) + Repeat(0, 256 - Rank(u, 256))
  }

  lemma {:induction false} RankedByte(u: seq<bool>, v: nat, w: nat)
    requires v < w <= |u| <= 256 && u[v]
    ensures Rank(u, v) < Rank(u, w) && BytesInUse(u, w)[Rank(u, v)] as int == v
    decreases w
  {
    if v < w - 1 { RankedByte(u, v, w - 1); }
  }

  /** The decoder's map undoes the encoder's. */
  lemma {:induction false} UnseqUndoes(u: seq<bool>, c: Byte)
    requires |u| == 256 && u[c]
    ensures Rank(u, c as int) < 256 && Unseq(u)[Rank(u, c as int)] == c
  {
    RankedByte(u, c as int, 256);
  }

  function InUse(b: Block): (u: seq<bool>)
    ensures |u| == 256 && forall i | 0 <= i < |b| :: u[b[i]]
  {
    var u := seq(256, v requires 0 <= v < 256 => (v as Byte) in b);
    assert forall i | 0 <= i < |b| :: b[i] in b;
    u
  }

  // ---- the block

  /** The coding tables and selectors the encoder settled on. */
  datatype Choice = Choice(lens: seq<seq<Byte>>, sel: seq<int>)

  /** Between 2 and 6 complete codes, and one selector for every 50 symbols. */
  ghost predicate IsChoice(c: Choice, syms: seq<int>, n: int) {
    && 2 <= |c.lens| <= 6
    && GoodTables(c.lens, c.sel, n)
    && (forall t | 0 <= t < |c.lens| :: HasRoom(c.lens[t]))
    && |c.sel| == (|syms| + GROUP_SIZE - 1) / GROUP_SIZE
    && (forall k | 0 <= k < |syms| :: 0 <= syms[k] < n)
  }

  lemma {:induction false} ChoiceCodes(c: Choice, syms: seq<int>, n: int)
    requires IsChoice(c, syms, n)
    ensures CanCode(c.lens, c.sel, syms)
  {
    forall k | 0 <= k < |syms| ensures InGroup(c.lens, c.sel, syms, k) {
      assert 0 <= k / GROUP_SIZE < |c.sel|;
      assert 0 <= c.sel[k / GROUP_SIZE] < |c.lens|;
    }
  }

  /** Everything behind the mapping table. */
  ghost function CodedBits(c: Choice, syms: seq<int>, n: int): seq<bool>
    requires IsChoice(c, syms, n)
  {
    ChoiceCodes(c, syms, n);
    BitsOf(|c.lens|, 3) + (BitsOf(|c.sel|, 15) + (SelectorBits(SelectorIndices(c.sel, |c.lens|))
      + (TablesBits(c.lens) + DataBits(c.lens, c.sel, syms, 0))))
  }

  /** The symbols of block b in sorted order p. */
  function SymbolsOf(b: Block, p: seq<int>): seq<int> {
    BlockSymbols(b, p, InUse(b))
  }

  function AlphaSize(b: Block): int {
    Rank(InUse(b), 256) + 2
  }

  /** Block b as the encoder writes it behind the block header's six magic bytes. */
  ghost function BlockBits(b: Block, p: seq<int>, origPtr: nat, crc: nat, c: Choice): seq<bool>
    requires IsChoice(c, SymbolsOf(b, p), AlphaSize(b))
  {
    BitsOf(crc, 32) +
      (BitsOf(0, 1) + (BitsOf(origPtr, 24) + (MappingBits(InUse(b)) + CodedBits(c, SymbolsOf(b, p), AlphaSize(b)))))
  }

  // ---- the decoder

  /** What the decoder learns from a block; column is the last column of the sorted rotations. */
  datatype Decoded = Decoded(crc: nat, randomised: bool, origPtr: nat, column: seq<Byte>)

  function Start(): (s: Unpacking) {
    Unpacking([], Identity(256), 0, 0)
  }

  /** How many tables and selectors follow. */
  ghost function ReadCounts(bits: seq<bool>): (r: Parse<(nat, nat)>)
    ensures r.Done? ==> |r.rest| <= |bits| && 2 <= r.value.0 <= 6 && 1 <= r.value.1
  {
    var (nGroups, bits1) :- ReadBits(bits, 3);
    if nGroups < 2 || nGroups > 6 then Bad
    else
      var (nSelectors, bits2) :- ReadBits(bits1, 15);
      if nSelectors < 1 then Bad else Done((nGroups, nSelectors), bits2)
  }

  /** The selectors, the coding tables and the data. */
  ghost function ParseGroups(u: seq<bool>, nGroups: nat, nSelectors: nat, most: nat,
    bits: seq<bool>): (r: Parse<seq<Byte>>)
    requires |u| == 256 && 0 < nGroups
    ensures r.Done? ==> |r.rest| <= |bits|
  {
    var n := Rank(u, 256);
    var (js, bits3) :- ReadSelectors(nSelectors, nGroups, bits);
    var (lens, bits4) :- ReadTables(nGroups, n + 2, bits3);
    SelectorsInRange(js, nGroups);
    DecodeData(lens, Symbols(Identity(nGroups), js), n + 1, most, Unseq(u), Start(), 0, bits4)
  }

  /** What follows the mapping table u. */
  ghost function ParseCoded(u: seq<bool>, most: nat, bits: seq<bool>): (r: Parse<seq<Byte>>)
    requires |u| == 256
    ensures r.Done? ==> |r.rest| <= |bits|
  {
    if Rank(u, 256) == 0 then Bad
    else
      var (counts, bits2) :- ReadCounts(bits);
      ParseGroups(u, counts.0, counts.1, most, bits2)
  }

  lemma {:induction false} MembersKept(list: seq<int>, js: seq<int>, m: int)
    requires (forall i | 0 <= i < |js| :: 0 <= js[i] < |list|) && forall i | 0 <= i < |list| :: 0 <= list[i] < m
    ensures forall i | 0 <= i < |js| :: 0 <= Symbols(list, js)[i] < m
    decreases |js|
  {
    if js != [] {
      var r := ToFront(list, js[0]);
      forall k | 0 <= k < |r|
        ensures 0 <= r[k] < m
      {
        assert r[k] == list[if k == 0 then js[0] else if k <= js[0] then k - 1 else k];
      }
      MembersKept(r, js[1..], m);
    }
  }

  lemma {:induction false} SelectorsInRange(js: seq<int>, nGroups: nat)
    requires forall i | 0 <= i < |js| :: 0 <= js[i] < nGroups
    ensures forall i | 0 <= i < |js| :: 0 <= Symbols(Identity(nGroups), js)[i] < nGroups
  {
    MembersKept(Identity(nGroups), js, nGroups);
  }

  /** Everything of a block behind its six magic bytes, for streams with blocks of up to level * 100000 bytes. */
  ghost function ParseBlock(level: nat, bits: seq<bool>): (r: Parse<Decoded>)
    ensures r.Done? ==> |r.rest| <= |bits| && r.value.origPtr < |r.value.column|
  {
    var (crc, bits1) :- ReadBits(bits, 32);
    var (rand, bits2) :- ReadBits(bits1, 1);
    var (origPtr, bits3) :- ReadBits(bits2, 24);
    if origPtr > 10 + BLOCK_UNIT * level then Bad
    else
      var (u, bits4) :- ReadMapping(bits3);
      var (column, bits5) :- ParseCoded(u, BLOCK_UNIT * level, bits4);
      if origPtr >= |column| then Bad else Done(Decoded(crc, rand == 1, origPtr, column), bits5)
  }

  /** The block itself: the walk through the stably sorted column. */
  ghost function Contents(d: Decoded): seq<Byte>
    requires d.origPtr < |d.column|
  {
    CountingOrderIsStable(d.column);
    Walk(CountingOrder(d.column), d.column, d.origPtr, |d.column|)
  }

  // ---- decoding undoes encoding

  lemma {:induction false} CountsRoundTrip(nGroups: nat, nSelectors: nat, rest: seq<bool>)
    requires 2 <= nGroups <= 6 && 1 <= nSelectors < 0x8000
    ensures ReadCounts(BitsOf(nGroups, 3) + (BitsOf(nSelectors, 15) + rest)) == Done((nGroups, nSelectors), rest)
  {
    SmallPowers();
    hide Pow2;
    ReadBack(nGroups, 3, BitsOf(nSelectors, 15) + rest);
    ReadBack(nSelectors, 15, rest);
  }

  lemma {:induction false} GroupsRoundTrip(c: Choice, syms: seq<int>, u: seq<bool>, most: nat, column: seq<Byte>,
    rest: seq<bool>)
    requires |u| == 256 && IsChoice(c, syms, Rank(u, 256) + 2) && CanCode(c.lens, c.sel, syms)
    requires Unpack(Start(), syms, Rank(u, 256) + 1, most, Unseq(u)) == Ended(column)
    ensures ParseGroups(u, |c.lens|, |c.sel|, most, SelectorBits(SelectorIndices(c.sel, |c.lens|))
      + (TablesBits(c.lens) + (DataBits(c.lens, c.sel, syms, 0) + rest))) == Done(column, rest)
  {
    hide IsChoice, DecodeData, Unpack, DataBits, Unseq, HasRoom, IsLengths, CanCode, GoodTables, ParseGroups, Ready,
      Start;
    hide ReadSelectors, ReadTables, SelectorBits, TablesBits, Symbols, SelectorIndices, Rank, Identity;
    var n := Rank(u, 256);
    var lens, sel := c.lens, c.sel;
    ChoiceParts(c, syms, n + 2);
    var js := SelectorIndices(sel, |lens|);
    var d := DataBits(lens, sel, syms, 0) + rest;
    var bits := SelectorBits(js) + (TablesBits(lens) + d);
    SelectorsRoundTrip(js, |lens|, TablesBits(lens) + d);
    SelectorsRestored(sel, |lens|);
    TablesRoundTrip(lens, n + 2, d);
    assert syms[0..] == syms;
    StartReady(most);
    DataUnpacks(lens, sel, syms, n + 1, most, Unseq(u), Start(), 0, column, rest);
    GroupsParsed(u, |lens|, |sel|, most, bits, js, TablesBits(lens) + d, lens, d, sel, column, rest);
  }

  lemma {:induction false} StartReady(most: nat)
    ensures Ready(Start(), most)
  {
  }

  lemma {:induction false} GroupsParsed(u: seq<bool>, nGroups: nat, nSelectors: nat, most: nat, bits: seq<bool>,
    js: seq<int>, bits3: seq<bool>, lens: seq<seq<Byte>>, bits4: seq<bool>, sel: seq<int>, column: seq<Byte>,
    rest: seq<bool>)
    requires |u| == 256 && 0 < nGroups && GoodTables(lens, sel, Rank(u, 256) + 2) && Ready(Start(), most)
    requires ReadSelectors(nSelectors, nGroups, bits) == Done(js, bits3)
    requires ReadTables(nGroups, Rank(u, 256) + 2, bits3) == Done(lens, bits4)
    requires (forall i | 0 <= i < |js| :: 0 <= js[i] < nGroups) && Symbols(Identity(nGroups), js) == sel
    requires DecodeData(lens, sel, Rank(u, 256) + 1, most, Unseq(u), Start(), 0, bits4) == Done(column, rest)
    ensures ParseGroups(u, nGroups, nSelectors, most, bits) == Done(column, rest)
  {
    hide GoodTables, Ready, Start, ReadSelectors, ReadTables, DecodeData, Symbols, Identity, Unseq;
  }

  lemma {:induction false} ChoiceParts(c: Choice, syms: seq<int>, n: int)
    requires IsChoice(c, syms, n)
    ensures 2 <= |c.lens| <= 6 && GoodTables(c.lens, c.sel, n) && 1 <= n <= MAX_ALPHA_SIZE
    ensures forall t | 0 <= t < |c.lens| :: |c.lens[t]| == n && IsLengths(c.lens[t]) && HasRoom(c.lens[t])
    ensures forall i | 0 <= i < |c.sel| :: 0 <= c.sel[i] < |c.lens|
    ensures forall k | 0 <= k < |syms| :: 0 <= syms[k] < n
  {
  }

  lemma {:induction false} CodedRoundTrip(c: Choice, syms: seq<int>, u: seq<bool>, most: nat, column: seq<Byte>,
    rest: seq<bool>)
    requires |u| == 256 && Rank(u, 256) > 0 && IsChoice(c, syms, Rank(u, 256) + 2) && 1 <= |syms| < GROUP_SIZE * 0x7fff
    requires Unpack(Start(), syms, Rank(u, 256) + 1, most, Unseq(u)) == Ended(column)
    ensures ParseCoded(u, most, CodedBits(c, syms, Rank(u, 256) + 2) + rest) == Done(column, rest)
  {
    ChoiceCodes(c, syms, Rank(u, 256) + 2);
    var s4 := DataBits(c.lens, c.sel, syms, 0);
    var s3 := TablesBits(c.lens);
    var s2 := SelectorBits(SelectorIndices(c.sel, |c.lens|));
    Regrouped(BitsOf(|c.lens|, 3), BitsOf(|c.sel|, 15), s2, s3, s4, rest);
    hide ReadCounts, ParseGroups, Unpack, Unseq, DataBits, BitsOf;
    CountsRoundTrip(|c.lens|, |c.sel|, s2 + (s3 + (s4 + rest)));
    GroupsRoundTrip(c, syms, u, most, column, rest);
  }

  lemma {:induction false} Regrouped(a: seq<bool>, b: seq<bool>, c: seq<bool>, d: seq<bool>, e: seq<bool>,
    rest: seq<bool>)
    ensures a + (b + (c + (d + e))) + rest == a + (b + (c + (d + (e + rest))))
  {
  }

  lemma {:induction false} SmallPowers()
    ensures Pow2(1) == 2 && Pow2(3) == 8 && Pow2(15) == 0x8000 && Pow2(20) == 0x10_0000
  {
    assert Pow2(3) == 8 && Pow2(7) == 128 && Pow2(8) == 256 && Pow2(4) == 16;
    Pow2Sum(7, 8);
    Pow2Values();
    Pow2Sum(16, 4);
  }

  /** Unpacking a block's symbols gives the last column of its sorted rotations. */
  lemma {:induction false} ColumnUnpacks(b: Block, p: seq<int>, most: nat)
    requires |p| == |b| <= most && most + 1 < Pow2(20)
    ensures 0 < Rank(InUse(b), 256) <= 256
    ensures forall k | 0 <= k < |SymbolsOf(b, p)| :: 0 <= SymbolsOf(b, p)[k] <= Rank(InUse(b), 256) + 1
    ensures Unpack(Start(), SymbolsOf(b, p), Rank(InUse(b), 256) + 1, most, Unseq(InUse(b))) == Ended(LastColumn(b, p))
  {
    hide Unpack, Indices, ColumnSymbols, Pow2, InUse, Unseq, Unpacked, Symbols, Mapped;
    var u := InUse(b);
    var n := Rank(u, 256);
    ColumnInList(b, p, u);
    var js := Indices(Identity(n), ColumnSymbols(b, p, u));
    ColumnFound(b, p, u);
    StreamUnpacks(Start(), js, 0, n + 1, most, Unseq(u));
    UnpackedStart(js, Unseq(u));
    MappedColumn(b, p, u);
  }

  /** The decoder's longer list finds the same symbols. */
  lemma {:induction false} ColumnFound(b: Block, p: seq<int>, u: seq<bool>)
    requires |u| == 256 && AllIn(ColumnSymbols(b, p, u), Identity(Rank(u, 256)))
    ensures Symbols(Identity(256), Indices(Identity(Rank(u, 256)), ColumnSymbols(b, p, u))) == ColumnSymbols(b, p, u)
  {
    var list := Identity(Rank(u, 256));
    var js := Indices(list, ColumnSymbols(b, p, u));
    SymbolsOfIndices(list, ColumnSymbols(b, p, u));
    LongerList(list, Identity(256)[|list|..], js);
    assert list + Identity(256)[|list|..] == Identity(256);
  }

  lemma {:induction false} UnpackedStart(js: seq<int>, unseq: seq<Byte>)
    requires |unseq| == 256 && forall i | 0 <= i < |js| :: 0 <= js[i] < 256
    ensures forall i | 0 <= i < |js| :: 0 <= Symbols(Identity(256), js)[i] < 256
    ensures Unpacked(Start(), js, 0, unseq) == Mapped(Symbols(Identity(256), js), unseq)
  {
    SymbolsAreBytes(Identity(256), js);
    var m := Mapped(Symbols(Identity(256), js), unseq);
    assert [] + Repeat(unseq[0], 0) + m == m;
  }

  lemma {:induction false} MappedColumn(b: Block, p: seq<int>, u: seq<bool>)
    requires |u| == 256 && forall i | 0 <= i < |b| :: u[b[i]]
    ensures forall i | 0 <= i < |p| :: 0 <= ColumnSymbols(b, p, u)[i] < 256
    ensures Mapped(ColumnSymbols(b, p, u), Unseq(u)) == LastColumn(b, p)
  {
    var l := LastColumn(b, p);
    forall i | 0 <= i < |p| ensures ColumnSymbols(b, p, u)[i] < 256 && Unseq(u)[ColumnSymbols(b, p, u)[i]] == l[i] {
      UnseqUndoes(u, l[i]);
    }
  }

  lemma {:induction false} OrderSize(b: Block, p: seq<int>)
    requires IsRotationOrder(b, p)
    ensures |p| == |b|
  {
  }

  lemma {:induction false} SymbolCount(b: Block, p: seq<int>)
    requires |p| == |b|
    ensures 1 <= |SymbolsOf(b, p)| <= |b| + 1
  {
    var u := InUse(b);
    ColumnInList(b, p, u);
    StreamBound(Indices(Identity(Rank(u, 256)), ColumnSymbols(b, p, u)), 0, Rank(u, 256) + 1);
  }

  /** Decoding what the encoder wrote for a block, with whatever tables and selectors, returns the block. */
  lemma {:induction false} BlockRoundTrip(b: Block, p: seq<int>, origPtr: nat, crc: nat, c: Choice, level: nat,
    rest: seq<bool>)
    requires IsRotationOrder(b, p) && origPtr < |b| && p[origPtr] == 0
    requires 1 <= level <= 9 && |b| <= BLOCK_UNIT * level && crc < WORD && IsChoice(c, SymbolsOf(b, p), AlphaSize(b))
    ensures var d := Decoded(crc, false, origPtr, LastColumn(b, p));
      ParseBlock(level, BlockBits(b, p, origPtr, crc, c) + rest) == Done(d, rest) && Contents(d) == b
  {
    hide Pow2, Unpack, ParseCoded, ParseBlock, CodedBits, IsChoice, SymbolsOf, IsRotationOrder, Walk, CountingOrder,
      Unseq, Start, Rank, BitsOf, MappingBits;
    var u, syms := InUse(b), SymbolsOf(b, p);
    var d := Decoded(crc, false, origPtr, LastColumn(b, p));
    SmallPowers();
    OrderSize(b, p);
    ColumnUnpacks(b, p, BLOCK_UNIT * level);
    SymbolCount(b, p);
    var coded := CodedBits(c, syms, AlphaSize(b));
    CodedRoundTrip(c, syms, u, BLOCK_UNIT * level, d.column, rest);
    HeaderRoundTrip(crc, origPtr, u, coded, d, level, rest);
    CountingOrderIsStable(d.column);
    WalkRestoresBlock(b, p, CountingOrder(d.column), origPtr);
  }

  lemma {:induction false} HeaderRoundTrip(crc: nat, origPtr: nat, u: seq<bool>, coded: seq<bool>, d: Decoded,
    level: nat, rest: seq<bool>)
    requires |u| == 256 && crc < WORD && d.crc == crc && d.origPtr == origPtr && !d.randomised
    requires origPtr < |d.column| && origPtr <= BLOCK_UNIT * level && level <= 9
    requires ParseCoded(u, BLOCK_UNIT * level, coded + rest) == Done(d.column, rest)
    ensures ParseBlock(level,
      BitsOf(crc, 32) + (BitsOf(0, 1) + (BitsOf(origPtr, 24) + (MappingBits(u) + coded))) + rest) == Done(d, rest)
  {
    hide Pow2, ParseCoded, MappingBits, BitsOf, ReadMapping, ReadBits;
    SmallPowers();
    Pow2Values();
    Regrouped(BitsOf(crc, 32), BitsOf(0, 1), BitsOf(origPtr, 24), MappingBits(u), coded, rest);
    var s3 := MappingBits(u) + (coded + rest);
    var s2 := BitsOf(origPtr, 24) + s3;
    ReadBack(crc, 32, BitsOf(0, 1) + s2);
    ReadBack(0, 1, s2);
    ReadBack(origPtr, 24, s3);
    MappingRoundTrip(u, coded + rest);
  }
}
