/** What is left to parse at each place of the header machine, and that a step of the machine is a step of the parse. */
module HeaderParse {
  import opened Bits
  import opened Rotations
  import opened BitStrings
  import opened BitReader
  import opened MoveToFront
  import opened HuffmanCodes
  import opened BlockParts
  import opened BlockData
  import opened MtfEncode
  import opened BlockFormat
  import opened StreamFormat
  import opened HeaderSteps

  /** The blocks behind this one, and this one in front of them. */
  ghost function WithBlock(h: Head, column: seq<Byte>, bits: seq<bool>): Parse<Parsed> {
    if h.origPtr >= |column| then Bad
    else
      var (more, rest) :- ParseBlocks(h.level, bits);
      Done(Parsed([Decoded(h.crc, h.randomised, h.origPtr, column)] + more.blocks, more.combined), rest)
  }

  lemma {:induction false} PlanTables(p: Plan, lens: seq<seq<Byte>>)
    requires IsPlan(p) && AreLens(p, lens) && |lens| == p.nGroups
    ensures GoodTables(lens, Symbols(Identity(p.nGroups), p.js), AlphabetSize(p))
    ensures Ready(Start(), BLOCK_UNIT * p.h.level)
  {
    SelectorsInRange(p.js, p.nGroups);
  }

  /** The block's data. */
  ghost function FromTables(p: Plan, lens: seq<seq<Byte>>, bits: seq<bool>): Parse<Parsed>
    requires IsPlan(p) && AreLens(p, lens) && |lens| == p.nGroups
  {
    PlanTables(p, lens);
    var (column, rest) :- DecodeData(lens, Symbols(Identity(p.nGroups), p.js), AlphabetSize(p) - 1,
      BLOCK_UNIT * p.h.level, Unseq(p.used), Start(), 0, bits);
    WithBlock(p.h, column, rest)
  }

  ghost function FromCurr(p: Plan, lens: seq<seq<Byte>>, bits: seq<bool>): Parse<Parsed>
    requires IsPlan(p) && AreLens(p, lens)
  {
    var (ls, rest) :- ReadTables(p.nGroups - |lens|, AlphabetSize(p), bits);
    FromTables(p, lens + ls, rest)
  }

  ghost function FromLength(p: Plan, lens: seq<seq<Byte>>, row: seq<Byte>, curr: int, bits: seq<bool>): Parse<Parsed>
    requires IsPlan(p) && AreLens(p, lens) && |lens| < p.nGroups && IsRow(p, row, curr)
  {
    var (l, rest) :- ReadLengths(AlphabetSize(p) - |row|, curr, bits);
    FromCurr(p, lens + [row + l], rest)
  }

  ghost function FromSelector(h: Head, used: seq<bool>, nGroups: nat, nSelectors: nat, js: seq<int>, j: nat,
    bits: seq<bool>): Parse<Parsed>
    requires IsPlace(Selector(h, used, nGroups, nSelectors, js, j))
  {
    var (x, rest) :- ReadUnary(j, nGroups, bits);
    var (more, rest') :- ReadSelectors(nSelectors - |js| - 1, nGroups, rest);
    FromCurr(Plan(h, used, nGroups, js + [x] + more), [], rest')
  }

  ghost function FromSelectors(h: Head, used: seq<bool>, nGroups: nat, bits: seq<bool>): Parse<Parsed>
    requires IsPlace(Selectors(h, used, nGroups))
  {
    var (n, rest) :- ReadBits(bits, 15);
    if n < 1 then Bad else FromSelector(h, used, nGroups, n, [], 0, rest)
  }

  ghost function FromGroups(h: Head, used: seq<bool>, bits: seq<bool>): Parse<Parsed>
    requires IsPlace(Groups(h, used))
  {
    var (n, rest) :- ReadBits(bits, 3);
    if n < 2 || n > 6 then Bad else FromSelectors(h, used, n, rest)
  }

  ghost function FromUsed(h: Head, used: seq<bool>, bits: seq<bool>): Parse<Parsed>
    requires IsHead(h) && |used| == 256
  {
    if Rank(used, 256) == 0 then Bad else FromGroups(h, used, bits)
  }

  ghost function FromRows(h: Head, flags: seq<bool>, used: seq<bool>, bits: seq<bool>): Parse<Parsed>
    requires IsHead(h) && |flags| == 16 && |used| <= 256 && |used| % 16 == 0
  {
    var (more, rest) :- ReadRows(flags, |used| / 16, bits);
    FromUsed(h, used + more, rest)
  }

  ghost function FromMapping2(h: Head, flags: seq<bool>, used: seq<bool>, bits: seq<bool>): Parse<Parsed>
    requires IsPlace(Mapping2(h, flags, used))
  {
    var n := 16 - |used| % 16;
    if |bits| < n then NeedMore else FromRows(h, flags, used + bits[..n], bits[n..])
  }

  ghost function FromMapping1(h: Head, flags: seq<bool>, bits: seq<bool>): Parse<Parsed>
    requires IsPlace(Mapping1(h, flags))
  {
    var n := 16 - |flags|;
    if |bits| < n then NeedMore else FromRows(h, flags + bits[..n], [], bits[n..])
  }

  ghost function FromOrigPtr(level: nat, crc: nat, randomised: bool, i: nat, acc: nat, bits: seq<bool>): Parse<Parsed>
    requires IsPlace(OrigPtr(level, crc, randomised, i, acc))
  {
    var (v, rest) :- ReadBits(bits, 24 - 8 * i);
    var origPtr := acc * Pow2(24 - 8 * i) + v;
    if origPtr > 10 + BLOCK_UNIT * level then Bad
    else FromMapping1(Head(level, crc, randomised, origPtr), [], rest)
  }

  ghost function FromRandBit(level: nat, crc: nat, bits: seq<bool>): Parse<Parsed>
    requires IsPlace(RandBit(level, crc))
  {
    var (v, rest) :- ReadBits(bits, 1);
    FromOrigPtr(level, crc, v == 1, 0, 0, rest)
  }

  lemma {:induction false} CrcWhole(i: nat, acc: nat, v: nat)
    requires i < 4 && acc < Pow2(8 * i) && v < Pow2(32 - 8 * i)
    ensures acc * Pow2(32 - 8 * i) + v < WORD
  {
    hide Pow2;
    Pow2Sum(8 * i, 32 - 8 * i);
    BelowProduct(acc, v, Pow2(8 * i), Pow2(32 - 8 * i));
    Pow2Values();
  }

  ghost function FromStoredCrc(level: nat, i: nat, acc: nat, bits: seq<bool>): Parse<Parsed>
    requires IsPlace(StoredCrc(level, i, acc))
  {
    var (v, rest) :- ReadBits(bits, 32 - 8 * i);
    CrcWhole(i, acc, v);
    FromRandBit(level, acc * Pow2(32 - 8 * i) + v, rest)
  }

  ghost function FromBlockMagic(level: nat, i: nat, bits: seq<bool>): Parse<Parsed>
    requires 1 <= level <= 9 && i <= 6
  {
    var (_, rest) :- ReadBytes(BLOCK_MAGIC[i..], bits);
    assert Pow2(0) == 1;
    FromStoredCrc(level, 0, 0, rest)
  }

  ghost function FromEndCrc(i: nat, acc: nat, bits: seq<bool>): Parse<Parsed>
    requires i < 4
  {
    var (v, rest) :- ReadBits(bits, 32 - 8 * i);
    Done(Parsed([], acc * Pow2(32 - 8 * i) + v), rest)
  }

  ghost function FromEndMagic(i: nat, bits: seq<bool>): Parse<Parsed>
    requires i <= 6
  {
    var (_, rest) :- ReadBytes(END_MAGIC[i..], bits);
    FromEndCrc(0, 0, rest)
  }

  ghost function FromLevel(bits: seq<bool>): Parse<Parsed> {
    var (c, rest) :- ReadBits(bits, 8);
    if c < LEVEL_ZERO + 1 || c > LEVEL_ZERO + 9 then Bad else ParseBlocks(c - LEVEL_ZERO, rest)
  }

  ghost function FromMagic(i: nat, bits: seq<bool>): Parse<Parsed>
    requires i <= 3
  {
    var (_, rest) :- ReadBytes(STREAM_MAGIC[i..], bits);
    FromLevel(rest)
  }

  /** What parsing comes to from this place on. */
  ghost function From(x: Place, bits: seq<bool>): Parse<Parsed>
    requires IsPlace(x)
  {
    match x
    case Magic(i) => FromMagic(i, bits)
    case LevelByte => FromLevel(bits)
    case FirstByte(level) => ParseBlocks(level, bits)
    case BlockMagic(level, i) => FromBlockMagic(level, i, bits)
    case StoredCrc(level, i, acc) => FromStoredCrc(level, i, acc, bits)
    case RandBit(level, crc) => FromRandBit(level, crc, bits)
    case OrigPtr(level, crc, randomised, i, acc) => FromOrigPtr(level, crc, randomised, i, acc, bits)
    case Mapping1(h, flags) => FromMapping1(h, flags, bits)
    case Mapping2(h, flags, used) => FromMapping2(h, flags, used, bits)
    case Groups(h, used) => FromGroups(h, used, bits)
    case Selectors(h, used, nGroups) => FromSelectors(h, used, nGroups, bits)
    case Selector(h, used, nGroups, nSelectors, js, j) => FromSelector(h, used, nGroups, nSelectors, js, j, bits)
    case Curr(p, lens) => FromCurr(p, lens, bits)
    case Length1(p, lens, row, curr) => FromLength(p, lens, row, curr, bits)
    case Length2(p, lens, row, curr) =>
      if bits == [] then NeedMore
      else FromLength(p, lens, row, if bits[0] then curr - 1 else curr + 1, bits[1..])
    case EndMagic(level, i) => FromEndMagic(i, bits)
    case EndCrc(i, acc) => FromEndCrc(i, acc, bits)
  }

  /** What parsing comes to from where a step has led. */
  ghost function Then(n: Next, bits: seq<bool>): Parse<Parsed>
    requires IsNext(n)
  {
    match n
    case Go(x) => From(x, bits)
    case Fail => Bad
    case AllTables(p, lens) => FromTables(p, lens, bits)
    case End(combined) => Done(Parsed([], combined), bits)
  }
}
