/**
 * BZ2_decompress up to a block's data, as a machine: at each place it asks for some bits, and what they are decides
 * where it goes on. The arguments of a place are the variables saved there. Beside it, what is left to parse at each
 * place; one step of the machine is one step of the parse.
 */
module HeaderSteps {
  import opened Bits
  import opened Rotations
  import opened BitStrings
  import opened BitReader
  import opened MoveToFront
  import opened HuffmanCodes
  import opened BlockParts
  import opened BlockData
  import opened MtfEncode
  import opened BlockFormat
  import opened StreamFormat

  /** What a block's header has said. */
  datatype Head = Head(level: nat, crc: nat, randomised: bool, origPtr: nat)

  /** What has been read in front of the coding tables; selectors are still positions in a list. */
  datatype Plan = Plan(h: Head, used: seq<bool>, nGroups: nat, js: seq<int>)

  datatype Place =
    | Magic(i: nat)
    | LevelByte
    | FirstByte(level: nat)
    | BlockMagic(level: nat, i: nat)
    | StoredCrc(level: nat, i: nat, acc: nat)
    | RandBit(level: nat, crc: nat)
    | OrigPtr(level: nat, crc: nat, randomised: bool, i: nat, acc: nat)
    | Mapping1(h: Head, flags: seq<bool>)
    | Mapping2(h: Head, flags: seq<bool>, used: seq<bool>)
    | Groups(h: Head, used: seq<bool>)
    | Selectors(h: Head, used: seq<bool>, nGroups: nat)
    | Selector(h: Head, used: seq<bool>, nGroups: nat, nSelectors: nat, js: seq<int>, j: nat)
    | Curr(p: Plan, lens: seq<seq<Byte>>)
    | Length1(p: Plan, lens: seq<seq<Byte>>, row: seq<Byte>, curr: int)
    | Length2(p: Plan, lens: seq<seq<Byte>>, row: seq<Byte>, curr: int)
    | EndMagic(level: nat, i: nat)
    | EndCrc(i: nat, acc: nat)

  function AlphabetSize(p: Plan): nat
    requires |p.used| == 256
  {
    Rank(p.used, 256) + 2
  }

  ghost predicate IsHead(h: Head) {
    1 <= h.level <= 9 && h.crc < WORD
  }

  ghost predicate IsUsed(used: seq<bool>) {
    |used| == 256 && Rank(used, 256) > 0
  }

  ghost predicate IsPlan(p: Plan) {
    IsHead(p.h) && IsUsed(p.used) && 2 <= p.nGroups <= 6 && 1 <= |p.js| &&
      forall i | 0 <= i < |p.js| :: 0 <= p.js[i] < p.nGroups
  }

  ghost predicate AreLens(p: Plan, lens: seq<seq<Byte>>)
    requires IsPlan(p)
  {
    |lens| <= p.nGroups && forall t | 0 <= t < |lens| :: |lens[t]| == AlphabetSize(p) && IsLengths(lens[t])
  }

  ghost predicate IsRow(p: Plan, row: seq<Byte>, curr: int)
    requires IsPlan(p)
  {
    |row| < AlphabetSize(p) && forall i | 0 <= i < |row| :: 1 <= row[i] as int <= LONGEST_CODE
  }

  ghost predicate IsPlace(x: Place) {
    match x
    case Magic(i) => i < 3
    case LevelByte => true
    case FirstByte(level) => 1 <= level <= 9
    case BlockMagic(level, i) => 1 <= level <= 9 && 1 <= i < 6
    case StoredCrc(level, i, acc) => 1 <= level <= 9 && i < 4 && acc < Pow2(8 * i)
    case RandBit(level, crc) => 1 <= level <= 9 && crc < WORD
    case OrigPtr(level, crc, _, i, acc) => 1 <= level <= 9 && crc < WORD && i < 3
    case Mapping1(h, flags) => IsHead(h) && |flags| < 16
    case Mapping2(h, flags, used) => IsHead(h) && |flags| == 16 && |used| < 256 && flags[|used| / 16]
    case Groups(h, used) => IsHead(h) && IsUsed(used)
    case Selectors(h, used, nGroups) => IsHead(h) && IsUsed(used) && 2 <= nGroups <= 6
    case Selector(h, used, nGroups, nSelectors, js, j) =>
      && IsHead(h) && IsUsed(used) && 2 <= nGroups <= 6 && j < nGroups && |js| < nSelectors
      && forall i | 0 <= i < |js| :: 0 <= js[i] < nGroups
    case Curr(p, lens) => IsPlan(p) && AreLens(p, lens) && |lens| < p.nGroups
    case Length1(p, lens, row, curr) =>
      IsPlan(p) && AreLens(p, lens) && |lens| < p.nGroups && IsRow(p, row, curr) && 1 <= curr <= LONGEST_CODE
    case Length2(p, lens, row, curr) =>
      IsPlan(p) && AreLens(p, lens) && |lens| < p.nGroups && IsRow(p, row, curr) && 1 <= curr <= LONGEST_CODE
    case EndMagic(level, i) => 1 <= level <= 9 && 1 <= i < 6
    case EndCrc(i, acc) => i < 4
  }

  // ---- the machine

  /** How many bits it asks for. */
  function Width(x: Place): (n: nat)
    ensures 1 <= n <= 15
  {
    match x
    case Magic(_) => 8
    case LevelByte => 8
    case FirstByte(_) => 8
    case BlockMagic(_, _) => 8
    case StoredCrc(_, _, _) => 8
    case RandBit(_, _) => 1
    case OrigPtr(_, _, _, _, _) => 8
    case Mapping1(_, _) => 1
    case Mapping2(_, _, _) => 1
    case Groups(_, _) => 3
    case Selectors(_, _, _) => 15
    case Selector(_, _, _, _, _, _) => 1
    case Curr(_, _) => 5
    case Length1(_, _, _, _) => 1
    case Length2(_, _, _, _) => 1
    case EndMagic(_, _) => 8
    case EndCrc(_, _) => 8
  }

  /** Where it goes on; AllTables: all is known for the block's data; End: the trailer is read. */
  datatype Next = Go(x: Place) | Fail | AllTables(p: Plan, lens: seq<seq<Byte>>) | End(combined: nat)

  function AfterMagic(i: nat, v: nat): Next
    requires i < 3
  {
    if v != STREAM_MAGIC[i] as int then Fail else Go(if i < 2 then Magic(i + 1) else LevelByte)
  }

  function AfterBlockMagic(level: nat, i: nat, v: nat): Next
    requires i < 6
  {
    if v != BLOCK_MAGIC[i] as int then Fail else Go(if i < 5 then BlockMagic(level, i + 1) else StoredCrc(level, 0, 0))
  }

  function AfterEndMagic(level: nat, i: nat, v: nat): Next
    requires i < 6
  {
    if v != END_MAGIC[i] as int then Fail else Go(if i < 5 then EndMagic(level, i + 1) else EndCrc(0, 0))
  }

  function AfterOrigPtr(level: nat, crc: nat, randomised: bool, i: nat, acc: nat): Next {
    if i < 2 then Go(OrigPtr(level, crc, randomised, i + 1, acc))
    else if acc > 10 + BLOCK_UNIT * level then Fail
    else Go(Mapping1(Head(level, crc, randomised, acc), []))
  }

  /** The next row of the mapping table with a byte in use; rows without one are not sent. */
  function NextRow(h: Head, flags: seq<bool>, used: seq<bool>): Next
    requires |flags| == 16 && |used| <= 256 && |used| % 16 == 0
    decreases 256 - |used|
  {
    if |used| == 256 then if Rank(used, 256) == 0 then Fail else Go(Groups(h, used))
    else if flags[|used| / 16] then Go(Mapping2(h, flags, used))
    else NextRow(h, flags, used + seq(16, k => false))
  }

  function AfterSelector(h: Head, used: seq<bool>, nGroups: nat, nSelectors: nat, js: seq<int>, j: nat, v: nat): Next {
    if v == 0 then
      if |js| + 1 < nSelectors then Go(Selector(h, used, nGroups, nSelectors, js + [j], 0))
      else Go(Curr(Plan(h, used, nGroups, js + [j]), []))
    else if j + 1 >= nGroups then Fail
    else Go(Selector(h, used, nGroups, nSelectors, js, j + 1))
  }

  /** The check at the head of the loop over a code length's steps. */
  function CheckedLength(p: Plan, lens: seq<seq<Byte>>, row: seq<Byte>, curr: int): Next {
    if curr < 1 || curr > LONGEST_CODE then Fail else Go(Length1(p, lens, row, curr))
  }

  function AfterLength(p: Plan, lens: seq<seq<Byte>>, row: seq<Byte>, curr: int): Next
    requires |p.used| == 256 && 1 <= curr <= LONGEST_CODE
  {
    var row' := row + [curr as Byte];
    if |row'| < AlphabetSize(p) then Go(Length1(p, lens, row', curr))
    else if |lens| + 1 < p.nGroups then Go(Curr(p, lens + [row']))
    else AllTables(p, lens + [row'])
  }

  /** What the bits asked for, of value v, lead to. */
  function After(x: Place, v: nat): Next
    requires IsPlace(x)
  {
    match x
    case Magic(i) => AfterMagic(i, v)
    case LevelByte => if v < LEVEL_ZERO + 1 || v > LEVEL_ZERO + 9 then Fail else Go(FirstByte(v - LEVEL_ZERO))
    case FirstByte(level) =>
      if v == END_MAGIC[0] as int then Go(EndMagic(level, 1))
      else if v != BLOCK_MAGIC[0] as int then Fail
      else Go(BlockMagic(level, 1))
    case BlockMagic(level, i) => AfterBlockMagic(level, i, v)
    case StoredCrc(level, i, acc) =>
      Go(if i < 3 then StoredCrc(level, i + 1, 256 * acc + v) else RandBit(level, 256 * acc + v))
    case RandBit(level, crc) => Go(OrigPtr(level, crc, v == 1, 0, 0))
    case OrigPtr(level, crc, randomised, i, acc) => AfterOrigPtr(level, crc, randomised, i, 256 * acc + v)
    case Mapping1(h, flags) =>
      if |flags| < 15 then Go(Mapping1(h, flags + [v == 1])) else NextRow(h, flags + [v == 1], [])
    case Mapping2(h, flags, used) =>
      if |used| % 16 < 15 then Go(Mapping2(h, flags, used + [v == 1])) else NextRow(h, flags, used + [v == 1])
    case Groups(h, used) => if v < 2 || v > 6 then Fail else Go(Selectors(h, used, v))
    case Selectors(h, used, nGroups) => if v < 1 then Fail else Go(Selector(h, used, nGroups, v, [], 0))
    case Selector(h, used, nGroups, nSelectors, js, j) => AfterSelector(h, used, nGroups, nSelectors, js, j, v)
    case Curr(p, lens) => CheckedLength(p, lens, [], v)
    case Length1(p, lens, row, curr) =>
      if v == 0 then AfterLength(p, lens, row, curr) else Go(Length2(p, lens, row, curr))
    case Length2(p, lens, row, curr) => CheckedLength(p, lens, row, if v == 0 then curr + 1 else curr - 1)
    case EndMagic(level, i) => AfterEndMagic(level, i, v)
    case EndCrc(i, acc) => if i < 3 then Go(EndCrc(i + 1, 256 * acc + v)) else End(256 * acc + v)
  }

  ghost predicate IsNext(n: Next) {
    match n
    case Go(x) => IsPlace(x)
    case Fail => true
    case AllTables(p, lens) => IsPlan(p) && AreLens(p, lens) && |lens| == p.nGroups
    case End(_) => true
  }

  lemma {:induction false} NextRowGood(h: Head, flags: seq<bool>, used: seq<bool>)
    requires IsHead(h) && |flags| == 16 && |used| <= 256 && |used| % 16 == 0
    ensures IsNext(NextRow(h, flags, used))
    decreases 256 - |used|
  {
    if |used| < 256 && !flags[|used| / 16] { NextRowGood(h, flags, used + seq(16, k => false)); }
  }

  lemma {:induction false} CrcBound(i: nat, acc: nat, v: nat)
    requires i < 4 && acc < Pow2(8 * i) && v < 256
    ensures 256 * acc + v < Pow2(8 * (i + 1)) && (i == 3 ==> 256 * acc + v < WORD)
  {
    assert Pow2(8) == 256;
    Pow2Sum(8, 8 * i);
    Pow2Values();
  }

  /** Behind the counts of tables and selectors. */
  predicate IsLate(x: Place) {
    x.Selector? || x.Curr? || x.Length1? || x.Length2?
  }

  lemma {:induction false} CrcGood(level: nat, i: nat, acc: nat, v: nat)
    requires IsPlace(StoredCrc(level, i, acc)) && v < Pow2(8)
    ensures IsNext(After(StoredCrc(level, i, acc), v))
  {
    assert Pow2(8) == 256;
    CrcBound(i, acc, v);
    hide Pow2;
  }

  lemma {:induction false} MappingGood(x: Place, v: nat)
    requires IsPlace(x) && (x.Mapping1? || x.Mapping2?)
    ensures IsNext(After(x, v))
  {
    hide NextRow, IsNext;
    if x.Mapping1? {
      if |x.flags| == 15 { NextRowGood(x.h, x.flags + [v == 1], []); } else { MoreFlags(x.h, x.flags + [v == 1]); }
    } else {
      if |x.used| % 16 == 15 {
        NextRowGood(x.h, x.flags, x.used + [v == 1]);
      } else {
        MoreUsed(x.h, x.flags, x.used, v == 1);
      }
    }
  }

  lemma {:induction false} MoreFlags(h: Head, flags: seq<bool>)
    requires IsHead(h) && |flags| < 16
    ensures IsNext(Go(Mapping1(h, flags)))
  {
  }

  lemma {:induction false} MoreUsed(h: Head, flags: seq<bool>, used: seq<bool>, b: bool)
    requires IsPlace(Mapping2(h, flags, used)) && |used| % 16 < 15
    ensures IsNext(Go(Mapping2(h, flags, used + [b])))
  {
  }

  lemma {:induction false} EarlyGood(x: Place, v: nat)
    requires IsPlace(x) && v < Pow2(Width(x)) && !IsLate(x)
    ensures IsNext(After(x, v))
  {
    hide Pow2, IsPlace, IsNext, After;
    match x
    case StoredCrc(level, i, acc) => CrcGood(level, i, acc, v);
    case Mapping1(_, _) => MappingGood(x, v);
    case Mapping2(_, _, _) => MappingGood(x, v);
    case OrigPtr(_, _, _, _, _) => OrigGood(x, v);
    case _ => SmallGood(x, v);
  }

  lemma {:induction false} OrigGood(x: Place, v: nat)
    requires IsPlace(x) && x.OrigPtr?
    ensures IsNext(After(x, v))
  {
  }

  lemma {:induction false} SmallGood(x: Place, v: nat)
    requires IsPlace(x) && !IsLate(x) && !x.StoredCrc? && !x.Mapping1? && !x.Mapping2? && !x.OrigPtr?
    ensures IsNext(After(x, v))
  {
    assert Pow2(0) == 1;
    hide Pow2, Rank, NextRow;
  }

  lemma {:induction false} LateGood(x: Place, v: nat)
    requires IsPlace(x) && IsLate(x)
    ensures IsNext(After(x, v))
  {
    hide Pow2, Rank, NextRow, IsUsed;
  }

  /** The machine stays in its places. */
  lemma {:induction false} AfterGood(x: Place, v: nat)
    requires IsPlace(x) && v < Pow2(Width(x))
    ensures IsNext(After(x, v))
  {
    hide IsPlace, IsNext, After;
    if IsLate(x) { LateGood(x, v); } else { EarlyGood(x, v); }
  }
}
