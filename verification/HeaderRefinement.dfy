/** Each step of the header machine is one step of the parse. */
module HeaderRefinement {
  import opened Bits
  import opened Rotations
  import opened BitStrings
  import opened BitReader
  import opened MoveToFront
  import opened HuffmanCodes
  import opened BlockParts
  import opened BlockData
  import opened MtfEncode
  import opened BlockFormat
  import opened StreamFormat
  import opened HeaderSteps
  import opened HeaderParse

  /** Parsing from here on comes to what the step leads to, or waits for the bits the machine asks for. */
  ghost predicate IsStep(x: Place, bits: seq<bool>)
    requires IsPlace(x)
  {
    match ReadBits(bits, Width(x))
    case NeedMore => From(x, bits) == NeedMore
    case Bad => From(x, bits) == Bad
    case Done(v, rest) => IsNext(After(x, v)) && From(x, bits) == Then(After(x, v), rest)
  }

  // ---- expected bytes

  lemma {:induction false} NoBytes(bits: seq<bool>)
    ensures ReadBytes([], bits) == Done((), bits)
  {
  }

  lemma {:induction false} FirstByteRead(expected: seq<Byte>, i: nat, bits: seq<bool>)
    requires i < |expected|
    ensures match ReadBits(bits, 8)
      case NeedMore => ReadBytes(expected[i..], bits) == NeedMore
      case Bad => ReadBytes(expected[i..], bits) == Bad
      case Done(v, rest) =>
        ReadBytes(expected[i..], bits) == if v != expected[i] as int then Bad else ReadBytes(expected[i + 1..], rest)
  {
    hide ReadBits;
    assert expected[i..][1..] == expected[i + 1..] && expected[i..][0] == expected[i];
  }

  lemma {:induction false} MagicStep(i: nat, bits: seq<bool>)
    requires IsPlace(Magic(i))
    ensures IsStep(Magic(i), bits)
  {
    hide FromLevel, ReadBits, ReadBytes, Pow2;
    assert |STREAM_MAGIC| == 3 && STREAM_MAGIC[3..] == [];
    FirstByteRead(STREAM_MAGIC, i, bits);
    var r := ReadBits(bits, 8);
    if r.Done? { NoBytes(r.rest); }
    if r.Done? { AfterGood(Magic(i), r.value); }
  }

  lemma {:induction false} LevelStep(bits: seq<bool>)
    ensures IsStep(LevelByte, bits)
  {
    hide ReadBits, Pow2, ParseBlocks;
    var r := ReadBits(bits, 8);
    if r.Done? { AfterGood(LevelByte, r.value); }
  }

  lemma {:induction false} BlockMagicStep(level: nat, i: nat, bits: seq<bool>)
    requires IsPlace(BlockMagic(level, i))
    ensures IsStep(BlockMagic(level, i), bits)
  {
    hide FromStoredCrc, ReadBits, ReadBytes, Pow2;
    assert |BLOCK_MAGIC| == 6 && BLOCK_MAGIC[6..] == [];
    FirstByteRead(BLOCK_MAGIC, i, bits);
    var r := ReadBits(bits, 8);
    if r.Done? { NoBytes(r.rest); }
    if r.Done? { AfterGood(BlockMagic(level, i), r.value); }
  }

  lemma {:induction false} EndMagicStep(level: nat, i: nat, bits: seq<bool>)
    requires IsPlace(EndMagic(level, i))
    ensures IsStep(EndMagic(level, i), bits)
  {
    hide FromEndCrc, ReadBits, ReadBytes, Pow2;
    assert |END_MAGIC| == 6 && END_MAGIC[6..] == [];
    FirstByteRead(END_MAGIC, i, bits);
    var r := ReadBits(bits, 8);
    if r.Done? { NoBytes(r.rest); }
    if r.Done? { AfterGood(EndMagic(level, i), r.value); }
  }

  // ---- numbers of several bytes

  /** The first byte of a number of n bits. */
  lemma {:induction false} ByteByByte(bits: seq<bool>, n: nat, acc: nat)
    requires n >= 8
    ensures ReadBits(bits, 8).Done? || ReadBits(bits, 8) == NeedMore
    ensures ReadBits(bits, 8) == NeedMore ==> ReadBits(bits, n) == NeedMore
    ensures ReadBits(bits, 8).Done? ==>
      var rest := ReadBits(ReadBits(bits, 8).rest, n - 8);
      && (ReadBits(bits, n) == NeedMore <==> rest == NeedMore)
      && (ReadBits(bits, n).Done? <==> rest.Done?)
      && (rest.Done? ==>
          ReadBits(bits, n).rest == rest.rest &&
          acc * Pow2(n) + ReadBits(bits, n).value == (256 * acc + ReadBits(bits, 8).value) * Pow2(n - 8) + rest.value)
  {
    assert Pow2(8) == 256;
    Pow2Sum(8, n - 8);
    hide Pow2, Value;
    if |bits| >= n {
      var b := bits[..n];
      ValueSplit(b, 8);
      assert b[..8] == bits[..8] && b[8..] == bits[8..][..n - 8] && bits[n..] == bits[8..][n - 8..];
      Scaled(acc, Value(bits[..8]), Pow2(n - 8));
    }
  }

  lemma {:induction false} Scaled(acc: nat, v: nat, p: nat)
    ensures acc * (256 * p) + v * p == (256 * acc + v) * p
  {
  }

  lemma {:induction false} NoMore(bits: seq<bool>)
    ensures ReadBits(bits, 0) == Done(0, bits) && Pow2(0) == 1
  {
    assert bits[..0] == [] && bits[0..] == bits;
  }

  lemma {:induction false} StoredCrcStep(level: nat, i: nat, acc: nat, bits: seq<bool>)
    requires IsPlace(StoredCrc(level, i, acc))
    ensures IsStep(StoredCrc(level, i, acc), bits)
  {
    hide FromRandBit, ReadBits, Pow2, FromStoredCrc;
    Pow2Values();
    var r := ReadBits(bits, 8);
    StoredCrcWaits(level, i, acc, bits);
    if r.Done? {
      AfterGood(StoredCrc(level, i, acc), r.value);
      CrcBound(i, acc, r.value);
      if i < 3 {
        StoredCrcByte(level, i, acc, bits, r.value, r.rest);
      } else {
        StoredCrcLast(level, acc, bits, r.value, r.rest);
      }
    }
  }

  lemma {:induction false} StoredCrcWaits(level: nat, i: nat, acc: nat, bits: seq<bool>)
    requires IsPlace(StoredCrc(level, i, acc))
    ensures ReadBits(bits, 8) != Bad &&
      (ReadBits(bits, 8) == NeedMore ==> FromStoredCrc(level, i, acc, bits) == NeedMore)
  {
    hide FromRandBit, Pow2;
  }

  lemma {:induction false} StoredCrcByte(level: nat, i: nat, acc: nat, bits: seq<bool>, v: nat, rest: seq<bool>)
    requires IsPlace(StoredCrc(level, i, acc)) && ReadBits(bits, 8) == Done(v, rest)
    requires i < 3 && 256 * acc + v < Pow2(8 * (i + 1))
    ensures FromStoredCrc(level, i, acc, bits) == FromStoredCrc(level, i + 1, 256 * acc + v, rest)
  {
    hide FromRandBit, ReadBits, Pow2;
    ByteByByte(bits, 32 - 8 * i, acc);
    assert 32 - 8 * i - 8 == 32 - 8 * (i + 1);
  }

  lemma {:induction false} StoredCrcLast(level: nat, acc: nat, bits: seq<bool>, v: nat, rest: seq<bool>)
    requires IsPlace(StoredCrc(level, 3, acc)) && ReadBits(bits, 8) == Done(v, rest) && 256 * acc + v < WORD
    ensures FromStoredCrc(level, 3, acc, bits) == FromRandBit(level, 256 * acc + v, rest)
  {
    hide FromRandBit, ReadBits, Pow2;
    ByteByByte(bits, 8, acc);
    NoMore(rest);
  }

  lemma {:induction false} EndCrcStep(i: nat, acc: nat, bits: seq<bool>)
    requires IsPlace(EndCrc(i, acc))
    ensures IsStep(EndCrc(i, acc), bits)
  {
    hide ReadBits, Pow2;
    ByteByByte(bits, 32 - 8 * i, acc);
    var r := ReadBits(bits, 8);
    if r.Done? {
      AfterGood(EndCrc(i, acc), r.value);
      NoMore(r.rest);
    }
  }

  lemma {:induction false} OrigPtrStep(level: nat, crc: nat, randomised: bool, i: nat, acc: nat, bits: seq<bool>)
    requires IsPlace(OrigPtr(level, crc, randomised, i, acc))
    ensures IsStep(OrigPtr(level, crc, randomised, i, acc), bits)
  {
    hide FromMapping1, ReadBits, Pow2, FromOrigPtr;
    var r := ReadBits(bits, 8);
    OrigPtrByte(level, crc, randomised, i, acc, bits);
    if r.Done? {
      AfterGood(OrigPtr(level, crc, randomised, i, acc), r.value);
    }
  }

  lemma {:induction false} OrigPtrByte(level: nat, crc: nat, randomised: bool, i: nat, acc: nat, bits: seq<bool>)
    requires IsPlace(OrigPtr(level, crc, randomised, i, acc))
    ensures match ReadBits(bits, 8)
      case NeedMore => FromOrigPtr(level, crc, randomised, i, acc, bits) == NeedMore
      case Bad => false
      case Done(v, rest) =>
        FromOrigPtr(level, crc, randomised, i, acc, bits) ==
          if i < 2 then FromOrigPtr(level, crc, randomised, i + 1, 256 * acc + v, rest)
          else if 256 * acc + v > 10 + BLOCK_UNIT * level then Bad
          else FromMapping1(Head(level, crc, randomised, 256 * acc + v), [], rest)
  {
    hide FromMapping1, ReadBits, Pow2, After, AfterOrigPtr;
    ByteByByte(bits, 24 - 8 * i, acc);
    var r := ReadBits(bits, 8);
    if r.Done? { NoMore(r.rest); }
  }

  lemma {:induction false} RandBitStep(level: nat, crc: nat, bits: seq<bool>)
    requires IsPlace(RandBit(level, crc))
    ensures IsStep(RandBit(level, crc), bits)
  {
    hide FromOrigPtr, ReadBits, Pow2;
    var r := ReadBits(bits, 1);
    if r.Done? { AfterGood(RandBit(level, crc), r.value); }
  }

  lemma {:induction false} GroupsStep(h: Head, used: seq<bool>, bits: seq<bool>)
    requires IsPlace(Groups(h, used))
    ensures IsStep(Groups(h, used), bits)
  {
    hide FromSelectors, ReadBits, Pow2, Rank;
    var r := ReadBits(bits, 3);
    if r.Done? { AfterGood(Groups(h, used), r.value); }
  }

  lemma {:induction false} SelectorsStep(h: Head, used: seq<bool>, nGroups: nat, bits: seq<bool>)
    requires IsPlace(Selectors(h, used, nGroups))
    ensures IsStep(Selectors(h, used, nGroups), bits)
  {
    hide FromSelector, ReadBits, Pow2, Rank;
    var r := ReadBits(bits, 15);
    if r.Done? { AfterGood(Selectors(h, used, nGroups), r.value); }
  }

  // ---- the mapping table

  /** Rows that are not sent need no bits. */
  lemma {:induction false} RowsSkipped(h: Head, flags: seq<bool>, used: seq<bool>, bits: seq<bool>)
    requires IsHead(h) && |flags| == 16 && |used| <= 256 && |used| % 16 == 0
    ensures IsNext(NextRow(h, flags, used)) && FromRows(h, flags, used, bits) == Then(NextRow(h, flags, used), bits)
    decreases 256 - |used|
  {
    hide FromGroups, Rank;
    NextRowGood(h, flags, used);
    var i := |used| / 16;
    if |used| == 256 {
      assert used + [] == used;
    } else if flags[i] {
      RowSent(h, flags, used, bits);
    } else {
      RowsSkipped(h, flags, used + seq(16, k => false), bits);
      RowNotSent(h, flags, used, bits);
    }
  }

  lemma {:induction false} RowSent(h: Head, flags: seq<bool>, used: seq<bool>, bits: seq<bool>)
    requires IsPlace(Mapping2(h, flags, used)) && |used| % 16 == 0
    ensures FromRows(h, flags, used, bits) == FromMapping2(h, flags, used, bits)
  {
    hide FromUsed;
    if |bits| >= 16 {
      var r := ReadRows(flags, |used| / 16 + 1, bits[16..]);
      if r.Done? { assert used + (bits[..16] + r.value) == used + bits[..16] + r.value; }
    }
  }

  lemma {:induction false} RowNotSent(h: Head, flags: seq<bool>, used: seq<bool>, bits: seq<bool>)
    requires IsHead(h) && |flags| == 16 && |used| < 256 && |used| % 16 == 0 && !flags[|used| / 16]
    ensures FromRows(h, flags, used, bits) == FromRows(h, flags, used + seq(16, k => false), bits)
  {
    hide FromUsed;
    var row := seq(16, k => false);
    var r := ReadRows(flags, |used| / 16 + 1, bits);
    if r.Done? { assert used + (row + r.value) == used + row + r.value; }
  }

  lemma {:induction false} OneBit(bits: seq<bool>)
    ensures ReadBits(bits, 1) == if bits == [] then NeedMore else Done(if bits[0] then 1 else 0, bits[1..])
  {
    if bits != [] { assert bits[..1] == [bits[0]] && bits[..1][..0] == []; }
  }

  lemma {:induction false} Mapping1Step(h: Head, flags: seq<bool>, bits: seq<bool>)
    requires IsPlace(Mapping1(h, flags))
    ensures IsStep(Mapping1(h, flags), bits)
  {
    hide FromRows, ReadBits, Pow2, NextRow;
    OneBit(bits);
    if bits != [] {
      var b, rest, n := bits[0], bits[1..], 16 - |flags|;
      AfterGood(Mapping1(h, flags), if b then 1 else 0);
      if |flags| == 15 {
        assert bits[..1] == [b];
        RowsSkipped(h, flags + [b], [], rest);
      } else if |bits| >= n {
        assert flags + bits[..n] == flags + [b] + rest[..n - 1] && bits[n..] == rest[n - 1..];
      }
    }
  }

  lemma {:induction false} Mapping2Step(h: Head, flags: seq<bool>, used: seq<bool>, bits: seq<bool>)
    requires IsPlace(Mapping2(h, flags, used))
    ensures IsStep(Mapping2(h, flags, used), bits)
  {
    hide FromRows, ReadBits, Pow2, NextRow, FromMapping2;
    OneBit(bits);
    if bits == [] {
      Mapping2Waits(h, flags, used);
    } else {
      AfterGood(Mapping2(h, flags, used), if bits[0] then 1 else 0);
      if |used| % 16 == 15 {
        Mapping2Last(h, flags, used, bits, |used| / 16);
        RowsSkipped(h, flags, used + [bits[0]], bits[1..]);
      } else {
        Mapping2More(h, flags, used, bits);
      }
    }
  }

  lemma {:induction false} Mapping2Waits(h: Head, flags: seq<bool>, used: seq<bool>)
    requires IsPlace(Mapping2(h, flags, used))
    ensures FromMapping2(h, flags, used, []) == NeedMore
  {
    hide FromRows;
  }

  lemma {:induction false} Mapping2Last(h: Head, flags: seq<bool>, used: seq<bool>, bits: seq<bool>, i: nat)
    requires IsPlace(Mapping2(h, flags, used)) && bits != [] && |used| == 16 * i + 15
    ensures i < 16 && |used + [bits[0]]| == 16 * (i + 1)
    ensures FromMapping2(h, flags, used, bits) == FromRows(h, flags, used + [bits[0]], bits[1..])
  {
    hide FromRows;
    assert |used| % 16 == 15 && bits[..1] == [bits[0]];
  }

  lemma {:induction false} Mapping2More(h: Head, flags: seq<bool>, used: seq<bool>, bits: seq<bool>)
    requires IsPlace(Mapping2(h, flags, used)) && bits != [] && |used| % 16 < 15
    requires IsPlace(Mapping2(h, flags, used + [bits[0]]))
    ensures FromMapping2(h, flags, used, bits) == FromMapping2(h, flags, used + [bits[0]], bits[1..])
  {
    hide FromRows;
    var n := 16 - |used| % 16;
    assert |used + [bits[0]]| % 16 == |used| % 16 + 1;
    if |bits| >= n {
      assert used + bits[..n] == used + [bits[0]] + bits[1..][..n - 1] && bits[n..] == bits[1..][n - 1..];
    }
  }

  // ---- selectors

  lemma {:induction false} SelectorStep(h: Head, used: seq<bool>, nGroups: nat, nSelectors: nat, js: seq<int>, j: nat,
    bits: seq<bool>)
    requires IsPlace(Selector(h, used, nGroups, nSelectors, js, j))
    ensures IsStep(Selector(h, used, nGroups, nSelectors, js, j), bits)
  {
    hide FromCurr, ReadBits, Pow2, Rank;
    OneBit(bits);
    if bits != [] {
      var x := Selector(h, used, nGroups, nSelectors, js, j);
      AfterGood(x, if bits[0] then 1 else 0);
      if !bits[0] { SelectorDone(h, used, nGroups, nSelectors, js, j, bits); }
    }
  }

  lemma {:induction false} SelectorDone(h: Head, used: seq<bool>, nGroups: nat, nSelectors: nat, js: seq<int>, j: nat,
    bits: seq<bool>)
    requires IsPlace(Selector(h, used, nGroups, nSelectors, js, j)) && bits != [] && !bits[0]
    ensures IsNext(AfterSelector(h, used, nGroups, nSelectors, js, j, 0))
    ensures From(Selector(h, used, nGroups, nSelectors, js, j), bits) ==
      Then(AfterSelector(h, used, nGroups, nSelectors, js, j, 0), bits[1..])
  {
    hide FromCurr, Rank;
    var n, rest := nSelectors - |js| - 1, bits[1..];
    if n == 0 {
      assert js + [j] + [] == js + [j];
    } else {
      var x := ReadUnary(0, nGroups, rest);
      if x.Done? {
        var more := ReadSelectors(n - 1, nGroups, x.rest);
        if more.Done? { assert js + [j] + ([x.value] + more.value) == js + [j] + [x.value] + more.value; }
      }
    }
  }

  // ---- code lengths

  lemma {:induction false} CurrStep(p: Plan, lens: seq<seq<Byte>>, bits: seq<bool>)
    requires IsPlace(Curr(p, lens))
    ensures IsStep(Curr(p, lens), bits)
  {
    hide FromTables, ReadBits, Rank, FromCurr, FromLength, Pow2;
    var r := ReadBits(bits, 5);
    CurrRead(p, lens, bits);
    if r.Done? { AfterGood(Curr(p, lens), r.value); }
  }

  lemma {:induction false} CurrRead(p: Plan, lens: seq<seq<Byte>>, bits: seq<bool>)
    requires IsPlace(Curr(p, lens))
    ensures var r := ReadBits(bits, 5);
      FromCurr(p, lens, bits) ==
        if !r.Done? then r.PropagateFailure()
        else if r.value < 1 || r.value > LONGEST_CODE then Bad
        else FromLength(p, lens, [], r.value, r.rest)
  {
    hide FromTables, ReadBits, Rank, Pow2;
    var r := ReadBits(bits, 5);
    if r.Done? {
      var n := AlphabetSize(p);
      NoLengthsFrom(n, r.value, r.rest);
      var l := ReadLengths(n, r.value, r.rest);
      if l.Done? {
        assert [] + l.value == l.value;
        var ls := ReadTables(p.nGroups - |lens| - 1, n, l.rest);
        if ls.Done? { assert lens + ([l.value] + ls.value) == lens + [l.value] + ls.value; }
      }
    }
  }

  lemma {:induction false} NoLengthsFrom(n: nat, curr: int, bits: seq<bool>)
    requires n > 0
    ensures curr < 1 || curr > LONGEST_CODE ==> ReadLengths(n, curr, bits) == Bad
  {
  }

  lemma {:induction false} Length1Step(p: Plan, lens: seq<seq<Byte>>, row: seq<Byte>, curr: int, bits: seq<bool>)
    requires IsPlace(Length1(p, lens, row, curr))
    ensures IsStep(Length1(p, lens, row, curr), bits)
  {
    hide FromCurr, ReadBits, Pow2, Rank, FromTables;
    OneBit(bits);
    if bits != [] {
      AfterGood(Length1(p, lens, row, curr), if bits[0] then 1 else 0);
      if bits[0] {
        LengthGoesOn(AlphabetSize(p) - |row|, curr, bits);
      } else {
        LengthDone(p, lens, row, curr, bits);
      }
    }
  }

  lemma {:induction false} LengthGoesOn(n: nat, curr: int, bits: seq<bool>)
    requires n > 0 && 1 <= curr <= LONGEST_CODE && bits != [] && bits[0]
    ensures ReadLengths(n, curr, bits) ==
      if |bits| == 1 then NeedMore else ReadLengths(n, if bits[1] then curr - 1 else curr + 1, bits[2..])
  {
  }

  lemma {:induction false} LastLength(curr: int, bits: seq<bool>)
    requires 1 <= curr <= LONGEST_CODE && bits != [] && !bits[0]
    ensures ReadLengths(1, curr, bits) == Done([curr as Byte] + [], bits[1..])
  {
    assert ReadLengths(0, curr, bits[1..]) == Done([], bits[1..]);
  }

  lemma {:induction false} NoTables(n: nat, bits: seq<bool>)
    ensures ReadTables(0, n, bits) == Done([], bits)
  {
  }

  lemma {:induction false} LengthDone(p: Plan, lens: seq<seq<Byte>>, row: seq<Byte>, curr: int, bits: seq<bool>)
    requires IsPlace(Length1(p, lens, row, curr)) && bits != [] && !bits[0]
    ensures IsNext(AfterLength(p, lens, row, curr))
    ensures FromLength(p, lens, row, curr, bits) == Then(AfterLength(p, lens, row, curr), bits[1..])
  {
    hide FromTables, Rank;
    var c, n := curr as Byte, AlphabetSize(p) - |row| - 1;
    if n == 0 {
      LastLength(curr, bits);
      assert row + ([c] + []) == row + [c];
      if |lens| + 1 == p.nGroups {
        NoTables(AlphabetSize(p), bits[1..]);
        assert lens + [row + [c]] + [] == lens + [row + [c]];
      }
    } else {
      var l := ReadLengths(n, curr, bits[1..]);
      if l.Done? { assert row + ([c] + l.value) == row + [c] + l.value; }
    }
  }

  lemma {:induction false} Length2Step(p: Plan, lens: seq<seq<Byte>>, row: seq<Byte>, curr: int, bits: seq<bool>)
    requires IsPlace(Length2(p, lens, row, curr))
    ensures IsStep(Length2(p, lens, row, curr), bits)
  {
    hide FromCurr, ReadBits, Pow2, Rank;
    OneBit(bits);
    if bits != [] {
      AfterGood(Length2(p, lens, row, curr), if bits[0] then 1 else 0);
      NoLengthsFrom(AlphabetSize(p) - |row|, if bits[0] then curr - 1 else curr + 1, bits[1..]);
    }
  }

  // ---- a whole block

  /** The blocks behind a block whose data have been parsed. */
  ghost function Finish(h: Head, column: Parse<seq<Byte>>): Parse<Parsed> {
    var (c, rest) :- column;
    WithBlock(h, c, rest)
  }

  lemma {:induction false} GroupsAre(h: Head, used: seq<bool>, nGroups: nat, nSelectors: nat, bits: seq<bool>)
    requires IsPlace(Selector(h, used, nGroups, nSelectors, [], 0))
    ensures FromSelector(h, used, nGroups, nSelectors, [], 0, bits) ==
      Finish(h, ParseGroups(used, nGroups, nSelectors, BLOCK_UNIT * h.level, bits))
  {
    hide WithBlock, DecodeData, Rank, ReadTables, Unseq, FromCurr, ReadUnary;
    FirstSelectorRead(nSelectors, nGroups, bits);
    var js := ReadSelectors(nSelectors, nGroups, bits);
    if js.Done? {
      var p := Plan(h, used, nGroups, js.value);
      assert [] + [js.value[0]] + js.value[1..] == js.value;
      TablesAre(p, js.rest);
    }
  }

  lemma {:induction false} TablesAre(p: Plan, bits: seq<bool>)
    requires IsPlan(p)
    ensures var lens := ReadTables(p.nGroups, AlphabetSize(p), bits);
      FromCurr(p, [], bits) == if lens.Done? then FromTables(p, lens.value, lens.rest) else lens.PropagateFailure()
  {
    hide FromTables, Rank, ReadTables;
    var lens := ReadTables(p.nGroups, AlphabetSize(p), bits);
    if lens.Done? { assert [] + lens.value == lens.value; }
  }

  lemma {:induction false} FirstSelectorRead(n: nat, nGroups: nat, bits: seq<bool>)
    requires n > 0
    ensures var x := ReadUnary(0, nGroups, bits);
      if x.Done? then
        var more := ReadSelectors(n - 1, nGroups, x.rest);
        ReadSelectors(n, nGroups, bits) == if more.Done? then Done([x.value] + more.value, more.rest) else more
      else ReadSelectors(n, nGroups, bits) == x.PropagateFailure()
  {
  }

  lemma {:induction false} CodedIs(h: Head, used: seq<bool>, bits: seq<bool>)
    requires IsHead(h) && |used| == 256
    ensures FromUsed(h, used, bits) == Finish(h, ParseCoded(used, BLOCK_UNIT * h.level, bits))
  {
    hide WithBlock, Rank, ParseGroups, ReadBits, FromSelector, Pow2;
    var a := ReadBits(bits, 3);
    if a.Done? {
      var c := ReadBits(a.rest, 15);
      if c.Done? && Rank(used, 256) > 0 && 2 <= a.value <= 6 && c.value >= 1 {
        GroupsAre(h, used, a.value, c.value, c.rest);
      }
    }
  }

  lemma {:induction false} MappingIs(h: Head, bits: seq<bool>)
    requires IsHead(h)
    ensures var u := ReadMapping(bits);
      FromMapping1(h, [], bits) == if u.Done? then FromUsed(h, u.value, u.rest) else u.PropagateFailure()
  {
    hide FromUsed, ReadRows;
    if |bits| >= 16 {
      assert [] + bits[..16] == bits[..16];
      var r := ReadRows(bits[..16], 0, bits[16..]);
      if r.Done? { assert [] + r.value == r.value; }
    }
  }

  /** The block d, which parsing has found, and the blocks behind it. */
  ghost function Blocks(level: nat, d: Parse<Decoded>): Parse<Parsed> {
    var (x, rest) :- d;
    var (more, rest') :- ParseBlocks(level, rest);
    Done(Parsed([x] + more.blocks, more.combined), rest')
  }

  lemma {:induction false} BlockIs(level: nat, bits: seq<bool>)
    requires 1 <= level <= 9 && IsPlace(StoredCrc(level, 0, 0))
    ensures FromStoredCrc(level, 0, 0, bits) == Blocks(level, ParseBlock(level, bits))
  {
    hide ParseBlocks, ReadMapping, ParseCoded, ReadBits, FromMapping1, FromUsed, Pow2;
    Pow2Values();
    var a := ReadBits(bits, 32);
    if a.Done? {
      var b := ReadBits(a.rest, 1);
      if b.Done? {
        var c := ReadBits(b.rest, 24);
        if c.Done? && c.value <= 10 + BLOCK_UNIT * level {
          var h := Head(level, a.value, b.value == 1, c.value);
          MappingIs(h, c.rest);
          var u := ReadMapping(c.rest);
          if u.Done? { CodedIs(h, u.value, u.rest); }
        }
      }
    }
  }

  lemma {:induction false} FirstByteStep(level: nat, bits: seq<bool>)
    requires IsPlace(FirstByte(level))
    ensures IsStep(FirstByte(level), bits)
  {
    hide ParseBlock, ReadBits, Pow2, FromStoredCrc, ReadBytes;
    var r := ReadBits(bits, 8);
    if r.Done? {
      AfterGood(FirstByte(level), r.value);
      var m := ReadBytes(BLOCK_MAGIC[1..], r.rest);
      CrcZero(level);
      if m.Done? { BlockIs(level, m.rest); }
    }
  }

  lemma {:induction false} CrcZero(level: nat)
    requires 1 <= level <= 9
    ensures IsPlace(StoredCrc(level, 0, 0))
  {
    assert Pow2(0) == 1;
  }

  /** At every place. */
  lemma {:induction false} EveryStep(x: Place, bits: seq<bool>)
    requires IsPlace(x)
    ensures IsStep(x, bits)
  {
    hide *;
    match x
    case Magic(i) => MagicStep(i, bits);
    case LevelByte => LevelStep(bits);
    case FirstByte(level) => FirstByteStep(level, bits);
    case BlockMagic(level, i) => BlockMagicStep(level, i, bits);
    case StoredCrc(level, i, acc) => StoredCrcStep(level, i, acc, bits);
    case RandBit(level, crc) => RandBitStep(level, crc, bits);
    case OrigPtr(level, crc, randomised, i, acc) => OrigPtrStep(level, crc, randomised, i, acc, bits);
    case Mapping1(h, flags) => Mapping1Step(h, flags, bits);
    case Mapping2(h, flags, used) => Mapping2Step(h, flags, used, bits);
    case Groups(h, used) => GroupsStep(h, used, bits);
    case Selectors(h, used, nGroups) => SelectorsStep(h, used, nGroups, bits);
    case Selector(h, used, nGroups, nSelectors, js, j) => SelectorStep(h, used, nGroups, nSelectors, js, j, bits);
    case Curr(p, lens) => CurrStep(p, lens, bits);
    case Length1(p, lens, row, curr) => Length1Step(p, lens, row, curr, bits);
    case Length2(p, lens, row, curr) => Length2Step(p, lens, row, curr, bits);
    case EndMagic(level, i) => EndMagicStep(level, i, bits);
    case EndCrc(i, acc) => EndCrcStep(i, acc, bits);
  }
}
