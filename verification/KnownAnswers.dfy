/** What some definitions come to on a small input, written out: the checksums of the letter a, the code of a table. */
module KnownAnswers {
  import opened Rotations
  import ZlibCrc
  import CrcSlicing
  import Adler
  import MarshalData
  import MarshalRoundTrip

  const LETTER: Byte := 97

  // ---- checksums

  lemma {:induction false} LetterAsWord()
    ensures ZlibCrc.Xor(ZlibCrc.ONES, ZlibCrc.Word(LETTER)) == 0xffff_ff9e
  {
  }

  lemma {:induction false} LetterShifted()
    ensures var x: bv32 := 0xffff_ff9e;
      ZlibCrc.ZeroBit(ZlibCrc.ZeroBit(ZlibCrc.ZeroBit(ZlibCrc.ZeroBit(x)))) == 0xaff5_1d81
    ensures var x: bv32 := 0xaff5_1d81;
      ZlibCrc.ZeroBit(ZlibCrc.ZeroBit(ZlibCrc.ZeroBit(ZlibCrc.ZeroBit(x)))) == 0x1748_41bc
  {
  }

  lemma {:induction false} LetterFed()
    ensures ZlibCrc.Feed(ZlibCrc.ONES, [LETTER]) == ZlibCrc.Zeros(ZlibCrc.Xor(ZlibCrc.ONES, ZlibCrc.Word(LETTER)), 8)
  {
    hide ZlibCrc.Zeros, ZlibCrc.Xor, ZlibCrc.Word;
    assert [LETTER][..0] == [] && ZlibCrc.Feed(ZlibCrc.ONES, []) == ZlibCrc.ONES;
  }

  /** zlib's CRC-32 of the letter a. */
  lemma {:induction false} ZlibLetter()
    ensures ZlibCrc.Crc32([LETTER]) == 0xe8b7_be43
  {
    LetterFed();
    LetterAsWord();
    LetterShifted();
    CrcSlicing.EightZeros(0xffff_ff9e);
    ZlibCrc.CrcIs([LETTER]);
    hide ZlibCrc.Crc32, ZlibCrc.Feed, ZlibCrc.Zeros, ZlibCrc.ZeroBit, ZlibCrc.Word;
  }

  lemma {:induction false} AdlerLetter()
    ensures Adler.Checksum([LETTER]) == Adler.Sums(98, 98)
  {
    assert [LETTER][..0] == [] && [LETTER][0] == LETTER;
    assert Adler.FeedAll(Adler.Sums(1, 0), []) == Adler.Sums(1, 0);
    assert Adler.FeedAll(Adler.Sums(1, 0), [LETTER]) == Adler.Feed(Adler.Sums(1, 0), LETTER);
  }

  // ---- a table in code

  lemma {:induction false} OneEntry(h: MarshalData.Heap, e: MarshalData.Entry, seen: MarshalData.Seen, idx: nat,
    k: seq<Byte>, v: seq<Byte>)
    requires MarshalData.GoodHeap(h) && MarshalData.GoodValue(e.key, |h|) && MarshalData.GoodValue(e.value, |h|)
    requires MarshalData.EncodeValue(h, e.key, seen, idx) == MarshalData.Code(k, seen, idx)
    requires MarshalData.EncodeValue(h, e.value, seen, idx) == MarshalData.Code(v, seen, idx)
    ensures MarshalData.EncodeEntries(h, [e], seen, idx) == MarshalData.Code(k + v, seen, idx)
  {
    hide MarshalData.EncodeValue, MarshalData.GoodHeap, MarshalData.GoodValue;
    assert [e][1..] == [];
    assert MarshalData.EncodeEntries(h, [], seen, idx) == MarshalData.Code([], seen, idx);
    assert k + v + [] == k + v;
  }

  /** A table of one entry: magic, a new table of so many bytes, the entry. */
  lemma {:induction false} OneTable(h: MarshalData.Heap, e: MarshalData.Entry, code: seq<Byte>)
    requires MarshalData.GoodHeap(h) && h == [[e]] && |code| < 256
    requires MarshalData.GoodValue(e.key, 1) && MarshalData.GoodValue(e.value, 1)
    requires MarshalData.EncodeEntries(h, [e], map[0 := 1], 2) == MarshalData.Code(code, map[0 := 1], 2)
    ensures MarshalRoundTrip.Marshal(h, MarshalData.Table(0), []) ==
      MarshalData.Code([0x8f, 5, 2, |code|, 0, 0, 0] + code, map[0 := 1], 2)
  {
    hide MarshalData.EncodeEntries, MarshalData.GoodHeap;
    var none: MarshalData.Seen := map[];
    assert none[0 := 1] == map[0 := 1];
  }

  /** The table {a = true}: magic, a new table of so many bytes, the key with its length, the value. */
  lemma {:induction false} TableInCode()
    ensures var h := [[MarshalData.Entry(MarshalData.Str([LETTER]), MarshalData.Bool(true))]];
      MarshalData.GoodHeap(h) && MarshalRoundTrip.Marshal(h, MarshalData.Table(0), []) ==
        MarshalData.Code([0x8f, 5, 2, 8, 0, 0, 0, 4, 1, 0, 0, 0, 97, 1, 1], map[0 := 1], 2)
  {
    hide MarshalData.EncodeEntries, MarshalRoundTrip.Marshal;
    var e := MarshalData.Entry(MarshalData.Str([LETTER]), MarshalData.Bool(true));
    OneEntry([[e]], e, map[0 := 1], 2, [4, 1, 0, 0, 0, 97], [1, 1]);
    OneTable([[e]], e, [4, 1, 0, 0, 0, 97, 1, 1]);
  }

  /** A table that holds itself: magic, a new table, the key, and then only the table's number. */
  lemma {:induction false} CycleInCode()
    ensures var h := [[MarshalData.Entry(MarshalData.Str([LETTER]), MarshalData.Table(0))]];
      MarshalData.GoodHeap(h) && MarshalRoundTrip.Marshal(h, MarshalData.Table(0), []) ==
        MarshalData.Code([0x8f, 5, 2, 12, 0, 0, 0, 4, 1, 0, 0, 0, 97, 5, 1, 1, 0, 0, 0], map[0 := 1], 2)
  {
    hide MarshalData.EncodeEntries, MarshalRoundTrip.Marshal;
    var e := MarshalData.Entry(MarshalData.Str([LETTER]), MarshalData.Table(0));
    OneEntry([[e]], e, map[0 := 1], 2, [4, 1, 0, 0, 0, 97], [5, 1, 1, 0, 0, 0]);
    OneTable([[e]], e, [4, 1, 0, 0, 0, 97, 5, 1, 1, 0, 0, 0]);
  }

  /** The number one, false and nil. */
  lemma {:induction false} ValuesInCode()
    ensures MarshalData.GoodHeap([])
    ensures MarshalRoundTrip.Marshal([], MarshalData.Num([0, 0, 0, 0, 0, 0, 0xf0, 0x3f]), []) ==
      MarshalData.Code([0x8f, 3, 0, 0, 0, 0, 0, 0, 0xf0, 0x3f], map[], 1)
    ensures MarshalRoundTrip.Marshal([], MarshalData.Bool(false), []) == MarshalData.Code([0x8f, 1, 0], map[], 1)
    ensures MarshalRoundTrip.Marshal([], MarshalData.Nil, []) == MarshalData.Code([0x8f, 0], map[], 1)
  {
  }
}
