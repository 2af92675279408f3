/**
 * The header machine on real input: it goes on as long as there are bits, and a later call goes on where it stopped.
 */
module HeaderReader {
  import opened Bits
  import opened Rotations
  import opened BitStrings
  import opened BitReader
  import opened BlockFormat
  import opened BlockData
  import opened StreamFormat
  import opened HeaderSteps
  import opened HeaderParse
  import opened DataReader
  import opened DataStart
  import opened StreamReading
  import opened StreamStart

  /** The level once it is known, and 0 where it is not, or no longer needed. */
  function LevelOf(x: Place): nat {
    match x
    case Magic(_) => 0
    case LevelByte => 0
    case FirstByte(level) => level
    case BlockMagic(level, _) => level
    case StoredCrc(level, _, _) => level
    case RandBit(level, _) => level
    case OrigPtr(level, _, _, _, _) => level
    case Mapping1(h, _) => h.level
    case Mapping2(h, _, _) => h.level
    case Groups(h, _) => h.level
    case Selectors(h, _, _) => h.level
    case Selector(h, _, _, _, _, _) => h.level
    case Curr(p, _) => p.h.level
    case Length1(p, _, _, _) => p.h.level
    case Length2(p, _, _, _) => p.h.level
    case EndMagic(_, _) => 0
    case EndCrc(_, _) => 0
  }

  lemma {:induction false} NextRowLevel(h: Head, flags: seq<bool>, used: seq<bool>)
    requires |flags| == 16 && |used| <= 256 && |used| % 16 == 0
    ensures NextRow(h, flags, used).Go? ==> LevelOf(NextRow(h, flags, used).x) == h.level
    ensures !NextRow(h, flags, used).AllTables?
    decreases 256 - |used|
  {
    if |used| < 256 && !flags[|used| / 16] { NextRowLevel(h, flags, used + seq(16, k => false)); }
  }

  /** The level stays as it is, once it is known. */
  lemma {:induction false} LevelStays(x: Place, v: nat)
    requires IsPlace(x)
    ensures After(x, v).Go? ==> LevelOf(After(x, v).x) in {0, LevelOf(x)} || x == LevelByte
    ensures After(x, v).AllTables? ==> After(x, v).p.h.level == LevelOf(x)
    ensures x == LevelByte && After(x, v).Go? ==> 1 <= LevelOf(After(x, v).x) <= 9
  {
    hide NextRow;
    if x.Mapping1? && |x.flags| == 15 { NextRowLevel(x.h, x.flags + [v == 1], []); }
    if x.Mapping2? && |x.used| % 16 == 15 { NextRowLevel(x.h, x.flags, x.used + [v == 1]); }
  }

  datatype Stop = More | Wait | Invalid | DataNext(p: Plan, lens: seq<seq<Byte>>) | Trailer(combined: nat)

  class Scanner {
    const reader: Reader
    var place: Place
    var blockSize100k: nat
    /** The block, in fast mode with links; in small mode the low 16 bits of each link. */
    var tt: array<int>
    /** The high four bits of each link, two in a byte. */
    var ll4: array<int>
    /** All input so far, and the blocks read from it. */
    ghost var all: seq<bool>
    ghost var done: seq<Decoded>

    /** Memory for blocks of the level. */
    ghost predicate Sized(level: nat)
      reads this`blockSize100k, this`tt, this`ll4, ll4
    {
      && blockSize100k == level && 1 <= level <= 9 && tt.Length == BLOCK_UNIT * level
      && 2 * ll4.Length >= BLOCK_UNIT * level && tt != ll4 && forall i | 0 <= i < ll4.Length :: 0 <= ll4[i] < 256
    }

    ghost predicate Valid()
      reads this, reader, ll4
    {
      reader.Valid() && IsPlace(place) && Reads(all, done, place, reader.Bits()) &&
        (LevelOf(place) > 0 ==> Sized(LevelOf(place))) && StartRead(all, place, reader.Bits())
    }

    constructor ()
      ensures fresh(reader) && fresh(tt) && fresh(ll4) && tt != ll4 && place == Magic(0) && Valid() && all == [] &&
        done == []
    {
      reader := new Reader([]);
      place, blockSize100k, all, done := Magic(0), 0, [], [];
      tt, ll4 := new int[0], new int[0];
      new;
      ReadsFirst();
    }

    method Supply(input: seq<Byte>)
      requires Valid()
      modifies this`all, reader`input, reader`next
      ensures Valid() && all == old(all) + InputBits(input)
    {
      hide Reads, InputBits, Reader.Bits, Sized, LevelOf, StartRead;
      ghost var m := InputBits(input);
      ReadsSupplied(all, done, place, reader.Bits(), m);
      StartSupplied(all, place, reader.Bits(), m);
      reader.Supply(input);
      all := all + m;
    }

    /** BZALLOC for the block. */
    method Allocate(level: nat)
      requires 1 <= level <= 9
      modifies this`blockSize100k, this`tt, this`ll4
      ensures Sized(level) && fresh(tt) && fresh(ll4)
    {
      blockSize100k := level;
      tt := new int[BLOCK_UNIT * level](i => 0);
      ll4 := new int[(1 + BLOCK_UNIT * level) / 2](i => 0);
    }

    /** One GET_BITS, and what it decides. */
    method Step() returns (r: Stop)
      requires Valid()
      modifies this`place, this`blockSize100k, this`tt, this`ll4, reader`bsBuff, reader`bsLive, reader`next
      ensures (tt == old(tt) || fresh(tt)) && (ll4 == old(ll4) || fresh(ll4)) && reader.Valid()
      ensures |reader.Bits()| <= |old(reader.Bits())|
      ensures r == More ==> Valid() && |reader.Bits()| < |old(reader.Bits())|
      ensures r == Wait ==>
        Valid() && reader.Bits() == old(reader.Bits()) && ParseStream(all) == NeedMore && Begins(all)
      ensures r == Invalid ==> Wrong(all) && place == old(place) && Faulty()
      ensures r.DataNext? || r.Trailer? ==> Begun(all)
      ensures r.DataNext? ==> IsPlan(r.p) && AreLens(r.p, r.lens) && |r.lens| == r.p.nGroups && Sized(r.p.h.level)
      ensures r.DataNext? ==>
        |reader.Bits()| < |old(reader.Bits())| &&
        ReadsData(all, done, r.p.h, SettingOf(r.p, r.lens), Start(), 0, reader.Bits())
      ensures r.Trailer? ==> ReadsEnd(all, done, r.combined, reader.Bits())
    {
      hide Reads, ReadBits, ReadsData, ReadsEnd, After, IsPlace, LevelOf, ParseStream, Reader.Bits, SettingOf, IsPlan,
        AreLens, Led, IsNext, Wrong, StartRead, Begins, Begun;
      ghost var bits := reader.Bits();
      var ok, v := reader.GetBits(Width(place));
      if !ok {
        ReadsWaits(all, done, place, bits);
        StartWaits(all, place, bits);
        return Wait;
      }
      ReadsStep(all, done, place, bits, v, reader.Bits());
      LevelStays(place, v);
      StartStep(all, place, bits, v, reader.Bits());
      r := Enter(After(place, v));
    }

    /** What was wrong at this place: the first four bytes, or something behind them. */
    ghost predicate Faulty()
      reads this`place, this`all
    {
      if place.Magic? || place.LevelByte? then !Begins(all) else Begun(all)
    }

    /** Goes on to where the bits lead. */
    method Enter(n: Next) returns (r: Stop)
      requires reader.Valid() && IsNext(n) && Led(all, done, n, reader.Bits())
      requires LevelOf(place) > 0 ==> Sized(LevelOf(place))
      requires n.Go? ==> if place == LevelByte then 1 <= LevelOf(n.x) <= 9 else LevelOf(n.x) in {0, LevelOf(place)}
      requires n.AllTables? ==> n.p.h.level == LevelOf(place)
      requires (n.Go? ==> StartRead(all, n.x, reader.Bits())) && (n == Fail ==> Faulty())
      modifies this`place, this`blockSize100k, this`tt, this`ll4
      ensures (tt == old(tt) || fresh(tt)) && (ll4 == old(ll4) || fresh(ll4)) && reader.Valid() && r != Wait
      ensures r == More ==> Valid()
      ensures (r.DataNext? ==> n.AllTables?) && (r.Trailer? ==> n.End?)
      ensures r == Invalid ==> Wrong(all) && place == old(place) && Faulty()
      ensures r.DataNext? ==> IsPlan(r.p) && AreLens(r.p, r.lens) && |r.lens| == r.p.nGroups && Sized(r.p.h.level)
      ensures r.DataNext? ==> ReadsData(all, done, r.p.h, SettingOf(r.p, r.lens), Start(), 0, reader.Bits())
      ensures r.Trailer? ==> ReadsEnd(all, done, r.combined, reader.Bits())
    {
      hide Reads, ReadsData, ReadsEnd, After, LevelOf, ParseStream, Reader.Bits, SettingOf, AreLens, Wrong, StartRead,
        Begins, Begun;
      match n
      case Go(x) =>
        if place == LevelByte { Allocate(LevelOf(x)); }
        place := x;
        r := More;
      case Fail => r := Invalid;
      case AllTables(p, lens) => r := DataNext(p, lens);
      case End(combined) => r := Trailer(combined);
    }

    /** Up to the data of the next block, or the end of the stream, or of the input. */
    method Run() returns (r: Stop)
      requires Valid()
      modifies this`place, this`blockSize100k, this`tt, this`ll4, reader`bsBuff, reader`bsLive, reader`next
      ensures (tt == old(tt) || fresh(tt)) && (ll4 == old(ll4) || fresh(ll4)) && reader.Valid() && r != More
      ensures r == Wait ==> Valid() && ParseStream(all) == NeedMore && Begins(all)
      ensures r == Invalid ==> Wrong(all) && Faulty()
      ensures r.DataNext? || r.Trailer? ==> Begun(all)
      ensures r.DataNext? ==> IsPlan(r.p) && AreLens(r.p, r.lens) && |r.lens| == r.p.nGroups && Sized(r.p.h.level)
      ensures r.DataNext? ==>
        |reader.Bits()| < |old(reader.Bits())| &&
        ReadsData(all, done, r.p.h, SettingOf(r.p, r.lens), Start(), 0, reader.Bits())
      ensures r.Trailer? ==> ReadsEnd(all, done, r.combined, reader.Bits())
    {
      hide Reads, ReadsData, ReadsEnd, IsPlace, LevelOf, ParseStream, Reader.Bits, SettingOf, IsPlan, AreLens, Wrong,
        StartRead, Begins, Begun;
      r := More;
      while r == More
        invariant (tt == old(tt) || fresh(tt)) && (ll4 == old(ll4) || fresh(ll4)) && reader.Valid()
        invariant |reader.Bits()| <= |old(reader.Bits())|
        invariant r == More ==> Valid()
        invariant r == Wait ==> Valid() && ParseStream(all) == NeedMore && Begins(all)
        invariant r == Invalid ==> Wrong(all) && Faulty()
        invariant r.DataNext? || r.Trailer? ==> Begun(all)
        invariant r.DataNext? ==> IsPlan(r.p) && AreLens(r.p, r.lens) && |r.lens| == r.p.nGroups && Sized(r.p.h.level)
        invariant r.DataNext? ==>
          |reader.Bits()| < |old(reader.Bits())| &&
          ReadsData(all, done, r.p.h, SettingOf(r.p, r.lens), Start(), 0, reader.Bits())
        invariant r.Trailer? ==> ReadsEnd(all, done, r.combined, reader.Bits())
        decreases r == More, |reader.Bits()|
      {
        r := Step();
      }
    }
  }
}
