/** The first four bytes of a stream: "BZh" and a digit, told apart from all other errors. */
module StreamStart {
  import opened Bits
  import opened BitStrings
  import opened BlockFormat
  import opened StreamFormat
  import opened HeaderSteps

  /** What byte i of a stream may be. */
  predicate IsStart(i: nat, v: nat)
    requires i < 4
  {
    if i < 3 then v == STREAM_MAGIC[i] as int else LEVEL_ZERO + 1 <= v <= LEVEL_ZERO + 9
  }

  /** Byte i may begin a stream, if it is there. */
  ghost predicate GoodByte(all: seq<bool>, i: nat)
    requires i < 4
  {
    8 * i + 8 <= |all| ==> IsStart(i, Value(all[8 * i..8 * i + 8]))
  }

  /** The input begins a stream, as far as it goes. */
  ghost predicate Begins(all: seq<bool>) {
    forall i: nat | i < 4 :: GoodByte(all, i)
  }

  /** With its first four bytes. */
  ghost predicate Begun(all: seq<bool>) {
    |all| >= 32 && Begins(all)
  }

  /** In front of byte i, with these bits not yet read. */
  ghost predicate AtByte(all: seq<bool>, i: nat, bits: seq<bool>) {
    i <= 3 && 8 * i <= |all| && bits == all[8 * i..] && forall k: nat | k < i :: GoodByte(all, k)
  }

  ghost predicate StartRead(all: seq<bool>, x: Place, bits: seq<bool>) {
    match x
    case Magic(i) => AtByte(all, i, bits)
    case LevelByte => AtByte(all, 3, bits)
    case _ => Begun(all)
  }

  lemma {:induction false} GoodStill(all: seq<bool>, m: seq<bool>, i: nat)
    requires i < 4 && 8 * i + 8 <= |all|
    ensures GoodByte(all + m, i) <==> GoodByte(all, i)
  {
    assert (all + m)[8 * i..8 * i + 8] == all[8 * i..8 * i + 8];
  }

  lemma {:induction false} BegunStill(all: seq<bool>, m: seq<bool>)
    requires Begun(all)
    ensures Begun(all + m)
  {
    forall i: nat | i < 4 ensures GoodByte(all + m, i) { GoodStill(all, m, i); }
  }

  lemma {:induction false} StartSupplied(all: seq<bool>, x: Place, bits: seq<bool>, m: seq<bool>)
    requires StartRead(all, x, bits)
    ensures StartRead(all + m, x, bits + m)
  {
    if x.Magic? || x.LevelByte? {
      var i := if x.Magic? then x.i else 3;
      assert (all + m)[8 * i..] == all[8 * i..] + m;
      forall k: nat | k < i ensures GoodByte(all + m, k) { GoodStill(all, m, k); }
    } else {
      BegunStill(all, m);
    }
  }

  /** With too few bits for the next byte there is nothing wrong yet. */
  lemma {:induction false} StartWaits(all: seq<bool>, x: Place, bits: seq<bool>)
    requires StartRead(all, x, bits) && ReadBits(bits, Width(x)) == NeedMore
    ensures Begins(all)
  {
  }

  lemma {:induction false} ReadHere(all: seq<bool>, i: nat, bits: seq<bool>, v: nat, rest: seq<bool>)
    requires AtByte(all, i, bits) && ReadBits(bits, 8) == Done(v, rest)
    ensures 8 * i + 8 <= |all| && v == Value(all[8 * i..8 * i + 8]) && rest == all[8 * i + 8..]
  {
    assert bits[..8] == all[8 * i..8 * i + 8];
  }

  /** A byte read is right, or the input does not begin a stream. */
  lemma {:induction false} StartStep(all: seq<bool>, x: Place, bits: seq<bool>, v: nat, rest: seq<bool>)
    requires IsPlace(x) && StartRead(all, x, bits) && ReadBits(bits, Width(x)) == Done(v, rest)
    ensures After(x, v).Go? ==> StartRead(all, After(x, v).x, rest)
    ensures After(x, v) == Fail ==> if x.Magic? || x.LevelByte? then !Begins(all) else Begun(all)
    ensures After(x, v).AllTables? || After(x, v).End? ==> Begun(all)
  {
    if x.Magic? || x.LevelByte? {
      var i := if x.Magic? then x.i else 3;
      ReadHere(all, i, bits, v, rest);
      hide Value, ReadBits;
      assert GoodByte(all, i) <==> IsStart(i, v);
    } else {
      hide Begun;
      GoesOn(x, v);
    }
  }

  /** Behind the level there is no way back to it. */
  lemma {:induction false} GoesOn(x: Place, v: nat)
    requires IsPlace(x) && !x.Magic? && !x.LevelByte?
    ensures After(x, v).Go? ==> !After(x, v).x.Magic? && !After(x, v).x.LevelByte?
  {
    if x.Mapping1? && |x.flags| == 15 { RowGoesOn(x.h, x.flags + [v == 1], []); }
    if x.Mapping2? && |x.used| % 16 == 15 { RowGoesOn(x.h, x.flags, x.used + [v == 1]); }
  }

  lemma {:induction false} RowGoesOn(h: Head, flags: seq<bool>, used: seq<bool>)
    requires |flags| == 16 && |used| <= 256 && |used| % 16 == 0
    ensures NextRow(h, flags, used).Go? ==>
      !NextRow(h, flags, used).x.Magic? && !NextRow(h, flags, used).x.LevelByte?
    decreases 256 - |used|
  {
    if |used| < 256 && !flags[|used| / 16] { RowGoesOn(h, flags, used + seq(16, k => false)); }
  }
}
