/** The compressor's bit buffer: numbers go in at the low end, full bytes leave at the high end. */
module BitWriter {
  import opened Bits
  import opened BitStrings

  const BYTE_TOP := 0x100_0000

  /** The bits of a sequence of bytes. */
  function BytesBits(s: seq<int>): (r: seq<bool>)
    ensures |r| == 8 * |s|
  {
    if s == [] then [] else BytesBits(s[..|s| - 1]) + BitsOf(if s[|s| - 1] < 0 then 0 else s[|s| - 1], 8)
  }

  function Zeros(n: nat): (r: seq<bool>)
    ensures |r| == n
  {
    seq(n, i => false)
  }

  lemma {:induction false} ZeroBits(n: nat)
    ensures BitsOf(0, n) == Zeros(n)
  {
    if n > 0 {
      DivModUnique(0, Pow2(n - 1), 0, 0);
      ZeroBits(n - 1);
    }
  }

  lemma {:induction false} BytesBitsAppend(s: seq<int>, c: nat)
    ensures BytesBits(s + [c]) == BytesBits(s) + BitsOf(c, 8)
  {
    assert (s + [c])[..|s|] == s;
  }

  // ---- what a 32-bit buffer with live bits at its top holds

  function TopByte(buff: nat): nat { buff / BYTE_TOP }

  function ShiftByteOut(buff: nat): nat { (buff * 256) % WORD }

  /** v << k on 32 bits */
  function Shifted(v: nat, k: nat): nat { (v * Pow2(k)) % WORD }

  ghost function Low(held: nat, n: nat): nat { held % Pow2(n) }

  ghost function Concat(held: nat, n: nat, v: nat): nat { held * Pow2(n) + v }

  ghost predicate Holds(buff: nat, live: int, held: nat) {
    0 <= live <= 32 && held < Pow2(live) && buff == held * Pow2(32 - live)
  }

  /** The top byte of the buffer is the first of its bits; shifting it out leaves the others. */
  lemma {:induction false} ByteOut(buff: nat, live: int, held: nat)
    requires Holds(buff, live, held) && live >= 8
    ensures TopByte(buff) < 256
    ensures Holds(ShiftByteOut(buff), live - 8, Low(held, live - 8))
    ensures BitsOf(held, live) == BitsOf(TopByte(buff), 8) + BitsOf(Low(held, live - 8), live - 8)
  {
    hide Pow2, BitsOf, Holds, TopByte, Low, ShiftByteOut;
    ByteOutHolds(buff, live, held);
    var p := Pow2(live - 8);
    SplitTop(held, p);
    assert Pow2(8) == 256 by { Pow2Values(); }
    BitsSplit(held / p, held % p, 8, live - 8);
  }

  lemma {:induction false} SplitTop(held: nat, p: nat)
    requires p > 0 && held < 256 * p
    ensures held == (held / p) * p + held % p && held / p < 256 && held % p < p
  {
    var hi := held / p;
    if hi >= 256 { MulLe(256, hi, p); }
  }

  lemma {:induction false} ByteOutHolds(buff: nat, live: int, held: nat)
    requires Holds(buff, live, held) && live >= 8
    ensures 8 <= live <= 32 && held < 256 * Pow2(live - 8)
    ensures TopByte(buff) == held / Pow2(live - 8) && Low(held, live - 8) == held % Pow2(live - 8)
    ensures Holds(ShiftByteOut(buff), live - 8, Low(held, live - 8))
  {
    PowersAround(live - 8, 32 - live);
    hide Pow2;
    ByteOutNumbers(held, Pow2(live - 8), Pow2(32 - live));
  }

  lemma {:induction false} PowersAround(k: nat, gap: nat)
    requires k + gap == 24
    ensures Pow2(k) * Pow2(gap) == BYTE_TOP && Pow2(8) == 256 && Pow2(k + 8) == 256 * Pow2(k) &&
      Pow2(gap + 8) == 256 * Pow2(gap)
  {
    Pow2Values();
    hide Pow2;
    Pow2Sum(k, gap);
    Pow2Sum(k, 8);
    Pow2Sum(gap, 8);
  }

  lemma {:induction false} ByteOutNumbers(held: nat, p: nat, g: nat)
    requires p > 0 && g > 0 && held < 256 * p && p * g == BYTE_TOP
    ensures var hi, lo := held / p, held % p;
      lo < p && (held * g) / BYTE_TOP == hi && (held * g * 256) % WORD == lo * (256 * g)
  {
    var hi, lo := held / p, held % p;
    SplitTop(held, p);
    Distribute(hi, p, lo, g);
    BelowProduct(lo, 0, p, g);
    DivModUnique(held * g, BYTE_TOP, hi, lo * g);
    assert held * g * 256 == WORD * hi + (lo * g) * 256;
    DivModUnique(held * g * 256, WORD, hi, (lo * g) * 256);
    assert (lo * g) * 256 == lo * (256 * g);
  }

  /** Or-ing a number in below the live bits appends its bits. */
  lemma {:induction false} BitsIn(buff: nat, live: int, held: nat, n: nat, v: nat)
    requires Holds(buff, live, held) && live + n <= 32 && v < Pow2(n)
    ensures Holds(Or(buff, Shifted(v, 32 - live - n)), live + n, Concat(held, n, v))
    ensures BitsOf(Concat(held, n, v), live + n) == BitsOf(held, live) + BitsOf(v, n)
  {
    var gap := 32 - live - n;
    var g, pn, pl := Pow2(gap), Pow2(n), Pow2(live);
    ThreePowers(live, n, gap);
    BitsSplit(held, v, live, n);
    hide Pow2, BitsOf;
    BitsInNumbers(held, v, pl, pn, g);
    ModOfMultiple(pn * g, held);
    ShiftedOr(held, v, pn, g, 32 - live);
  }

  lemma {:induction false} ThreePowers(live: nat, n: nat, gap: nat)
    requires live + n + gap == 32
    ensures Pow2(n) * Pow2(gap) == Pow2(n + gap) && Pow2(live) * Pow2(n) == Pow2(live + n)
    ensures (Pow2(live) * Pow2(n)) * Pow2(gap) == WORD
  {
    Pow2Values();
    hide Pow2;
    Pow2Sum(n, gap);
    Pow2Sum(live, n);
    Pow2Sum(live + n, gap);
  }

  lemma {:induction false} ShiftedOr(held: nat, v: nat, pn: nat, g: nat, k: nat)
    requires pn > 0 && g > 0 && pn * g == Pow2(k) && v * g < pn * g && ((pn * g) * held) % (pn * g) == 0
    ensures Or(held * Pow2(k), v * g) == held * Pow2(k) + v * g
  {
    assert (pn * g) * held == held * Pow2(k);
    OrIsSum(v * g, held * Pow2(k), k);
  }

  lemma {:induction false} BitsInNumbers(held: nat, v: nat, pl: nat, pn: nat, g: nat)
    requires (pl * pn) * g == WORD && v < pn && held < pl && g > 0
    ensures held * (pn * g) + v * g == (held * pn + v) * g
    ensures held * pn + v < pl * pn && v * g < pn * g && (v * g) % WORD == v * g
  {
    BelowProduct(v, 0, pn, g);
    BelowProduct(held, v, pl, pn);
    Distribute(held, pn, v, g);
    MulLe(1, pl, pn * g);
    Regroup(pl, pn, g);
    DivModUnique(v * g, WORD, 0, v * g);
  }

  lemma {:induction false} Regroup(a: int, b: int, c: int)
    ensures a * (b * c) == (a * b) * c
  {
  }

  lemma {:induction false} OrNothing(buff: nat, k: nat)
    ensures Or(buff, Shifted(0, k)) == buff
  {
    assert Shifted(0, k) == 0;
  }

  lemma {:induction false} Pad(buff: nat, live: int, held: nat, pad: nat)
    requires Holds(buff, live, held) && live + pad <= 32
    ensures Holds(buff, live + pad, Concat(held, pad, 0)) &&
      BitsOf(Concat(held, pad, 0), live + pad) == BitsOf(held, live) + Zeros(pad)
  {
    HoldsRange(buff, live, held);
    hide BitsOf, Holds, Pow2, Shifted, Or, Concat;
    ZeroBits(pad);
    BitsIn(buff, live, held, pad, 0);
    OrNothing(buff, 32 - live - pad);
  }

  lemma {:induction false} HoldsRange(buff: nat, live: int, held: nat)
    requires Holds(buff, live, held)
    ensures 0 <= live <= 32
  {
  }

  lemma {:induction false} MoveByte(z: seq<int>, buff: nat, live: int, held: nat)
    requires Holds(buff, live, held) && live >= 8
    ensures 0 <= TopByte(buff) < 256 && Holds(ShiftByteOut(buff), live - 8, Low(held, live - 8))
    ensures BytesBits(z + [TopByte(buff)]) + BitsOf(Low(held, live - 8), live - 8) == BytesBits(z) + BitsOf(held, live)
  {
    hide Holds, Pow2, BytesBits, BitsOf, TopByte, ShiftByteOut, Low;
    assert 8 <= live <= 32 by { HoldsRange(buff, live, held); }
    ByteOut(buff, live, held);
    BytesBitsAppend(z, TopByte(buff));
  }

  /** How many bits fill up the last byte. */
  lemma {:induction false} FillUp(live: int) returns (pad: nat, bytes: nat)
    requires 0 <= live <= 32
    ensures live + pad == 8 * bytes && pad < 8 && bytes <= 4
  {
    bytes := (live + 7) / 8;
    pad := 8 * bytes - live;
  }

  class Writer {
    var bsBuff: nat
    var bsLive: int
    const zbits: array<int>
    var numZ: int
    ghost var held: nat

    ghost predicate Valid()
      reads this, zbits
    {
      && Holds(bsBuff, bsLive, held)
      && 0 <= numZ <= zbits.Length
      && forall i | 0 <= i < numZ :: 0 <= zbits[i] < 256
    }

    /** Everything written so far. */
    ghost function Bits(): (r: seq<bool>)
      reads this, zbits
      requires Valid()
      ensures |r| == 8 * numZ + bsLive
    {
      BytesBits(zbits[..numZ]) + BitsOf(held, bsLive)
    }

    /** The state right after BZ2_bsInitWrite. */
    constructor (capacity: nat)
      ensures Valid() && fresh(zbits) && zbits.Length == capacity && Bits() == []
    {
      bsLive := 0;
      bsBuff := 0;
      zbits := new int[capacity];
      numZ := 0;
      held := 0;
      new;
      assert Pow2(0) == 1;
    }

    /** BZ2_bsInitWrite */
    method InitWrite()
      requires Valid()
      modifies this`bsLive, this`bsBuff, this`held
      ensures Valid() && Bits() == BytesBits(zbits[..numZ])
    {
      bsLive, bsBuff, held := 0, 0, 0;
      assert Pow2(0) == 1;
    }

    /** The bits not yet in zbits. */
    ghost function LiveBits(): (r: seq<bool>)
      reads this, zbits
      requires Valid()
      ensures |r| <= 32
    {
      BitsOf(held, bsLive)
    }

    /** What is in zbits has been taken away. */
    method Rewind()
      requires Valid()
      modifies this`numZ
      ensures Valid() && numZ == 0 && Bits() == LiveBits() == old(LiveBits())
    {
      numZ := 0;
      assert zbits[..0] == [];
    }

    /** Full bytes leave the buffer. */
    method NeedW()
      requires Valid() && |Bits()| <= 8 * zbits.Length
      modifies this`bsBuff, this`bsLive, this`numZ, this`held, zbits
      ensures Valid() && bsLive < 8 && Bits() == old(Bits())
    {
      while bsLive >= 8
        invariant Valid() && Bits() == old(Bits())
      {
        PutByte(0);
      }
    }

    /** Writes the n low bits of v. */
    method W(n: int, v: int)
      requires Valid() && 1 <= n <= 25 && 0 <= v < Pow2(n)
      requires |Bits()| + n <= 8 * zbits.Length
      modifies this`bsBuff, this`bsLive, this`numZ, this`held, zbits
      ensures Valid() && Bits() == old(Bits()) + BitsOf(v, n)
    {
      hide Holds, BitsOf, Pow2, Or, Shifted, Concat, BytesBits;
      NeedW();
      BitsIn(bsBuff, bsLive, held, n, v);
      bsBuff := Or(bsBuff, Shifted(v, 32 - bsLive - n));
      held := Concat(held, n, v);
      bsLive := bsLive + n;
    }

    /** Writes out what the buffer still holds, the last byte filled up with zero bits. */
    method FinishWrite() returns (ghost pad: nat)
      requires Valid() && |Bits()| + 7 <= 8 * zbits.Length
      modifies this`bsBuff, this`bsLive, this`numZ, this`held, zbits
      ensures bsLive <= 0 && 0 <= numZ <= zbits.Length && forall i | 0 <= i < numZ :: 0 <= zbits[i] < 256
      ensures pad < 8 && BytesBits(zbits[..numZ]) == old(Bits()) + Zeros(pad)
    {
      ghost var bytes: int;
      pad, bytes := FillUp(bsLive);
      Pad(bsBuff, bsLive, held, pad);
      hide Holds, Pow2, BytesBits, BitsOf, Concat;
      assert BytesBits(zbits[..numZ]) + (BitsOf(held, bsLive) + Zeros(pad)) == Bits() + Zeros(pad);
      held := Concat(held, pad, 0);
      PutAll(pad, bytes);
    }

    method PutAll(ghost pad: nat, ghost bytes0: nat)
      requires bsLive + pad == 8 * bytes0 && pad < 8 && Padded(bsLive + pad) && numZ + bytes0 <= zbits.Length
      modifies this`bsBuff, this`bsLive, this`numZ, this`held, zbits
      ensures bsLive <= 0 && Padded(0) && BytesBits(zbits[..numZ]) == old(AllBits(bsLive + pad))
    {
      ghost var bytes := bytes0;
      hide Holds, Pow2, BytesBits, BitsOf;
      while bsLive > 0
        invariant bsLive + pad == 8 * bytes && bytes >= 0
        invariant Padded(bsLive + pad) && numZ + bytes <= zbits.Length
        invariant AllBits(bsLive + pad) == old(AllBits(bsLive + pad))
      {
        PutByte(pad);
        bytes := bytes - 1;
      }
      assert bytes == 0;
      assert BitsOf(held, 0) == [];
      assert BytesBits(zbits[..numZ]) + [] == BytesBits(zbits[..numZ]);
    }

    /** The buffer with its last bits filled up to live bits. */
    ghost predicate Padded(live: int)
      reads this, zbits
    {
      Holds(bsBuff, live, held) && 0 <= numZ <= zbits.Length && forall i | 0 <= i < numZ :: 0 <= zbits[i] < 256
    }

    ghost function AllBits(live: nat): seq<bool>
      reads this, zbits
      requires Padded(live)
    {
      BytesBits(zbits[..numZ]) + BitsOf(held, live)
    }

    method PutByte(ghost pad: nat)
      requires bsLive + pad >= 8 && Padded(bsLive + pad) && numZ < zbits.Length
      modifies this`bsBuff, this`bsLive, this`numZ, this`held, zbits
      ensures bsLive == old(bsLive) - 8 && numZ == old(numZ) + 1 && Padded(bsLive + pad)
      ensures AllBits(bsLive + pad) == old(AllBits(bsLive + pad))
    {
      hide Holds, Pow2, BytesBits, BitsOf, TopByte, ShiftByteOut, Low;
      ghost var before := zbits[..numZ];
      MoveByte(before, bsBuff, bsLive + pad, held);
      zbits[numZ] := TopByte(bsBuff);
      numZ := numZ + 1;
      assert zbits[..numZ] == before + [TopByte(bsBuff)];
      bsBuff := ShiftByteOut(bsBuff);
      held := Low(held, bsLive + pad - 8);
      bsLive := bsLive - 8;
    }
  }
}
