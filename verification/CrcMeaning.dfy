/**
 * What bzip2's checksums are: a block's is the CRC-32 of zlib with all bits the other way round, and the combined one
 * is the exclusive or of the blocks' checksums, each turned once for each block behind it.
 */
module CrcMeaning {
  import Bits
  import opened Rotations
  import opened Crc
  import opened ZlibCrc
  import CrcSlicing

  /** The number as a word. */
  function AsWord(n: nat): bv32
    requires n < Bits.WORD
  {
    n as bv32
  }

  lemma {:induction false} WordAgain(x: bv32)
    ensures AsWord(Crc.Number(x)) == x
  {
  }

  // ---- the bits of a word the other way round

  function Reversed(x: bv32): bv32 {
    var a := ((x >> 1) & 0x5555_5555) | ((x & 0x5555_5555) << 1);
    var b := ((a >> 2) & 0x3333_3333) | ((a & 0x3333_3333) << 2);
    var c := ((b >> 4) & 0x0f0f_0f0f) | ((b & 0x0f0f_0f0f) << 4);
    var d := ((c >> 8) & 0x00ff_00ff) | ((c & 0x00ff_00ff) << 8);
    (d >> 16) | (d << 16)
  }

  function ReversedOctet(x: bv8): bv8 {
    var a := ((x >> 1) & 0x55) | ((x & 0x55) << 1);
    var b := ((a >> 2) & 0x33) | ((a & 0x33) << 2);
    (b >> 4) | (b << 4)
  }

  function ReversedByte(c: Byte): Byte {
    CrcSlicing.Number(ReversedOctet(CrcSlicing.Octet(c)))
  }

  function ReversedBytes(s: seq<Byte>): (r: seq<Byte>)
    ensures |r| == |s|
  {
    if s == [] then [] else ReversedBytes(s[..|s| - 1]) + [ReversedByte(s[|s| - 1])]
  }

  /** Bit j of a word; bit 0 is the least. */
  function Bit(x: bv32, j: bv32): bv32
    requires j < 32
  {
    (x >> j) & 1
  }

  predicate BitAt(x: bv32, j: bv32)
    requires j < 32
  {
    Bit(x, j) == 1
  }

  lemma {:induction false} ReversedBit(x: bv32, j: bv32)
    requires j < 32
    ensures BitAt(Reversed(x), j) <==> BitAt(x, 31 - j)
  {
  }

  lemma {:induction false} ReversedXor(x: bv32, y: bv32)
    ensures Reversed(Xor(x, y)) == Xor(Reversed(x), Reversed(y))
  {
  }

  // ---- a bit through the shift register

  function Twice(x: bv32): bv32 { x << 1 }

  predicate TopBit(x: bv32) { x & 0x8000_0000 != 0 }

  lemma {:induction false} CrcBitIs(x: bv32)
    ensures CrcBit(x) == if TopBit(x) then Xor(Twice(x), POLY) else Twice(x)
  {
  }

  lemma {:induction false} ReversedTwice(x: bv32)
    ensures Reversed(Twice(x)) == Half(Reversed(x)) && (TopBit(x) <==> Odd(Reversed(x)))
  {
  }

  lemma {:induction false} ReversedPoly()
    ensures Reversed(POLY) == CRC_POLY
  {
  }

  lemma {:induction false} ZeroBitIs(y: bv32)
    ensures ZeroBit(y) == if Odd(y) then Xor(CRC_POLY, Half(y)) else Half(y)
  {
  }

  /** One bit through either register. */
  lemma {:induction false} ReversedStep(x: bv32)
    ensures Reversed(CrcBit(x)) == ZeroBit(Reversed(x))
  {
    hide *;
    CrcBitIs(x);
    ReversedTwice(x);
    ReversedPoly();
    ReversedXor(Twice(x), POLY);
    ZeroBitIs(Reversed(x));
    XorCommutes(CRC_POLY, Half(Reversed(x)));
  }

  // ---- a byte through the shift register

  /** Eight zero bits. */
  function EightBits(x: bv32): bv32 {
    CrcBit(CrcBit(CrcBit(CrcBit(CrcBit(CrcBit(CrcBit(CrcBit(x))))))))
  }

  lemma {:induction false} EightIs(x: bv32)
    ensures EightBits(x) == CrcBit(CrcBit(CrcBit(CrcBit(CrcBit(CrcBit(CrcBit(CrcBit(x))))))))
  {
  }

  lemma {:induction false} ReversedEight(x: bv32)
    ensures Reversed(EightBits(x)) == Zeros(Reversed(x), 8)
  {
    hide *;
    EightIs(x);
    var a := CrcBit(CrcBit(x));
    var b := CrcBit(CrcBit(a));
    var c := CrcBit(CrcBit(b));
    ReversedStep(x);
    ReversedStep(CrcBit(x));
    ReversedStep(a);
    ReversedStep(CrcBit(a));
    ReversedStep(b);
    ReversedStep(CrcBit(b));
    ReversedStep(c);
    ReversedStep(CrcBit(c));
    CrcSlicing.EightZeros(Reversed(x));
  }

  /** The word with the top byte out. */
  function Up8(x: bv32): bv32 { x << 8 }

  /** The top byte and the new one, at the top. */
  function Looked(x: bv32, w: bv32): bv32 { ((x >> 24) ^ w) << 24 }

  lemma {:induction false} StepIs(x: bv32, w: bv32)
    ensures CrcStep(x, w) == Xor(Up8(x), EightBits(Looked(x, w)))
  {
    hide CrcBit;
  }

  lemma {:induction false} ReversedUp8(x: bv32, b: bv8)
    ensures CrcSlicing.Down8(Xor(Reversed(x), CrcSlicing.Wide(ReversedOctet(b)))) == Reversed(Up8(x))
  {
  }

  lemma {:induction false} ReversedLooked(x: bv32, b: bv8)
    ensures Reversed(Looked(x, CrcSlicing.Wide(b))) ==
      CrcSlicing.Low(Xor(Reversed(x), CrcSlicing.Wide(ReversedOctet(b))))
  {
  }

  lemma {:induction false} ByteReversed(c: Byte)
    ensures Word(ReversedByte(c)) == CrcSlicing.Wide(ReversedOctet(CrcSlicing.Octet(c)))
  {
    hide ReversedOctet, Word, CrcSlicing.Wide, CrcSlicing.Octet, CrcSlicing.Number;
    CrcSlicing.NumberAgain(ReversedOctet(CrcSlicing.Octet(c)));
    CrcSlicing.Narrow(ReversedByte(c));
  }

  lemma {:induction false} FeedIs(y: bv32, r: Byte)
    ensures FeedByte(y, r) == Zeros(Xor(y, Word(r)), 8)
  {
    hide Word, Zeros, Xor;
  }

  /** One byte through either register. */
  lemma {:induction false} ReversedByteStep(x: bv32, c: Byte)
    ensures Reversed(CrcStep(x, CrcSlicing.Wide(CrcSlicing.Octet(c)))) == FeedByte(Reversed(x), ReversedByte(c))
  {
    hide *;
    var b, r := CrcSlicing.Octet(c), ReversedByte(c);
    var w := CrcSlicing.Wide(b);
    var z := Xor(Reversed(x), Word(r));
    ByteReversed(c);
    StepIs(x, w);
    ReversedXor(Up8(x), EightBits(Looked(x, w)));
    ReversedUp8(x, b);
    ReversedLooked(x, b);
    ReversedEight(Looked(x, w));
    CrcSlicing.TableStep(z);
    CrcSlicing.WordOfLow(z);
    XorCommutes(Zeros(Word(CrcSlicing.LowByte(z)), 8), CrcSlicing.Down8(z));
    FeedIs(Reversed(x), r);
  }

  lemma {:induction false} ByteIs(crc: nat, c: Byte)
    requires crc < Bits.WORD
    ensures AsWord(CrcByte(crc, c)) == CrcStep(AsWord(crc), CrcSlicing.Wide(CrcSlicing.Octet(c)))
  {
    CrcSlicing.Narrow(c);
    WordAgain(CrcStep(AsWord(crc), Word(c)));
    hide CrcStep, Crc.Number;
  }

  lemma {:induction false} ReversedFrom(crc: nat, s: seq<Byte>)
    requires crc < Bits.WORD
    ensures Reversed(AsWord(CrcFrom(crc, s))) == Feed(Reversed(AsWord(crc)), ReversedBytes(s))
  {
    hide Reversed, AsWord, CrcByte, FeedByte, ReversedByte, CrcStep;
    if s != [] {
      var n := |s| - 1;
      var r := ReversedBytes(s);
      assert r[..n] == ReversedBytes(s[..n]) && r[n] == ReversedByte(s[n]);
      ReversedFrom(crc, s[..n]);
      var x := CrcFrom(crc, s[..n]);
      ByteIs(x, s[n]);
      ReversedByteStep(AsWord(x), s[n]);
    }
  }

  lemma {:induction false} FinalisedIs(crc: nat)
    requires crc < Bits.WORD
    ensures AsWord(Finalised(crc)) == Xor(AsWord(crc), ONES)
  {
    hide *;
    FinalisedNumber(crc);
    WordAgain(Xor(AsWord(crc), ONES));
  }

  lemma {:induction false} FinalisedNumber(crc: nat)
    requires crc < Bits.WORD
    ensures Finalised(crc) == Crc.Number(Xor(AsWord(crc), ONES))
  {
    hide Crc.Number;
  }

  lemma {:induction false} ReversedOnes()
    ensures Reversed(ONES) == ONES && AsWord(CRC_START) == ONES
  {
  }

  /** A block's checksum is zlib's CRC-32, of the bytes with their bits the other way round, turned round itself. */
  lemma {:induction false} BlockCrcIs(s: seq<Byte>)
    ensures Reversed(AsWord(BlockCrc(s))) == Crc32(ReversedBytes(s))
  {
    hide Reversed, AsWord, CrcFrom, Finalised, Feed, Xor, ReversedBytes;
    var f := CrcFrom(CRC_START, s);
    FinalisedIs(f);
    ReversedXor(AsWord(f), ONES);
    ReversedOnes();
    ReversedFrom(CRC_START, s);
    CrcIs(ReversedBytes(s));
  }

  // ---- the combined checksum

  /** The place from which turning a word left by t bits brings the bit at place j. */
  function From(j: bv32, t: nat): (i: bv32)
    requires j < 32
    ensures i < 32
  {
    if t == 0 then j else if From(j, t - 1) == 0 then 31 else From(j, t - 1) - 1
  }

  /** Of the first k words, each turned once for each of the n words behind it: whether an odd number has bit j. */
  ghost predicate OddlyMany(crcs: seq<nat>, j: bv32, n: nat, k: nat)
    requires j < 32 && k <= |crcs| && k <= n && forall i | 0 <= i < |crcs| :: crcs[i] < Bits.WORD
  {
    k > 0 && (OddlyMany(crcs, j, n, k - 1) != BitAt(AsWord(crcs[k - 1]), From(j, n - k)))
  }

  /** A word turned left by one bit. */
  function Turned(x: bv32): bv32 { (x << 1) | (x >> 31) }

  lemma {:induction false} TurnedBit(x: bv32, j: bv32)
    requires j < 32
    ensures BitAt(Turned(x), j) <==> BitAt(x, From(j, 1))
  {
    assert From(j, 0) == j;
  }

  lemma {:induction false} XorBit(x: bv32, y: bv32, j: bv32)
    requires j < 32
    ensures BitAt(Xor(x, y), j) <==> BitAt(x, j) != BitAt(y, j)
  {
    hide *;
    BitOfXor(x, y, j);
    ZeroOrOne(x, j);
    ZeroOrOne(y, j);
    BitIs(x, j);
    BitIs(y, j);
    BitIs(Xor(x, y), j);
    XorOfBits(Bit(x, j), Bit(y, j));
  }

  lemma {:induction false} BitIs(x: bv32, j: bv32)
    requires j < 32
    ensures BitAt(x, j) <==> Bit(x, j) == 1
  {
    hide Bit;
  }

  lemma {:induction false} BitOfXor(x: bv32, y: bv32, j: bv32)
    requires j < 32
    ensures Bit(Xor(x, y), j) == Xor(Bit(x, j), Bit(y, j))
  {
  }

  lemma {:induction false} ZeroOrOne(x: bv32, j: bv32)
    requires j < 32
    ensures Bit(x, j) == 0 || Bit(x, j) == 1
  {
  }

  lemma {:induction false} XorOfBits(u: bv32, v: bv32)
    requires (u == 0 || u == 1) && (v == 0 || v == 1)
    ensures Xor(u, v) == 1 <==> u != v
  {
  }

  lemma {:induction false} CombineIs(a: nat, c: nat)
    requires a < Bits.WORD && c < Bits.WORD
    ensures AsWord(Combine(a, c)) == Xor(Turned(AsWord(a)), AsWord(c))
  {
    hide *;
    CombineNumber(a, c);
    WordAgain(Xor(Turned(AsWord(a)), AsWord(c)));
  }

  lemma {:induction false} CombineNumber(a: nat, c: nat)
    requires a < Bits.WORD && c < Bits.WORD
    ensures Combine(a, c) == Crc.Number(Xor(Turned(AsWord(a)), AsWord(c)))
  {
    hide Crc.Number;
  }

  lemma {:induction false} FromSum(j: bv32, t: nat)
    requires j < 32
    ensures From(From(j, 1), t) == From(j, t + 1)
  {
    if t > 0 { FromSum(j, t - 1); }
  }

  /** One more word behind: all the others are turned by one bit. */
  lemma {:induction false} OneBehind(crcs: seq<nat>, more: seq<nat>, j: bv32, n: nat, k: nat)
    requires j < 32 && k <= |crcs| <= n && crcs <= more && forall i | 0 <= i < |more| :: more[i] < Bits.WORD
    ensures OddlyMany(more, j, n + 1, k) <==> OddlyMany(crcs, From(j, 1), n, k)
  {
    hide BitAt, From, AsWord;
    if k > 0 {
      OneBehind(crcs, more, j, n, k - 1);
      FromSum(j, n - k);
    }
  }

  /**
   * Bit j of the combined checksum is set if an odd number of the blocks' checksums, each turned left once for each
   * block behind it, have it set.
   */
  lemma {:induction false} CombinedIs(crcs: seq<nat>, j: bv32)
    requires j < 32 && forall i | 0 <= i < |crcs| :: crcs[i] < Bits.WORD
    ensures BitAt(AsWord(Combined(crcs)), j) <==> OddlyMany(crcs, j, |crcs|, |crcs|)
  {
    hide BitAt, AsWord, Combine, Turned, Xor;
    if crcs == [] {
      NoBit(j);
    } else {
      var n := |crcs| - 1;
      var a := Combined(crcs[..n]);
      CombineIs(a, crcs[n]);
      TurnedBit(AsWord(a), j);
      XorBit(Turned(AsWord(a)), AsWord(crcs[n]), j);
      CombinedIs(crcs[..n], From(j, 1));
      OneBehind(crcs[..n], crcs, j, n, n);
      assert From(j, 0) == j;
    }
  }

  lemma {:induction false} NoBit(j: bv32)
    requires j < 32
    ensures !BitAt(AsWord(0), j)
  {
  }

  // ---- the order of the blocks

  lemma {:induction false} CombinedTwo(front: seq<nat>, a: nat, b: nat)
    requires a < Bits.WORD && b < Bits.WORD && forall i | 0 <= i < |front| :: front[i] < Bits.WORD
    ensures AsWord(Combined(front + [a, b])) ==
      Xor(Turned(Xor(Turned(AsWord(Combined(front))), AsWord(a))), AsWord(b))
  {
    hide AsWord, Combine, Turned, Xor;
    var s := front + [a, b];
    assert s[..|s| - 1] == front + [a] && (front + [a])[..|front|] == front;
    CombineIs(Combined(front), a);
    CombineIs(Combined(front + [a]), b);
  }

  lemma {:induction false} ExchangedWords(f: bv32, a: bv32, b: bv32)
    ensures Xor(Turned(Xor(f, a)), b) == Xor(Turned(Xor(f, b)), a) <==> Xor(a, Turned(a)) == Xor(b, Turned(b))
  {
    hide *;
    TurnedXor(f, a);
    TurnedXor(f, b);
    Rearranged(Turned(f), Turned(a), Turned(b), a, b);
  }

  lemma {:induction false} TurnedXor(x: bv32, y: bv32)
    ensures Turned(Xor(x, y)) == Xor(Turned(x), Turned(y))
  {
  }

  lemma {:induction false} Rearranged(p: bv32, q: bv32, r: bv32, a: bv32, b: bv32)
    ensures Xor(Xor(p, q), b) == Xor(Xor(p, r), a) <==> Xor(a, q) == Xor(b, r)
  {
    hide *;
    XorAssoc(p, q, b);
    XorAssoc(p, r, a);
    Cancelled(p, Xor(q, b), Xor(r, a));
    Across(q, r, a, b);
  }

  lemma {:induction false} Cancelled(p: bv32, x: bv32, y: bv32)
    ensures Xor(p, x) == Xor(p, y) <==> x == y
  {
  }

  lemma {:induction false} Across(q: bv32, r: bv32, a: bv32, b: bv32)
    ensures Xor(q, b) == Xor(r, a) <==> Xor(a, q) == Xor(b, r)
  {
    hide *;
    Cancelled(Xor(a, b), Xor(q, b), Xor(r, a));
    Twofold(a, b, q);
    Twofold(b, a, r);
    XorCommutes(a, b);
  }

  lemma {:induction false} Twofold(a: bv32, b: bv32, q: bv32)
    ensures Xor(Xor(a, b), Xor(q, b)) == Xor(a, q)
  {
    XorSwap(a, b, q, b);
    XorSelf(b);
    XorZero(Xor(a, q));
    hide Xor;
  }

  /** What follows keeps different checksums different. */
  lemma {:induction false} MoreKeeps(xs: seq<nat>, ys: seq<nat>, more: seq<nat>)
    requires forall i | 0 <= i < |xs| :: xs[i] < Bits.WORD
    requires forall i | 0 <= i < |ys| :: ys[i] < Bits.WORD
    requires forall i | 0 <= i < |more| :: more[i] < Bits.WORD
    ensures AsWord(Combined(xs + more)) == AsWord(Combined(ys + more)) <==>
      AsWord(Combined(xs)) == AsWord(Combined(ys))
  {
    hide AsWord, Combine, Turned, Xor;
    if more == [] {
      assert xs + more == xs && ys + more == ys;
    } else {
      var n := |more| - 1;
      var s, t := xs + more, ys + more;
      assert s[..|s| - 1] == xs + more[..n] && t[..|t| - 1] == ys + more[..n];
      MoreKeeps(xs, ys, more[..n]);
      var x, y := Combined(xs + more[..n]), Combined(ys + more[..n]);
      CombineIs(x, more[n]);
      CombineIs(y, more[n]);
      TurnedApart(AsWord(x), AsWord(y), AsWord(more[n]));
    }
  }

  lemma {:induction false} TurnedApart(x: bv32, y: bv32, c: bv32)
    ensures Xor(Turned(x), c) == Xor(Turned(y), c) <==> x == y
  {
  }

  /** Two neighbouring blocks can be exchanged unnoticed just if c and c turned by one bit differ in the same bits. */
  lemma {:induction false} ExchangeShows(front: seq<nat>, a: nat, b: nat, more: seq<nat>)
    requires a < Bits.WORD && b < Bits.WORD
    requires forall i | 0 <= i < |front| :: front[i] < Bits.WORD
    requires forall i | 0 <= i < |more| :: more[i] < Bits.WORD
    ensures AsWord(Combined(front + [a, b] + more)) == AsWord(Combined(front + [b, a] + more)) <==>
      Xor(AsWord(a), Turned(AsWord(a))) == Xor(AsWord(b), Turned(AsWord(b)))
  {
    hide AsWord, Combined, Turned, Xor;
    MoreKeeps(front + [a, b], front + [b, a], more);
    CombinedTwo(front, a, b);
    CombinedTwo(front, b, a);
    ExchangedWords(Turned(AsWord(Combined(front))), AsWord(a), AsWord(b));
  }

  /** The checksums 1 and 0 are combined to 2. */
  lemma {:induction false} OneAndZero()
    ensures Combined([1, 0]) == 2
  {
    assert [1, 0][..1] == [1] && [1][..0] == [];
  }
}
