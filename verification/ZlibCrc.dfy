/** zlib's CRC-32: the bit-by-bit register of section 8 of RFC 1952, and that feeding it zero bits is linear. */
module ZlibCrc {
  import opened Rotations

  const CRC_POLY: bv32 := 0xedb8_8320

  function Xor(a: bv32, b: bv32): bv32 { a ^ b }

  function Odd(c: bv32): bool { c & 1 != 0 }

  function Half(c: bv32): bv32 { c >> 1 }

  /** One zero bit through the register. */
  function ZeroBit(c: bv32): bv32 {
    if Odd(c) then Xor(CRC_POLY, Half(c)) else Half(c)
  }

  /** n zero bits. */
  function Zeros(c: bv32, n: nat): bv32 {
    if n == 0 then c else ZeroBit(Zeros(c, n - 1))
  }

  function Word(b: Byte): bv32 { b as bv32 }

  /** One byte of the message, its bits least significant first. */
  function FeedByte(c: bv32, b: Byte): bv32 {
    Zeros(Xor(c, Word(b)), 8)
  }

  /** A whole message. */
  function Feed(c: bv32, s: seq<Byte>): bv32 {
    if s == [] then c else FeedByte(Feed(c, s[..|s| - 1]), s[|s| - 1])
  }

  const ONES: bv32 := 0xffff_ffff

  /** The checksum of a message. */
  function Crc32(s: seq<Byte>): bv32 {
    Xor(Feed(ONES, s), ONES)
  }

  // ---- Exclusive or ----

  lemma {:induction false} XorAssoc(a: bv32, b: bv32, c: bv32)
    ensures Xor(Xor(a, b), c) == Xor(a, Xor(b, c))
  {
  }

  lemma {:induction false} XorCommutes(a: bv32, b: bv32)
    ensures Xor(a, b) == Xor(b, a)
  {
  }

  lemma {:induction false} XorZero(a: bv32)
    ensures Xor(a, 0) == a && Xor(0, a) == a
  {
  }

  lemma {:induction false} XorSelf(a: bv32)
    ensures Xor(a, a) == 0
  {
  }

  lemma {:induction false} XorSwap(a: bv32, b: bv32, c: bv32, d: bv32)
    ensures Xor(Xor(a, b), Xor(c, d)) == Xor(Xor(a, c), Xor(b, d))
  {
    hide Xor;
    XorAssoc(a, b, Xor(c, d));
    XorAssoc(b, c, d);
    XorAssoc(c, b, d);
    XorCommutes(b, c);
    XorAssoc(a, c, Xor(b, d));
  }

  lemma {:induction false} HalfXor(a: bv32, b: bv32)
    ensures Half(Xor(a, b)) == Xor(Half(a), Half(b))
    ensures Odd(Xor(a, b)) <==> Odd(a) != Odd(b)
  {
    LowBit(a);
    LowBit(b);
    LowBit(a ^ b);
    assert (a ^ b) & 1 == (a & 1) ^ (b & 1);
  }

  lemma {:induction false} LowBit(a: bv32)
    ensures a & 1 == 0 || a & 1 == 1
  {
  }

  // ---- Feeding zero bits is linear ----

  lemma {:induction false} ZeroBitLinear(a: bv32, b: bv32)
    ensures ZeroBit(Xor(a, b)) == Xor(ZeroBit(a), ZeroBit(b))
  {
    hide Xor, Odd, Half;
    var p, x, y := CRC_POLY, Half(a), Half(b);
    HalfXor(a, b);
    XorAssoc(p, x, y);
    if Odd(a) && Odd(b) {
      XorSwap(p, x, p, y);
      XorSelf(p);
      XorZero(Xor(x, y));
    } else if Odd(b) {
      XorAssoc(x, p, y);
      XorCommutes(x, p);
    }
  }

  lemma {:induction false} ZerosLinear(a: bv32, b: bv32, n: nat)
    ensures Zeros(Xor(a, b), n) == Xor(Zeros(a, n), Zeros(b, n))
  {
    hide ZeroBit, Xor;
    if n > 0 {
      ZerosLinear(a, b, n - 1);
      ZeroBitLinear(Zeros(a, n - 1), Zeros(b, n - 1));
    }
  }

  lemma {:induction false} ZerosOfZero(n: nat)
    ensures Zeros(0, n) == 0
  {
    if n > 0 { ZerosOfZero(n - 1); }
  }

  lemma {:induction false} ZerosNone(c: bv32)
    ensures Zeros(c, 0) == c
  {
  }

  lemma {:induction false} ZerosSum(c: bv32, m: nat, n: nat)
    ensures Zeros(c, m + n) == Zeros(Zeros(c, m), n)
  {
    hide ZeroBit;
    if n > 0 { ZerosSum(c, m, n - 1); }
  }

  lemma {:induction false} FeedNothing(c: bv32)
    ensures Feed(c, []) == c
  {
  }

  lemma {:induction false} FeedLast(c: bv32, t: seq<Byte>, b: Byte)
    ensures Feed(c, t + [b]) == Zeros(Xor(Feed(c, t), Word(b)), 8)
  {
    hide Zeros, Xor, Word;
    assert (t + [b])[..|t + [b]| - 1] == t;
  }

  /** What the register holds before a message only adds itself, as many zero bits on. */
  lemma {:induction false} FeedSplits(c: bv32, s: seq<Byte>)
    ensures Feed(c, s) == Xor(Zeros(c, 8 * |s|), Feed(0, s))
  {
    hide *;
    if s == [] {
      XorZero(c);
      FeedNothing(c);
      FeedNothing(0);
      ZerosNone(c);
    } else {
      var t, b := s[..|s| - 1], s[|s| - 1];
      assert s == t + [b];
      var z, f := Zeros(c, 8 * |t|), Feed(0, t);
      FeedSplits(c, t);
      FeedLast(c, t, b);
      FeedLast(0, t, b);
      XorAssoc(z, f, Word(b));
      ZerosLinear(z, Xor(f, Word(b)), 8);
      ZerosSum(c, 8 * |t|, 8);
      assert 8 * |s| == 8 * |t| + 8;
    }
  }

  lemma {:induction false} FeedConcat(c: bv32, s: seq<Byte>, t: seq<Byte>)
    ensures Feed(c, s + t) == Feed(Feed(c, s), t)
  {
    hide FeedByte;
    if t == [] {
      assert s + t == s;
    } else {
      assert (s + t)[..|s + t| - 1] == s + t[..|t| - 1];
      FeedConcat(c, s, t[..|t| - 1]);
    }
  }

  lemma {:induction false} CrcIs(s: seq<Byte>)
    ensures Crc32(s) == Xor(Feed(ONES, s), ONES)
  {
  }

  /**
   * The checksum of a concatenation from those of its parts: the first one, the second's length in zero bytes on, plus
   * the second.
   */
  lemma {:induction false} CrcOfConcat(s: seq<Byte>, t: seq<Byte>)
    ensures Crc32(s + t) == Xor(Zeros(Crc32(s), 8 * |t|), Crc32(t))
  {
    hide *;
    var a, n := Feed(ONES, s), 8 * |t|;
    CrcIs(s);
    CrcIs(t);
    CrcIs(s + t);
    FeedConcat(ONES, s, t);
    FeedSplits(a, t);
    FeedSplits(ONES, t);
    ZerosLinear(a, ONES, n);
    Conditioning(Zeros(a, n), Zeros(ONES, n), Feed(0, t));
  }

  lemma {:induction false} Conditioning(za: bv32, z1: bv32, f: bv32)
    ensures Xor(Xor(za, f), ONES) == Xor(Xor(za, z1), Xor(Xor(z1, f), ONES))
  {
    hide *;
    XorAssoc(Xor(za, z1), Xor(z1, f), ONES);
    XorAssoc(za, z1, Xor(z1, f));
    XorAssoc(z1, z1, f);
    XorSelf(z1);
    XorZero(f);
  }
}
