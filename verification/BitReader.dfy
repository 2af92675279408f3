/**
 * The decompressor's bit buffer: bytes come in at the low end, numbers are taken from the high end of the live bits.
 */
module BitReader {
  import opened Bits
  import opened Rotations
  import opened BitStrings
  import opened BitWriter

  /** The bits of a sequence of bytes. */
  function InputBits(s: seq<Byte>): (r: seq<bool>)
    ensures |r| == 8 * |s|
  {
    if s == [] then [] else BitsOf(s[0], 8) + InputBits(s[1..])
  }

  lemma {:induction false} InputBitsAppend(s: seq<Byte>, t: seq<Byte>)
    ensures InputBits(s + t) == InputBits(s) + InputBits(t)
  {
    if s == [] {
      assert s + t == t;
    } else {
      assert (s + t)[1..] == s[1..] + t;
      InputBitsAppend(s[1..], t);
    }
  }

  /** The compressor's bytes are the decompressor's bits. */
  lemma {:induction false} SameBits(s: seq<Byte>, z: seq<int>)
    requires |s| == |z| && forall i | 0 <= i < |s| :: s[i] as int == z[i]
    ensures InputBits(s) == BytesBits(z)
  {
    if s != [] {
      var n := |s| - 1;
      SameBits(s[..n], z[..n]);
      assert s == s[..n] + [s[n]];
      InputBitsAppend(s[..n], [s[n]]);
      assert InputBits([s[n]]) == BitsOf(s[n], 8) + InputBits([]);
    }
  }

  // ---- the buffer

  /** The buffer moved up by a byte, within its 32 bits, with c behind it. */
  function ShiftedIn(buff: nat, c: Byte): nat { Or((buff * 256) % WORD, c) }

  /** The number without its k low bits. */
  function Shr(x: nat, k: nat): nat {
    Quotient(x, Pow2(k))
  }

  function Quotient(x: nat, p: nat): nat
    requires p > 0
  {
    x / p
  }

  /** The top n of the live low bits of buff: (buff >> (live - n)) & ((1 << n) - 1). */
  function TakenBits(buff: nat, live: int, n: int): nat
    requires 0 <= n <= live
  {
    And(Shr(buff, live - n), Pow2(n) - 1)
  }

  /** The live low bits of the buffer. */
  ghost function Live(buff: nat, live: nat): (r: seq<bool>)
    ensures |r| == live
  {
    BitsOf(Remainder(buff, Pow2(live)), live)
  }

  function Remainder(x: nat, p: nat): (r: nat)
    requires p > 0
    ensures r < p
  {
    x % p
  }

  lemma {:induction false} ModSplit(x: nat, a: nat, b: nat)
    requires a > 0 && b > 0
    ensures a * b > 0 && x % (a * b) == ((x / b) % a) * b + x % b
  {
    var q, r := x / b, x % b;
    var u, v := q / a, q % a;
    MulLe(1, a, b);
    assert x == b * q + r && q == a * u + v;
    assert b * (a * u + v) == (a * b) * u + v * b;
    BelowProduct(v, r, a, b);
    DivModUnique(x, a * b, u, v * b + r);
  }

  lemma {:induction false} TakeLive(buff: nat, live: nat, n: nat)
    requires n <= live
    ensures TakenBits(buff, live, n) < Pow2(n) &&
      Live(buff, live) == BitsOf(TakenBits(buff, live, n), n) + Live(buff, live - n)
  {
    hide *;
    var k := live - n;
    TakenIs(buff, live, n);
    LiveIs(buff, live);
    LiveIs(buff, k);
    Joined(buff, n, k);
    assert live == n + k;
    BitsSplit(TakenBits(buff, live, n), Remainder(buff, Pow2(k)), n, k);
  }

  lemma {:induction false} TakenIs(buff: nat, live: nat, n: nat)
    requires n <= live
    ensures TakenBits(buff, live, n) == Remainder(Quotient(buff, Pow2(live - n)), Pow2(n)) < Pow2(n)
  {
    hide Pow2, And;
    AndLowMask(Shr(buff, live - n), n);
  }

  lemma {:induction false} LiveIs(buff: nat, k: nat)
    ensures Live(buff, k) == BitsOf(Remainder(buff, Pow2(k)), k) && Remainder(buff, Pow2(k)) < Pow2(k)
  {
    hide Pow2, BitsOf;
  }

  lemma {:induction false} Joined(x: nat, n: nat, k: nat)
    ensures Remainder(x, Pow2(n + k)) == Remainder(Quotient(x, Pow2(k)), Pow2(n)) * Pow2(k) + Remainder(x, Pow2(k))
  {
    hide Pow2;
    Pow2Sum(n, k);
    ModSplit(x, Pow2(n), Pow2(k));
  }

  /** On 32 bits nothing live is lost. */
  lemma {:induction false} ShiftInLive(buff: nat, live: nat, c: Byte)
    requires live + 8 <= 32
    ensures Live(ShiftedIn(buff, c), live + 8) == Live(buff, live) + BitsOf(c, 8)
  {
    hide Pow2, BitsOf, Or;
    var p, q := Pow2(live), Pow2(24 - live);
    assert q * p * 256 == WORD && Pow2(live + 8) == p * 256 && Pow2(8) == 256 by {
      Pow2Values();
      Pow2Sum(24 - live, live);
      Pow2Sum(live, 8);
    }
    ModTimes(buff, q * p);
    OrIsSum(c as int, (buff * 256) % WORD, 8);
    ShiftInNumbers(buff, p, q, c as int);
    BitsSplit(Remainder(buff, p), c as int, live, 8);
  }

  lemma {:induction false} ModTimes(x: nat, m: nat)
    requires m > 0
    ensures (x * 256) % (m * 256) == (x % m) * 256 && (x * 256) % (m * 256) % 256 == 0
  {
    var q, r := x / m, x % m;
    assert x == m * q + r;
    assert x * 256 == (m * 256) * q + r * 256;
    DivModUnique(x * 256, m * 256, q, r * 256);
    ModOfMultiple(256, r);
  }

  lemma {:induction false} ShiftInNumbers(buff: nat, p: nat, q: nat, c: nat)
    requires p > 0 && q > 0 && c < 256 && (q * p) * 256 == WORD
    ensures ((buff * 256) % WORD + c) % (p * 256) == (buff % p) * 256 + c
  {
    ModTimes(buff, q * p);
    var x := buff % (q * p);
    ModSplit(buff, q, p);
    var k := (buff / p) % q;
    assert x * 256 + c == (p * 256) * k + ((buff % p) * 256 + c);
    DivModUnique(x * 256 + c, p * 256, k, (buff % p) * 256 + c);
  }

  class Reader {
    var bsBuff: nat
    var bsLive: int
    var input: seq<Byte>
    var next: nat

    ghost predicate Valid()
      reads this
    {
      0 <= bsLive <= 32 && next <= |input|
    }

    /** Everything not yet read. */
    ghost function Bits(): (r: seq<bool>)
      reads this
      requires Valid()
    {
      Live(bsBuff, bsLive) + InputBits(input[next..])
    }

    constructor (input: seq<Byte>)
      ensures Valid() && Bits() == InputBits(input)
    {
      bsBuff, bsLive := 0, 0;
      this.input, next := input, 0;
      new;
      assert input[0..] == input;
    }

    /** The caller provides more input. */
    method Supply(more: seq<Byte>)
      requires Valid()
      modifies this`input, this`next
      ensures Valid() && Bits() == old(Bits()) + InputBits(more)
    {
      InputBitsAppend(input[next..], more);
      input, next := input[next..] + more, 0;
      assert input[0..] == input;
    }

    method TakeByte()
      requires Valid() && bsLive <= 24 && next < |input|
      modifies this`bsBuff, this`bsLive, this`next
      ensures Valid() && bsLive == old(bsLive) + 8 && next == old(next) + 1 && Bits() == old(Bits())
    {
      hide Live, ShiftedIn;
      ShiftInLive(bsBuff, bsLive, input[next]);
      assert input[next..][1..] == input[next + 1..];
      bsBuff := ShiftedIn(bsBuff, input[next]);
      bsLive := bsLive + 8;
      next := next + 1;
    }

    /** The next n bits as a number, unless the input runs out. */
    method GetBits(n: int) returns (ok: bool, v: nat)
      requires Valid() && 1 <= n <= 25
      modifies this`bsBuff, this`bsLive, this`next
      ensures Valid()
      ensures ok ==> ReadBits(old(Bits()), n) == Done(v, Bits())
      ensures !ok ==> ReadBits(old(Bits()), n) == NeedMore && Bits() == old(Bits()) && next == |input|
    {
      hide Live, TakenBits;
      while bsLive < n
        invariant Valid() && Bits() == old(Bits())
        decreases |input| - next
      {
        if next == |input| {
          return false, 0;
        }
        TakeByte();
      }
      ghost var bits := Bits();
      v := TakenBits(bsBuff, bsLive, n);
      TakeLive(bsBuff, bsLive, n);
      bsLive := bsLive - n;
      ok := true;
      assert bits == BitsOf(v, n) + Bits();
      ReadBack(v, n, Bits());
    }
  }
}
