/** The bit buffer of inflate_fast: hold has the next bits of the input, the first of them lowest. */
module InflateBits {
  import opened Bits
  import opened Rotations

  lemma {:induction false} QuotientNat(x: nat, m: nat)
    requires m > 0
    ensures x / m >= 0
  {
    var q, r := x / m, x % m;
    assert x == m * q + r && 0 <= r < m;
    if q <= -1 { MulGe(m, -q); }
  }

  /** The number without its k low bits. */
  function Quo(x: nat, k: nat): nat {
    QuotientNat(x, Pow2(k));
    x / Pow2(k)
  }

  /** The k low bits of the number. */
  function Rem(x: nat, k: nat): nat {
    x % Pow2(k)
  }

  lemma {:induction false} Parts(x: nat, k: nat)
    ensures x == Pow2(k) * Quo(x, k) + Rem(x, k) && Rem(x, k) < Pow2(k)
  {
  }

  lemma {:induction false} PartsUnique(x: nat, k: nat, q: nat, r: nat)
    requires x == Pow2(k) * q + r && r < Pow2(k)
    ensures Quo(x, k) == q && Rem(x, k) == r
  {
    hide Pow2;
    DivModUnique(x, Pow2(k), q, r);
  }

  lemma {:induction false} NoBits(x: nat)
    ensures Quo(x, 0) == x && Rem(x, 0) == 0
  {
    assert Pow2(0) == 1;
  }

  /** The low a + b bits: a of them, and b above. */
  lemma {:induction false} LowBits(x: nat, a: nat, b: nat)
    ensures Quo(Quo(x, a), b) == Quo(x, a + b)
    ensures Rem(x, a + b) == Rem(x, a) + Pow2(a) * Rem(Quo(x, a), b)
  {
    hide Quo, Rem, Pow2;
    Parts(x, a);
    var y := Quo(x, a);
    Parts(y, b);
    Pow2Sum(a, b);
    Joins(x, Pow2(a), Pow2(b), y, Rem(x, a), Quo(y, b), Rem(y, b));
    PartsUnique(x, a + b, Quo(y, b), Rem(x, a) + Pow2(a) * Rem(y, b));
  }

  lemma {:induction false} Joins(x: nat, p: nat, q: nat, y: nat, r: nat, z: nat, t: nat)
    requires x == p * y + r && r < p && y == q * z + t && t < q
    ensures x == (p * q) * z + (r + p * t) && r + p * t < p * q
  {
    assert p * (q * z + t) == (p * q) * z + p * t;
    assert p * t + p <= p * q by { assert p * (t + 1) == p * t + p; ProductMono(p, t + 1, q); }
  }

  lemma {:induction false} ProductMono(p: nat, a: nat, b: nat)
    requires a <= b
    ensures p * a <= p * b
  {
  }

  /** Masking and shifting what has been masked already. */
  lemma {:induction false} OfLowBits(x: nat, b: nat, k: nat)
    requires k <= b
    ensures Rem(Rem(x, b), k) == Rem(x, k) && Quo(Rem(x, b), k) == Rem(Quo(x, k), b - k)
  {
    hide Quo, Rem, Pow2;
    LowBits(x, k, b - k);
    Parts(x, k);
    PartsUnique(Rem(x, b), k, Rem(Quo(x, k), b - k), Rem(x, k));
  }

  // ---- the input as a number

  /** The bytes, the first of them lowest. */
  function Number(s: seq<Byte>): nat {
    if s == [] then 0 else s[0] + 256 * Number(s[1..])
  }

  /** The bits left over from before, and the input above them. */
  function Whole(hold: nat, bits: nat, s: seq<Byte>): nat {
    hold + Pow2(bits) * Number(s)
  }

  lemma {:induction false} NumberFrom(s: seq<Byte>, k: nat)
    requires k <= |s|
    ensures Quo(Number(s), 8 * k) == Number(s[k..])
  {
    hide Quo, Pow2;
    if k == 0 {
      NoBits(Number(s));
      assert s[0..] == s;
    } else {
      var n := Number(s[1..]);
      NumberFrom(s[1..], k - 1);
      assert s[1..][k - 1..] == s[k..];
      Pow2Values();
      PartsUnique(Number(s), 8, n, s[0]);
      LowBits(Number(s), 8, 8 * (k - 1));
    }
  }

  /** Behind the bits left over and k bytes of the input stand the other bytes. */
  lemma {:induction false} WholeFrom(hold: nat, bits: nat, s: seq<Byte>, k: nat)
    requires hold < Pow2(bits) && k <= |s|
    ensures Quo(Whole(hold, bits, s), bits + 8 * k) == Number(s[k..])
  {
    hide Quo, Pow2;
    PartsUnique(Whole(hold, bits, s), bits, Number(s), hold);
    LowBits(Whole(hold, bits, s), bits, 8 * k);
    NumberFrom(s, k);
  }

  /** The bit buffer after c bits of all the bits r have been used, and nin bytes of the input been taken in. */
  ghost predicate Holds(hold0: nat, bits0: nat, s: seq<Byte>, c: nat, hold: nat, bits: nat, nin: nat) {
    hold0 < Pow2(bits0) && nin <= |s| && c + bits == bits0 + 8 * nin &&
      hold == Rem(Quo(Whole(hold0, bits0, s), c), bits)
  }

  /** What has not been used yet. */
  ghost function Left(hold0: nat, bits0: nat, s: seq<Byte>, c: nat): nat {
    Quo(Whole(hold0, bits0, s), c)
  }

  /** The next byte of input goes above the bits held, which are then eight more. */
  lemma {:induction false} TakenIn(hold0: nat, bits0: nat, s: seq<Byte>, c: nat, hold: nat, bits: nat, nin: nat)
    requires Holds(hold0, bits0, s, c, hold, bits, nin) && nin < |s|
    ensures Holds(hold0, bits0, s, c, hold + s[nin] * Pow2(bits), bits + 8, nin + 1)
  {
    hide Quo, Rem, Pow2, Whole;
    var x := Left(hold0, bits0, s, c);
    LowBits(x, bits, 8);
    LowBits(Whole(hold0, bits0, s), c, bits);
    WholeFrom(hold0, bits0, s, nin);
    FirstByte(s[nin..]);
    Commutes(Pow2(bits), s[nin]);
  }

  lemma {:induction false} Commutes(x: nat, y: nat)
    ensures x * y == y * x
  {
  }

  lemma {:induction false} FirstByte(s: seq<Byte>)
    requires s != []
    ensures Rem(Number(s), 8) == s[0]
  {
    Pow2Values();
    hide Pow2;
  }

  /** The low bits of the buffer are the next bits of the input; shifted out, they are used. */
  lemma {:induction false} Used(hold0: nat, bits0: nat, s: seq<Byte>, c: nat, hold: nat, bits: nat, nin: nat, op: nat)
    requires Holds(hold0, bits0, s, c, hold, bits, nin) && op <= bits
    ensures Holds(hold0, bits0, s, c + op, Quo(hold, op), bits - op, nin)
    ensures Left(hold0, bits0, s, c + op) == Quo(Left(hold0, bits0, s, c), op)
    ensures Rem(hold, op) == Rem(Left(hold0, bits0, s, c), op)
  {
    hide Quo, Rem, Pow2, Whole;
    OfLowBits(Left(hold0, bits0, s, c), bits, op);
    LowBits(Whole(hold0, bits0, s), c, op);
  }

  /** Whole bytes left in the buffer go back to the input: the bits still to come are the same. */
  lemma {:induction false} PutBack(hold0: nat, bits0: nat, s: seq<Byte>, c: nat, hold: nat, bits: nat, nin: nat)
    requires Holds(hold0, bits0, s, c, hold, bits, nin) && bits0 < 8
    ensures bits / 8 <= nin
    ensures var l := bits / 8; Holds(hold0, bits0, s, c, Rem(hold, bits - 8 * l), bits - 8 * l, nin - l)
    ensures var l := bits / 8; Left(hold0, bits0, s, c) == Whole(Rem(hold, bits - 8 * l), bits - 8 * l, s[nin - l..])
  {
    hide Quo, Rem, Pow2, Number;
    var l := bits / 8;
    var b := bits - 8 * l;
    var x := Left(hold0, bits0, s, c);
    OfLowBits(x, bits, b);
    Parts(x, b);
    LowBits(Whole(hold0, bits0, s), c, b);
    WholeFrom(hold0, bits0, s, nin - l);
  }
}
