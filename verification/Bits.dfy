/** Machine words as natural numbers, with the bitwise operators spelled out bit by bit. */
module Bits {

  function Pow2(k: nat): (r: nat)
    ensures r > 0
  {
    if k == 0 then 1 else 2 * Pow2(k - 1)
  }

  const WORD := 0x1_0000_0000

  /** Bit k of x, the least significant bit being bit 0. */
  predicate Bit(x: nat, k: nat) {
    if k == 0 then x % 2 == 1 else Bit(x / 2, k - 1)
  }

  /** x | y */
  function Or(x: nat, y: nat): nat
    decreases x + y
  {
    if x == 0 then y
    else if y == 0 then x
    else (if x % 2 == 1 || y % 2 == 1 then 1 else 0) + 2 * Or(x / 2, y / 2)
  }

  /** x & y */
  function And(x: nat, y: nat): nat
    decreases x + y
  {
    if x == 0 || y == 0 then 0
    else (if x % 2 == 1 && y % 2 == 1 then 1 else 0) + 2 * And(x / 2, y / 2)
  }

  /** ~x on 32 bits */
  function Not32(x: nat): nat
    requires x < WORD
  {
    WORD - 1 - x
  }

  lemma {:induction false} Pow2Sum(a: nat, b: nat)
    ensures Pow2(a + b) == Pow2(a) * Pow2(b)
    decreases b
  {
    if b > 0 {
      Pow2Sum(a, b - 1);
      TwiceProduct(Pow2(a), Pow2(b - 1));
    }
  }

  lemma {:induction false} TwiceProduct(x: int, p: int)
    ensures 2 * (x * p) == x * (2 * p)
  {
  }

  lemma {:induction false} Pow2Mono(a: nat, b: nat)
    requires a <= b
    ensures Pow2(a) <= Pow2(b)
    decreases b
  {
    if a < b { Pow2Mono(a, b - 1); }
  }

  lemma {:induction false} Pow2Values()
    ensures Pow2(4) == 16 && Pow2(8) == 256 && Pow2(16) == 65536 && Pow2(24) == 0x100_0000 && Pow2(32) == WORD
  {
    assert Pow2(4) == 16;
    Pow2Sum(4, 4);
    Pow2Sum(8, 8);
    Pow2Sum(16, 8);
    Pow2Sum(16, 16);
  }

  lemma {:induction false} BitZero(k: nat)
    ensures !Bit(0, k)
  {
    if k > 0 { BitZero(k - 1); }
  }

  lemma {:induction false} BitOr(x: nat, y: nat, k: nat)
    ensures Bit(Or(x, y), k) <==> Bit(x, k) || Bit(y, k)
  {
    BitZero(k);
    if x != 0 && y != 0 {
      assert Or(x, y) / 2 == Or(x / 2, y / 2);
      if k > 0 { BitOr(x / 2, y / 2, k - 1); }
    }
  }

  lemma {:induction false} BitAnd(x: nat, y: nat, k: nat)
    ensures Bit(And(x, y), k) <==> Bit(x, k) && Bit(y, k)
  {
    BitZero(k);
    if x != 0 && y != 0 {
      assert And(x, y) / 2 == And(x / 2, y / 2);
      if k > 0 { BitAnd(x / 2, y / 2, k - 1); }
    }
  }

  lemma {:induction false} BitPow2(j: nat, k: nat)
    ensures Bit(Pow2(j), k) <==> j == k
  {
    if j == 0 {
      if k > 0 { BitZero(k - 1); }
    } else if k > 0 {
      assert Pow2(j) / 2 == Pow2(j - 1);
      BitPow2(j - 1, k - 1);
    }
  }

  lemma {:induction false} BitComplement(x: nat, n: nat, k: nat)
    requires x < Pow2(n) && k < n
    ensures Bit(Pow2(n) - 1 - x, k) <==> !Bit(x, k)
  {
    if k > 0 {
      assert (Pow2(n) - 1 - x) / 2 == Pow2(n - 1) - 1 - x / 2;
      BitComplement(x / 2, n - 1, k - 1);
    }
  }

  /** A non-zero word has a set bit, so a word is zero just when all its bits are clear. */
  lemma {:induction false} SomeBit(x: nat) returns (k: nat)
    requires x > 0
    ensures Bit(x, k)
  {
    if x % 2 == 1 {
      k := 0;
    } else {
      k := SomeBit(x / 2);
      k := k + 1;
    }
  }

  lemma {:induction false} HighBitsClear(x: nat, n: nat, k: nat)
    requires x < Pow2(n) && k >= n
    ensures !Bit(x, k)
  {
    if n == 0 {
      BitZero(k);
    } else {
      HighBitsClear(x / 2, n - 1, k - 1);
    }
  }

  lemma {:induction false} OrBound(x: nat, y: nat, n: nat)
    requires x < Pow2(n) && y < Pow2(n)
    ensures Or(x, y) < Pow2(n)
  {
    if x != 0 && y != 0 {
      OrBound(x / 2, y / 2, n - 1);
    }
  }

  lemma {:induction false} AndBound(x: nat, y: nat)
    ensures And(x, y) <= x && And(x, y) <= y
  {
    if x != 0 && y != 0 { AndBound(x / 2, y / 2); }
  }

  /** Putting bits where there are none is addition. */
  lemma {:induction false} OrDisjoint(x: nat, y: nat, n: nat)
    requires x < Pow2(n) && y % Pow2(n) == 0
    ensures Or(x, y) == x + y
  {
    if x != 0 && y != 0 {
      var q := y / Pow2(n);
      assert y == 2 * (Pow2(n - 1) * q);
      assert y / 2 == Pow2(n - 1) * q;
      ModOfMultiple(Pow2(n - 1), q);
      OrDisjoint(x / 2, y / 2, n - 1);
    }
  }

  lemma {:induction false} ModOfMultiple(m: nat, q: nat)
    requires m > 0
    ensures (m * q) % m == 0
  {
    if q > 0 {
      ModOfMultiple(m, q - 1);
      assert m * q == m * (q - 1) + m;
      assert (m * (q - 1) + m) % m == 0 by { AddModulus(m * (q - 1), m); }
    }
  }

  lemma {:induction false} AddModulus(x: int, m: nat)
    requires m > 0
    ensures (x + m) % m == x % m
  {
    var q, r := x / m, x % m;
    assert x + m == m * (q + 1) + r;
    DivModUnique(x + m, m, q + 1, r);
  }

  lemma {:induction false} MulGe(m: int, d: int)
    requires m > 0 && d >= 1
    ensures m * d >= m
  {
  }

  lemma {:induction false} DivModUnique(x: int, m: int, q: int, r: int)
    requires m > 0 && x == m * q + r && 0 <= r < m
    ensures x / m == q && x % m == r
  {
    var q', r' := x / m, x % m;
    assert x == m * q' + r' && 0 <= r' < m;
    var d := q' - q;
    assert m * d == m * q' - m * q;
    assert m * d == r - r';
    if d >= 1 {
      MulGe(m, d);
    } else if d <= -1 {
      MulGe(m, -d);
    }
  }

  /** Masking with 2^n - 1 keeps the low n bits. */
  lemma {:induction false} AndLowMask(x: nat, n: nat)
    ensures And(x, Pow2(n) - 1) == x % Pow2(n)
  {
    if x == 0 {
      DivModUnique(0, Pow2(n), 0, 0);
    } else if n > 0 {
      AndLowMask(x / 2, n - 1);
      assert (Pow2(n) - 1) / 2 == Pow2(n - 1) - 1 && (Pow2(n) - 1) % 2 == 1;
      HalveMod(x, Pow2(n - 1));
    }
  }

  lemma {:induction false} HalveMod(x: nat, m: nat)
    requires m > 0
    ensures x % (2 * m) == 2 * ((x / 2) % m) + x % 2
  {
    var q, r := (x / 2) / m, (x / 2) % m;
    assert x / 2 == m * q + r;
    assert x == 2 * (m * q) + 2 * r + x % 2;
    assert (2 * m) * q == 2 * (m * q);
    DivModUnique(x, 2 * m, q, 2 * r + x % 2);
  }

  lemma {:induction false} OrIsSum(d: nat, s: nat, n: nat)
    requires d < Pow2(n) && s % Pow2(n) == 0
    ensures Or(s, d) == s + d
  {
    OrDisjoint(d, s, n);
    OrCommutes(s, d);
  }

  lemma {:induction false} OrCommutes(x: nat, y: nat)
    ensures Or(x, y) == Or(y, x)
    decreases x + y
  {
    if x != 0 && y != 0 { OrCommutes(x / 2, y / 2); }
  }
}
