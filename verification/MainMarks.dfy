/**
 * The main sorter's bucket table: starts of small buckets below bit 21, and a mark at bit 21 on those already sorted.
 */
module MainMarks {
  import opened Bits
  import opened Rotations
  import opened MainRadix

  const SETMASK := 0x20_0000

  function Marked(x: int): bool
    requires 0 <= x
  {
    And(x, SETMASK) != 0
  }

  /** x & CLEARMASK */
  function Cleared(x: int): int
    requires 0 <= x
  {
    And(x, Not32(SETMASK))
  }

  /** x | SETMASK */
  function WithMark(x: int): int
    requires 0 <= x
  {
    Or(x, SETMASK)
  }

  /** Masking out bit k. */
  lemma {:induction false} ClearBit(x: nat, n: nat, k: nat)
    requires x < Pow2(n) && k < n
    ensures Pow2(k) < Pow2(n) && And(x, Pow2(n) - 1 - Pow2(k)) == x - if Bit(x, k) then Pow2(k) else 0
  {
    hide And, Bit, Pow2;
    Pow2Mono(k + 1, n);
    PowerStep(k + 1);
    PowerStep(n);
    var m, q := Pow2(n) - 1 - Pow2(k), Pow2(n - 1);
    AndStep(x, m);
    BitStep(x, k);
    if k == 0 {
      assert Pow2(0) == 1 by { PowerStep(0); }
      assert m == 2 * (q - 1);
      AndLowMask(x / 2, n - 1);
      SmallMod(x / 2, q);
    } else {
      PowerStep(k);
      ClearBit(x / 2, n - 1, k - 1);
      assert m == 2 * (q - 1 - Pow2(k - 1)) + 1;
    }
  }

  lemma {:induction false} PowerStep(k: nat)
    ensures Pow2(k) == if k == 0 then 1 else 2 * Pow2(k - 1)
  {
  }

  lemma {:induction false} BitStep(x: nat, k: nat)
    ensures Bit(x, k) <==> if k == 0 then x % 2 == 1 else Bit(x / 2, k - 1)
  {
  }

  lemma {:induction false} SmallMod(x: nat, m: nat)
    requires x < m
    ensures x % m == x
  {
  }

  lemma {:induction false} AndStep(x: nat, y: nat)
    ensures And(x, y) == (if x % 2 == 1 && y % 2 == 1 then 1 else 0) + 2 * And(x / 2, y / 2)
  {
  }

  lemma {:induction false} MaskValue()
    ensures Pow2(21) == SETMASK && Pow2(32) == WORD
  {
    Pow2Values();
    Pow2Sum(16, 4);
    assert Pow2(21) == 2 * Pow2(20);
  }

  /** What the three operations do to a start v with or without its mark. */
  lemma {:induction false} MarkBits(v: int, m: bool)
    requires 0 <= v < SETMASK
    ensures var x := if m then v + SETMASK else v; Marked(x) == m && Cleared(x) == v && WithMark(x) == v + SETMASK
  {
    hide Pow2, And, Or;
    var x := if m then v + SETMASK else v;
    MaskValue();
    OneMultiple(SETMASK);
    OrDisjoint(v, SETMASK, 21);
    HighBitsClear(v, 21, 21);
    BitOr(v, SETMASK, 21);
    BitPow2(21, 21);
    MarkedBit(x);
    ClearBit(x, 32, 21);
    if m { OrTwice(v); }
  }

  lemma {:induction false} OneMultiple(m: int)
    requires m > 0
    ensures m % m == 0
  {
  }

  lemma {:induction false} MarkedBit(x: nat)
    requires x < WORD
    ensures Marked(x) <==> Bit(x, 21)
  {
    hide Pow2, And, Bit;
    MaskValue();
    var y := And(x, SETMASK);
    BitAnd(x, SETMASK, 21);
    BitPow2(21, 21);
    if y == 0 {
      BitZero(21);
    } else {
      var k := SomeBit(y);
      BitAnd(x, SETMASK, k);
      BitPow2(21, k);
    }
  }

  lemma {:induction false} OrTwice(v: int)
    requires 0 <= v < SETMASK
    ensures Or(v + SETMASK, SETMASK) == v + SETMASK
  {
    hide Pow2, Or;
    MaskValue();
    OrSame(v, 21);
  }

  lemma {:induction false} OrSame(v: nat, k: nat)
    requires v < Pow2(k)
    ensures Or(v + Pow2(k), Pow2(k)) == v + Pow2(k)
  {
    if k > 0 {
      OrSame(v / 2, k - 1);
      assert (v + Pow2(k)) / 2 == v / 2 + Pow2(k - 1) && (v + Pow2(k)) % 2 == v % 2;
    } else {
      assert Or(1, 1) == 1 + 2 * Or(0, 0);
    }
  }

  // ---- the table

  /** The table t has the bucket starts of the keys ks, marked as marks says. */
  ghost predicate Table(t: seq<int>, ks: seq<int>, marks: seq<bool>) {
    && |marks| == 65536 && |t| >= 65537 && |ks| < SETMASK
    && (forall c | 0 <= c < 65536 :: t[c] == Start(ks, c) + if marks[c] then SETMASK else 0)
    && t[65536] == Start(ks, 65536)
  }

  lemma {:induction false} TableAt(t: seq<int>, ks: seq<int>, marks: seq<bool>, c: int)
    requires Table(t, ks, marks) && 0 <= c <= 65536
    ensures c < |t| && 0 <= t[c] && Cleared(t[c]) == Start(ks, c)
    ensures c < 65536 ==> c < |marks| && Marked(t[c]) == marks[c]
  {
    hide Start, Marked, Cleared, WithMark;
    StartSmall(ks, c);
    MarkBits(Start(ks, c), c < 65536 && marks[c]);
  }

  lemma {:induction false} StartSmall(ks: seq<int>, c: int)
    requires |ks| < SETMASK
    ensures 0 <= Start(ks, c) < SETMASK
  {
  }

  lemma {:induction false} TableMarked(t: seq<int>, ks: seq<int>, marks: seq<bool>, c: int)
    requires Table(t, ks, marks) && 0 <= c < 65536
    ensures c < |t| && c < |marks| && 0 <= t[c] && Table(t[c := WithMark(t[c])], ks, marks[c := true])
  {
    hide Start, Marked, Cleared, WithMark;
    StartSmall(ks, c);
    MarkBits(Start(ks, c), marks[c]);
  }

  lemma {:induction false} TableFresh(t: seq<int>, ks: seq<int>)
    requires |ks| < SETMASK && |t| >= 65537 && forall c | 0 <= c <= 65536 :: t[c] == Start(ks, c)
    ensures Table(t, ks, seq(65536, i => false))
  {
    hide Start;
  }

  /** Marks small bucket c as sorted; its start, and all other entries, are as before. */
  method SetMark(ftab: array<int>, c: int, ghost ks: seq<int>, ghost marks: seq<bool>)
    requires Table(ftab[..], ks, marks) && 0 <= c < 65536
    modifies ftab
    ensures |marks| == 65536 && Table(ftab[..], ks, marks[c := true])
  {
    hide Table, WithMark;
    ghost var t := ftab[..];
    TableMarked(t, ks, marks, c);
    ftab[c] := WithMark(ftab[c]);
    assert ftab[..] == t[c := WithMark(t[c])];
    TableSize(t, ks, marks);
  }

  lemma {:induction false} TableSize(t: seq<int>, ks: seq<int>, marks: seq<bool>)
    requires Table(t, ks, marks)
    ensures |marks| == 65536 && |t| >= 65537
  {
  }

  /** All entries stay 32-bit words. */
  lemma {:induction false} TableWords(t: seq<int>, ks: seq<int>, marks: seq<bool>)
    requires Table(t, ks, marks)
    ensures forall c | 0 <= c <= 65536 :: 0 <= t[c] < WORD
  {
    forall c | 0 <= c <= 65536 ensures 0 <= t[c] < WORD { StartSmall(ks, c); }
  }
}
