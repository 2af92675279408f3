/** The cyclic rotations of a block and their order: what block sorting is about. */
module Rotations {
  import opened Bits

  type Byte = x: int | 0 <= x < 256

  type Block = b: seq<Byte> | |b| > 0 witness [0]

  /** Byte k of rotation i; both wrap around the end of the block. */
  function Ch(b: Block, i: int, k: int): Byte {
    b[(i + k) % |b|]
  }

  /** The first m bytes of rotation i, going round the block as often as needed. */
  function Read(b: Block, i: int, m: nat): (r: seq<Byte>)
    ensures |r| == m
  {
    seq(m, k requires 0 <= k < m => Ch(b, i, k))
  }

  /** Rotations i and j have the same first h bytes. */
  ghost predicate Agree(b: Block, i: int, j: int, h: nat) {
    forall k | 0 <= k < h :: Ch(b, i, k) == Ch(b, j, k)
  }

  /** Rotation i comes before rotation j at byte k. */
  ghost predicate LessAt(b: Block, i: int, j: int, k: nat) {
    Agree(b, i, j, k) && Ch(b, i, k) < Ch(b, j, k)
  }

  /** Rotation i comes before rotation j within the first h bytes. */
  ghost predicate Less(b: Block, i: int, j: int, h: nat) {
    exists k | 0 <= k < h :: LessAt(b, i, j, k)
  }

  ghost predicate LessEq(b: Block, i: int, j: int, h: nat) {
    Less(b, i, j, h) || Agree(b, i, j, h)
  }

  /** Rotations are compared on their whole length. */
  ghost predicate RotLe(b: Block, i: int, j: int) {
    LessEq(b, i, j, |b|)
  }

  ghost predicate RotEq(b: Block, i: int, j: int) {
    Agree(b, i, j, |b|)
  }

  /** p lists every number below n exactly once. */
  ghost predicate IsPerm(p: seq<int>, n: nat) {
    && |p| == n
    && (forall x | 0 <= x < n :: 0 <= p[x] < n)
    && (forall x, y | 0 <= x < y < n :: p[x] != p[y])
  }

  /** p orders the rotations by their first h bytes. */
  ghost predicate SortedBy(b: Block, p: seq<int>, h: nat) {
    forall x, y {:trigger LessEq(b, p[x], p[y], h)} | 0 <= x < y < |p| :: LessEq(b, p[x], p[y], h)
  }

  /** p is a sorted order of the rotations of b. Equal rotations may stand in any order. */
  ghost predicate IsRotationOrder(b: Block, p: seq<int>) {
    IsPerm(p, |b|) && SortedBy(b, p, |b|)
  }

  /** Going once round the block changes nothing. */
  lemma {:induction false} ChPeriod(b: Block, i: int, k: int)
    ensures Ch(b, i + |b|, k) == Ch(b, i, k) == Ch(b, i, k + |b|) == Ch(b, i - |b|, k)
  {
    var n := |b|;
    var x, q := (i + k) % n, (i + k) / n;
    assert i + k == n * q + x;
    assert n * (q + 1) == n * q + n && n * (q - 1) == n * q - n;
    DivModUnique(i + k + n, n, q + 1, x);
    DivModUnique(i + k - n, n, q - 1, x);
  }

  lemma {:induction false} ReadStep(b: Block, i: int, m: nat)
    requires m > 0
    ensures Read(b, i, m) == [Ch(b, i, 0)] + Read(b, i + 1, m - 1)
  {
    assert forall k :: 1 <= k < m ==> Ch(b, i, k) == Ch(b, i + 1, k - 1);
  }

  lemma {:induction false} ReadBlock(b: Block)
    ensures Read(b, 0, |b|) == b
  {
    forall k | 0 <= k < |b| ensures Ch(b, 0, k) == b[k] {
      DivModUnique(k, |b|, 0, k);
    }
  }

  /** Two pairs of indices that name the same rotations compare alike. */
  lemma {:induction false} SameRotations(b: Block, i: int, j: int, i': int, j': int, h: nat)
    requires forall k: nat :: Ch(b, i, k) == Ch(b, i', k) && Ch(b, j, k) == Ch(b, j', k)
    ensures Agree(b, i, j, h) ==> Agree(b, i', j', h)
    ensures Less(b, i, j, h) ==> Less(b, i', j', h)
  {
    if Less(b, i, j, h) {
      var k :| 0 <= k < h && LessAt(b, i, j, k);
      assert LessAt(b, i', j', k);
    }
  }

  /** Wrapping either index round the block does not matter to a comparison. */
  lemma {:induction false} Wrap(b: Block, i: int, j: int, h: nat)
    ensures Agree(b, i + |b|, j, h) <==> Agree(b, i, j, h)
    ensures Agree(b, i, j + |b|, h) <==> Agree(b, i, j, h)
    ensures Less(b, i + |b|, j, h) <==> Less(b, i, j, h)
    ensures Less(b, i, j + |b|, h) <==> Less(b, i, j, h)
  {
    forall k: nat ensures Ch(b, i + |b|, k) == Ch(b, i, k) && Ch(b, j + |b|, k) == Ch(b, j, k) {
      ChPeriod(b, i, k);
      ChPeriod(b, j, k);
    }
    SameRotations(b, i, j, i + |b|, j, h);
    SameRotations(b, i + |b|, j, i, j, h);
    SameRotations(b, i, j, i, j + |b|, h);
    SameRotations(b, i, j + |b|, i, j, h);
  }

  /** Any two rotations compare in exactly one of the three ways on their first h bytes. */
  lemma {:induction false} Trichotomy(b: Block, i: int, j: int, h: nat)
    ensures Agree(b, i, j, h) || Less(b, i, j, h) || Less(b, j, i, h)
    ensures !(Agree(b, i, j, h) && Less(b, i, j, h))
    ensures !(Less(b, i, j, h) && Less(b, j, i, h))
  {
    if h > 0 {
      Trichotomy(b, i, j, h - 1);
      if Agree(b, i, j, h - 1) {
        if Ch(b, i, h - 1) < Ch(b, j, h - 1) {
          assert LessAt(b, i, j, h - 1);
        } else if Ch(b, j, h - 1) < Ch(b, i, h - 1) {
          assert LessAt(b, j, i, h - 1);
        }
      } else if Less(b, i, j, h - 1) {
        LessMono(b, i, j, h - 1, h);
      } else {
        LessMono(b, j, i, h - 1, h);
      }
    }
  }

  lemma {:induction false} LessMono(b: Block, i: int, j: int, g: nat, h: nat)
    requires g <= h && Less(b, i, j, g)
    ensures Less(b, i, j, h)
  {
    var k :| 0 <= k < g && LessAt(b, i, j, k);
    assert k < h;
  }

  lemma {:induction false} LessEqTrans(b: Block, i: int, j: int, l: int, h: nat)
    requires LessEq(b, i, j, h) && LessEq(b, j, l, h)
    ensures LessEq(b, i, l, h)
    ensures Less(b, i, j, h) || Less(b, j, l, h) ==> Less(b, i, l, h)
  {
    if Less(b, i, j, h) {
      var k :| 0 <= k < h && LessAt(b, i, j, k);
      if Less(b, j, l, h) {
        var m :| 0 <= m < h && LessAt(b, j, l, m);
        assert LessAt(b, i, l, if k < m then k else m);
      } else {
        assert LessAt(b, i, l, k);
      }
    } else if Less(b, j, l, h) {
      var m :| 0 <= m < h && LessAt(b, j, l, m);
      assert LessAt(b, i, l, m);
    }
  }

  /** Comparing on h + g bytes is comparing on h bytes and then, on a tie, the rotations h further on g bytes. */
  lemma {:induction false} SplitAgree(b: Block, i: int, j: int, h: nat, g: nat)
    ensures Agree(b, i, j, h + g) <==> Agree(b, i, j, h) && Agree(b, i + h, j + h, g)
  {
    if Agree(b, i, j, h + g) {
      var i', j' := i + h, j + h;
      forall k | 0 <= k < g ensures Ch(b, i', k) == Ch(b, j', k) {
        assert Ch(b, i, h + k) == Ch(b, j, h + k);
      }
    }
    if Agree(b, i, j, h) && Agree(b, i + h, j + h, g) {
      forall k | 0 <= k < h + g ensures Ch(b, i, k) == Ch(b, j, k) {
        if k >= h {
          assert Ch(b, i + h, k - h) == Ch(b, j + h, k - h);
        }
      }
    }
  }

  lemma {:induction false} SplitLess(b: Block, i: int, j: int, h: nat, g: nat)
    ensures Less(b, i, j, h + g) <==> Less(b, i, j, h) || (Agree(b, i, j, h) && Less(b, i + h, j + h, g))
  {
    if Less(b, i, j, h + g) {
      var k :| 0 <= k < h + g && LessAt(b, i, j, k);
      if k >= h {
        SplitAgree(b, i, j, h, k - h);
        assert LessAt(b, i + h, j + h, k - h);
      }
    }
    if Less(b, i, j, h) {
      LessMono(b, i, j, h, h + g);
    }
    if Agree(b, i, j, h) && Less(b, i + h, j + h, g) {
      var k :| 0 <= k < g && LessAt(b, i + h, j + h, k);
      SplitAgree(b, i, j, h, k);
      assert LessAt(b, i, j, h + k);
    }
  }

  /** Rotations that agree all the way round agree for ever. */
  lemma {:induction false} AgreeForever(b: Block, i: int, j: int, h: nat)
    requires RotEq(b, i, j)
    ensures Agree(b, i, j, h)
    decreases h
  {
    if h > |b| {
      AgreeForever(b, i, j, h - |b|);
      SplitAgree(b, i, j, |b|, h - |b|);
      Wrap(b, i, j, h - |b|);
      Wrap(b, i, j + |b|, h - |b|);
    }
  }

  /** Nothing is decided after the first |b| bytes, so sorting by any h >= |b| bytes sorts the rotations. */
  lemma {:induction false} LongOrder(b: Block, i: int, j: int, h: nat)
    requires h >= |b|
    ensures Less(b, i, j, h) <==> Less(b, i, j, |b|)
    ensures Agree(b, i, j, h) <==> RotEq(b, i, j)
    ensures LessEq(b, i, j, h) <==> RotLe(b, i, j)
  {
    if Less(b, i, j, |b|) {
      LessMono(b, i, j, |b|, h);
    }
    if RotEq(b, i, j) {
      AgreeForever(b, i, j, h);
    }
    Trichotomy(b, i, j, |b|);
    Trichotomy(b, i, j, h);
    if Less(b, j, i, |b|) {
      LessMono(b, j, i, |b|, h);
    }
    Trichotomy(b, j, i, h);
  }

  /** Moving the start of both rotations by the same amount keeps equality. */
  lemma {:induction false} RotEqShift(b: Block, i: int, j: int, d: int)
    requires RotEq(b, i, j) && d >= -1
    ensures RotEq(b, i + d, j + d)
  {
    var n := |b|;
    if d >= 0 {
      AgreeForever(b, i, j, d + n);
      SplitAgree(b, i, j, d, n);
    } else {
      AgreeForever(b, i, j, n - 1 + n);
      SplitAgree(b, i, j, n - 1, n);
      Wrap(b, i - 1, j + n - 1, n);
      Wrap(b, i - 1, j - 1, n);
    }
  }

  /** Prepending the byte in front of two rotations: the order is that byte's, then the rotations' own. */
  lemma {:induction false} RotLeBefore(b: Block, i: int, j: int)
    requires Ch(b, i, -1) < Ch(b, j, -1) || (Ch(b, i, -1) == Ch(b, j, -1) && RotLe(b, i, j))
    ensures RotLe(b, i - 1, j - 1)
  {
    var n := |b|;
    assert Ch(b, i - 1, 0) == Ch(b, i, -1) && Ch(b, j - 1, 0) == Ch(b, j, -1);
    if Ch(b, i, -1) < Ch(b, j, -1) {
      assert LessAt(b, i - 1, j - 1, 0);
    } else {
      SplitLess(b, i - 1, j - 1, 1, n);
      SplitAgree(b, i - 1, j - 1, 1, n);
      assert LessEq(b, i - 1, j - 1, 1 + n);
      LongOrder(b, i - 1, j - 1, 1 + n);
    }
  }
}
