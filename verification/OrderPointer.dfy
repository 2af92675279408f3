/**
 * The pointer stored beside the column is the place of rotation 0 in the sorted order: for which blocks it does not
 * depend on the sorter.
 */
module OrderPointer {
  import opened Rotations
  import opened InverseBwt

  /** All sorted orders have rotation 0 in one place. */
  ghost predicate OnePointer(b: Block) {
    forall p, q, x, y {:trigger IsRotationOrder(b, p), IsRotationOrder(b, q), p[x], q[y]} |
      IsRotationOrder(b, p) && IsRotationOrder(b, q) && 0 <= x < |b| && 0 <= y < |b| && p[x] == 0 && q[y] == 0 :: x == y
  }

  /** Turned by so many bytes, the block is as before. */
  predicate TurnsInto(b: Block, j: int)
    requires 0 <= j <= |b|
  {
    b[j..] + b[..j] == b
  }

  lemma {:induction false} TurnIsRotation(b: Block, j: int)
    requires 0 < j < |b|
    ensures TurnsInto(b, j) <==> RotEq(b, 0, j)
  {
    var c := b[j..] + b[..j];
    forall k | 0 <= k < |b|
      ensures Ch(b, 0, k) == b[k] && Ch(b, j, k) == c[k]
    {
      assert k % |b| == k;
      if j + k < |b| { assert (j + k) % |b| == j + k; } else { TurnedOnce(j + k, |b|); }
    }
    if RotEq(b, 0, j) {
      assert forall k | 0 <= k < |b| :: Ch(b, 0, k) == Ch(b, j, k);
      assert c == b;
    }
  }

  lemma {:induction false} TurnedOnce(k: int, n: int)
    requires 0 < n <= k < 2 * n
    ensures k % n == k - n
  {
  }

  lemma {:induction false} RotEqSym(b: Block, i: int, j: int)
    requires RotEq(b, i, j)
    ensures RotEq(b, j, i)
  {
  }

  /** Two equal rotations may change places. */
  lemma {:induction false} Swapped(b: Block, p: seq<int>, x: int, z: int)
    requires IsRotationOrder(b, p) && 0 <= x < |b| && 0 <= z < |b| && RotEq(b, p[x], p[z])
    ensures IsRotationOrder(b, p[x := p[z]][z := p[x]])
  {
    hide RotEq;
    var q := p[x := p[z]][z := p[x]];
    RotEqSym(b, p[x], p[z]);
    forall k | 0 <= k < |b|
      ensures RotEq(b, q[k], p[k]) && RotEq(b, p[k], q[k])
    {
      EqualToItself(b, p[k]);
    }
    forall i, k | 0 <= i < k < |b|
      ensures LessEq(b, q[i], q[k], |b|)
    {
      assert LessEq(b, p[i], p[k], |b|);
      BetweenEqual(b, q[i], p[i], p[k], q[k]);
    }
  }

  lemma {:induction false} EqualToItself(b: Block, i: int)
    ensures RotEq(b, i, i)
  {
  }

  lemma {:induction false} BetweenEqual(b: Block, i: int, j: int, k: int, l: int)
    requires RotEq(b, i, j) && LessEq(b, j, k, |b|) && RotEq(b, k, l)
    ensures LessEq(b, i, l, |b|)
  {
    LessEqTrans(b, i, j, k, |b|);
    LessEqTrans(b, i, k, l, |b|);
  }

  /** The pointer does not depend on the sorter just for blocks that no turn maps to themselves. */
  lemma {:induction false} OnePointerExactly(b: Block, p: seq<int>)
    requires IsRotationOrder(b, p)
    ensures OnePointer(b) <==> forall j | 0 < j < |b| :: !TurnsInto(b, j)
  {
    hide SortedBy, RotEq, TurnsInto;
    if j :| 0 < j < |b| && TurnsInto(b, j) {
      TurnIsRotation(b, j);
      TwoPointers(b, p, j);
    } else {
      forall q, r, x, y | IsRotationOrder(b, q) && IsRotationOrder(b, r) && 0 <= x < |b| && 0 <= y < |b| &&
        q[x] == 0 && r[y] == 0
        ensures x == y
      {
        SamePointer(b, q, r, x, y);
      }
    }
  }

  lemma {:induction false} SamePointer(b: Block, q: seq<int>, r: seq<int>, x: int, y: int)
    requires IsRotationOrder(b, q) && IsRotationOrder(b, r) && 0 <= x < |b| && 0 <= y < |b| && q[x] == 0 && r[y] == 0
    requires forall j | 0 < j < |b| :: !TurnsInto(b, j)
    ensures x == y
  {
    hide RotEq, TurnsInto;
    OrdersAgree(b, q, r);
    if x != y {
      var j := q[y];
      assert j != q[x];
      RotEqSym(b, j, 0);
      TurnIsRotation(b, j);
    }
  }

  lemma {:induction false} TwoPointers(b: Block, p: seq<int>, j: int)
    requires IsRotationOrder(b, p) && 0 < j < |b| && RotEq(b, 0, j)
    ensures !OnePointer(b)
  {
    hide RotEq;
    Surjective(p, |b|, 0);
    Surjective(p, |b|, j);
    var x :| 0 <= x < |b| && p[x] == 0;
    var z :| 0 <= z < |b| && p[z] == j;
    Swapped(b, p, x, z);
    assert p[x := p[z]][z := p[x]][z] == 0;
  }

  /** The shortest block that shows it: the same byte twice. */
  lemma {:induction false} TwoOrders(c: Byte)
    ensures IsRotationOrder([c, c], [0, 1]) && IsRotationOrder([c, c], [1, 0])
  {
    forall i, j
      ensures RotEq([c, c], i, j)
    {
    }
  }
}
