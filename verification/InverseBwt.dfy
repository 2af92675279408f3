/** Undoing the Burrows-Wheeler transform: why the decoder's walk gives the block back. */
module InverseBwt {
  import opened Rotations

  /** The column the encoder transmits: the byte in front of each rotation, in sorted order. */
  function LastColumn(b: Block, p: seq<int>): (l: seq<Byte>)
    ensures |l| == |p|
  {
    seq(|p|, x requires 0 <= x < |p| => Ch(b, p[x], -1))
  }

  /** Position i of l comes before position j in a stable sort by symbol. */
  predicate Precedes(l: seq<int>, i: int, j: int)
    requires 0 <= i < |l| && 0 <= j < |l|
  {
    l[i] < l[j] || (l[i] == l[j] && i < j)
  }

  /** t lists the positions of l by increasing symbol, equal symbols in their order in l. */
  ghost predicate IsStableOrder(l: seq<int>, t: seq<int>) {
    && IsPerm(t, |l|)
    && forall x, y {:trigger Precedes(l, t[x], t[y])} | 0 <= x < y < |l| :: Precedes(l, t[x], t[y])
  }

  /** The symbols met on following t from position x: m steps, each reading the symbol it arrives at. */
  function Walk(t: seq<int>, l: seq<Byte>, x: int, m: nat): (r: seq<Byte>)
    requires |t| == |l| && 0 <= x < |l|
    requires forall y | 0 <= y < |l| :: 0 <= t[y] < |l|
    ensures |r| == m
    decreases m
  {
    if m == 0 then [] else [l[t[x]]] + Walk(t, l, t[x], m - 1)
  }

  // ---- finite sets of indices

  /** The first k values of a permutation. */
  ghost function Image(p: seq<int>, k: nat): (s: set<int>)
    requires k <= |p|
    ensures forall v :: v in s <==> exists x | 0 <= x < k :: p[x] == v
  {
    set x | 0 <= x < k :: p[x]
  }

  lemma {:induction false} ImageSize(p: seq<int>, k: nat)
    requires k <= |p|
    ensures |Image(p, k)| <= k
    ensures (forall x, y | 0 <= x < y < |p| :: p[x] != p[y]) ==> |Image(p, k)| == k
  {
    if k == 0 {
      assert Image(p, 0) == {};
    } else {
      ImageSize(p, k - 1);
      assert Image(p, k) == Image(p, k - 1) + {p[k - 1]};
    }
  }

  lemma {:induction false} UpTo(n: nat) returns (s: set<int>)
    ensures forall v :: v in s <==> 0 <= v < n
    ensures |s| == n
  {
    if n == 0 {
      s := {};
    } else {
      s := UpTo(n - 1);
      s := s + {n - 1};
    }
  }

  lemma {:induction false} SubsetSize(a: set<int>, c: set<int>)
    requires a <= c
    ensures |a| <= |c|
    ensures |a| == |c| ==> a == c
  {
    assert c == a + (c - a);
  }

  /** A permutation hits every number below n. */
  lemma {:induction false} Surjective(p: seq<int>, n: nat, v: int)
    requires IsPerm(p, n) && 0 <= v < n
    ensures exists x | 0 <= x < n :: p[x] == v
  {
    var s := UpTo(n);
    ImageSize(p, n);
    SubsetSize(Image(p, n), s);
    assert v in Image(p, n);
  }

  // ---- two sorted orders of the same block

  /** If order q put a rotation at k that is greater than p's, too few places would be left for p's first k + 1. */
  lemma {:induction false} NotGreater(b: Block, p: seq<int>, q: seq<int>, k: nat)
    requires IsRotationOrder(b, p) && IsRotationOrder(b, q) && k < |b|
    ensures !Less(b, p[k], q[k], |b|)
  {
    var n := |b|;
    if Less(b, p[k], q[k], n) {
      forall v | v in Image(p, k + 1) ensures v in Image(q, k) {
        var x :| 0 <= x < k + 1 && p[x] == v;
        Surjective(q, n, v);
        var y :| 0 <= y < n && q[y] == v;
        if y >= k {
          Reflexive(b, v);
          Reflexive(b, q[k]);
          assert x < k ==> LessEq(b, p[x], p[k], n);
          assert k < y ==> LessEq(b, q[k], q[y], n);
          LessEqTrans(b, p[x], p[k], q[k], n);
          LessEqTrans(b, p[x], q[k], q[y], n);
          Trichotomy(b, v, v, n);
        }
      }
      ImageSize(p, k + 1);
      ImageSize(q, k);
      SubsetSize(Image(p, k + 1), Image(q, k));
    }
  }

  lemma {:induction false} Reflexive(b: Block, i: int)
    ensures forall h: nat :: Agree(b, i, i, h)
  {
  }

  /**
   * All sorted orders of a block agree up to equal rotations. Which of its two
   * sorting algorithms the compressor uses therefore does not show in the column it sends.
   */
  lemma {:induction false} OrdersAgree(b: Block, p: seq<int>, q: seq<int>)
    requires IsRotationOrder(b, p) && IsRotationOrder(b, q)
    ensures forall k | 0 <= k < |b| :: RotEq(b, p[k], q[k])
    ensures LastColumn(b, p) == LastColumn(b, q)
  {
    forall k | 0 <= k < |b| ensures RotEq(b, p[k], q[k]) && Ch(b, p[k], -1) == Ch(b, q[k], -1) {
      NotGreater(b, p, q, k);
      NotGreater(b, q, p, k);
      Trichotomy(b, p[k], q[k], |b|);
      RotEqShift(b, p[k], q[k], -1);
      assert Ch(b, p[k] - 1, 0) == Ch(b, q[k] - 1, 0);
    }
  }

  // ---- the decoder's permutation

  function Before(i: int, n: int): int {
    if i == 0 then n - 1 else i - 1
  }

  lemma {:induction false} BeforeLe(b: Block, i: int, j: int)
    requires 0 <= i < |b| && 0 <= j < |b|
    requires Ch(b, i, -1) < Ch(b, j, -1) || (Ch(b, i, -1) == Ch(b, j, -1) && RotLe(b, i, j))
    ensures RotLe(b, Before(i, |b|), Before(j, |b|))
  {
    RotLeBefore(b, i, j);
    Wrap(b, i - 1, j - 1, |b|);
    Wrap(b, Before(i, |b|), j - 1, |b|);
  }

  lemma {:induction false} ColumnOrder(b: Block, p: seq<int>, t: seq<int>, x: int, y: int)
    requires IsRotationOrder(b, p) && IsStableOrder(LastColumn(b, p), t)
    requires 0 <= x < y < |b|
    ensures 0 <= t[x] < |b| && 0 <= t[y] < |b| && p[t[x]] != p[t[y]]
    ensures 0 <= p[t[x]] < |b| && 0 <= p[t[y]] < |b|
    ensures var i, j := p[t[x]], p[t[y]];
            Ch(b, i, -1) < Ch(b, j, -1) || (Ch(b, i, -1) == Ch(b, j, -1) && RotLe(b, i, j))
  {
    var l := LastColumn(b, p);
    assert l[t[x]] == Ch(b, p[t[x]], -1) && l[t[y]] == Ch(b, p[t[y]], -1);
    assert Precedes(l, t[x], t[y]);
    if l[t[x]] == l[t[y]] {
      assert LessEq(b, p[t[x]], p[t[y]], |b|);
    }
  }

  /** Stepping through t and going back one byte is again a sorted order of the rotations. */
  lemma {:induction false} SteppedOrder(b: Block, p: seq<int>, t: seq<int>) returns (q: seq<int>)
    requires IsRotationOrder(b, p) && IsStableOrder(LastColumn(b, p), t)
    ensures IsRotationOrder(b, q)
    ensures forall y | 0 <= y < |b| :: q[y] == Before(p[t[y]], |b|)
  {
    var n := |b|;
    q := seq(n, y requires 0 <= y < n => Before(p[t[y]], n));
    forall x, y | 0 <= x < y < n ensures q[x] != q[y] && RotLe(b, q[x], q[y]) {
      ColumnOrder(b, p, t, x, y);
      BeforeLe(b, p[t[x]], p[t[y]]);
    }
  }

  lemma {:induction false} AfterBefore(b: Block, i: int, j: int)
    requires 0 <= j < |b| && RotEq(b, i, Before(j, |b|))
    ensures RotEq(b, j, i + 1)
  {
    var q := Before(j, |b|);
    RotEqShift(b, i, q, 1);
    Wrap(b, i + 1, j, |b|);
    assert forall k | 0 <= k < |b| :: Ch(b, j, k) == Ch(b, i + 1, k);
  }

  lemma {:induction false} StablePlace(b: Block, p: seq<int>, t: seq<int>, y: int)
    requires IsRotationOrder(b, p) && IsStableOrder(LastColumn(b, p), t) && 0 <= y < |b|
    ensures |t| == |p| == |b| && 0 <= t[y] < |b| && 0 <= p[t[y]] < |b|
  {
  }

  /** Position t[y] holds, up to equal rotations, the rotation after the one at position y. */
  lemma {:induction false} StepForward(b: Block, p: seq<int>, t: seq<int>, y: int)
    requires IsRotationOrder(b, p) && IsStableOrder(LastColumn(b, p), t) && 0 <= y < |b|
    ensures 0 <= t[y] < |b| && RotEq(b, p[t[y]], p[y] + 1)
  {
    hide RotLe, LastColumn, Before;
    StablePlace(b, p, t, y);
    var q := SteppedOrder(b, p, t);
    OrdersAgree(b, p, q);
    AfterBefore(b, p[y], p[t[y]]);
  }

  /** One step from a position holding rotation i reads byte i and arrives at a position holding rotation i + 1. */
  lemma {:induction false} StepReads(b: Block, p: seq<int>, t: seq<int>, x: int, i: int)
    requires IsRotationOrder(b, p) && IsStableOrder(LastColumn(b, p), t)
    requires 0 <= x < |b| && RotEq(b, p[x], i)
    ensures 0 <= t[x] < |b| && RotEq(b, p[t[x]], i + 1)
    ensures LastColumn(b, p)[t[x]] == Ch(b, i, 0)
  {
    StepForward(b, p, t, x);
    RotEqShift(b, p[x], i, 1);
    var y := t[x];
    RotEqTrans(b, p[y], p[x] + 1, i + 1);
    RotEqShift(b, p[y], i + 1, -1);
    assert Ch(b, p[y] - 1, 0) == Ch(b, i + 1 - 1, 0);
  }

  lemma {:induction false} RotEqTrans(b: Block, i: int, j: int, k: int)
    requires RotEq(b, i, j) && RotEq(b, j, k)
    ensures RotEq(b, i, k)
  {
  }

  /** From a position holding rotation i, the walk reads the block from byte i on, round and round. */
  lemma {:induction false} WalkReads(b: Block, p: seq<int>, t: seq<int>, x: int, i: int, m: nat)
    requires IsRotationOrder(b, p) && IsStableOrder(LastColumn(b, p), t)
    requires 0 <= x < |b| && RotEq(b, p[x], i)
    ensures Walk(t, LastColumn(b, p), x, m) == Read(b, i, m)
    decreases m
  {
    if m > 0 {
      StepReads(b, p, t, x, i);
      WalkReads(b, p, t, t[x], i + 1, m - 1);
      ReadStep(b, i, m);
    }
  }

  /**
   * The inverse Burrows-Wheeler transform. For every block, periodic or not, and every
   * sorted order of its rotations, the walk from where rotation 0 stands returns the block.
   */
  lemma {:induction false} WalkRestoresBlock(b: Block, p: seq<int>, t: seq<int>, origPtr: int)
    requires IsRotationOrder(b, p) && IsStableOrder(LastColumn(b, p), t)
    requires 0 <= origPtr < |b| && p[origPtr] == 0
    ensures Walk(t, LastColumn(b, p), origPtr, |b|) == b
  {
    WalkReads(b, p, t, origPtr, 0, |b|);
    ReadBlock(b);
  }
}
