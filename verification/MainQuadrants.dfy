/** Step 3 of the main sorter: the finished big bucket's order is cached as 16-bit ranks. */
module MainQuadrants {
  import opened Bits
  import opened Rotations
  import opened InverseBwt
  import opened ByteView
  import opened Overlay
  import opened MainCompare
  import opened MainRadix

  /** Positions lo .. hi - 1 hold exactly the rotations that start with ss, in order. */
  ghost predicate BigSorted(b: Block, f: seq<int>, ss: int, lo: int, hi: int) {
    && 0 <= lo <= hi <= |b| <= |f|
    && (forall x | lo <= x < hi :: 0 <= f[x] < |b| && b[f[x]] == ss)
    && (forall i | 0 <= i < |b| && b[i] == ss :: exists x :: lo <= x < hi && f[x] == i)
    && (forall x, y {:trigger f[x], f[y]} | lo <= x < y < hi :: f[x] != f[y] && RotLe(b, f[x], f[y]))
  }

  /** The ranks of the places from j on are set; ranks of other bytes, and all that mirrors, are right. */
  ghost predicate Ranking(b: Block, f: seq<int>, ss: int, lo: int, hi: int, p: int, q0: seq<int>, q: seq<int>, j: int) {
    && |q| == |q0| == |b| + N_OVERSHOOT && |b| > N_OVERSHOOT && p > 0
    && (forall i | 0 <= i < N_OVERSHOOT :: q[|b| + i] == q[i])
    && (forall i | 0 <= i < |b| && b[i] != ss :: q[i] == q0[i])
    && (forall x | lo + j <= x < hi && 0 <= x < |f| && 0 <= f[x] < |b| :: q[f[x]] == (x - lo) / p)
  }

  lemma {:induction false} RankingNone(b: Block, f: seq<int>, ss: int, lo: int, hi: int, p: int, q0: seq<int>)
    requires QuadrantsOk(b, q0) && p > 0 && lo <= hi
    ensures Ranking(b, f, ss, lo, hi, p, q0, q0, hi - lo)
  {
  }

  /** The rank and its mirror. */
  function Put(q: seq<int>, n: int, a: int, v: int): seq<int>
    requires 0 <= a < n && n + N_OVERSHOOT <= |q|
  {
    if a < N_OVERSHOOT then q[a := v][a + n := v] else q[a := v]
  }

  lemma {:induction false} RankingNext(b: Block, f: seq<int>, ss: int, lo: int, hi: int, p: int, q0: seq<int>,
    q: seq<int>, j: int)
    requires BigSorted(b, f, ss, lo, hi) && Ranking(b, f, ss, lo, hi, p, q0, q, j + 1) && 0 <= j < hi - lo
    ensures 0 <= f[lo + j] < |b| && |b| + N_OVERSHOOT <= |q|
    ensures Ranking(b, f, ss, lo, hi, p, q0, Put(q, |b|, f[lo + j], j / p), j)
  {
    hide RotLe;
    var a := f[lo + j];
    var q' := Put(q, |b|, a, j / p);
    assert forall i | 0 <= i < |b| :: q'[i] == if i == a then j / p else q[i];
    forall x | lo + j <= x < hi && 0 <= x < |f| && 0 <= f[x] < |b| ensures q'[f[x]] == (x - lo) / p {
      if x > lo + j { assert f[lo + j] != f[x]; }
    }
  }

  lemma {:induction false} QuotientMono(x: int, y: int, p: int)
    requires p > 0 && 0 <= y <= x
    ensures y / p <= x / p
  {
    QuotientsOrdered(x, y, p, x / p, x % p, y / p, y % p);
  }

  lemma {:induction false} QuotientsOrdered(x: int, y: int, p: int, a: int, r: int, c: int, t: int)
    requires p > 0 && y <= x && x == p * a + r && y == p * c + t && 0 <= r < p && 0 <= t < p
    ensures c <= a
  {
    assert p * (a + 1) == p * a + p;
    if c > a { ProductMono(p, a + 1, c); }
  }

  lemma {:induction false} ProductMono(p: int, x: int, y: int)
    requires p > 0 && x <= y
    ensures p * x <= p * y
  {
  }

  lemma {:induction false} RanksInOrder(x: int, y: int, p: int)
    requires p > 0 && 0 <= x && 0 <= y && x / p < y / p
    ensures x < y
  {
    if y <= x { QuotientMono(x, y, p); }
  }

  /** With all ranks set, the cache again says what it should. */
  lemma {:induction false} RankingDone(b: Block, f: seq<int>, ss: int, lo: int, hi: int, p: int, q0: seq<int>,
    q: seq<int>)
    requires BigSorted(b, f, ss, lo, hi) && QuadrantsOk(b, q0) && Ranking(b, f, ss, lo, hi, p, q0, q, 0)
    ensures QuadrantsOk(b, q)
  {
    hide RotLe;
    forall i, j | 0 <= i < |b| && 0 <= j < |b| && b[i] == b[j] && q[i] < q[j] ensures RotLe(b, i, j) {
      if b[i] == ss {
        var x :| lo <= x < hi && f[x] == i;
        var y :| lo <= y < hi && f[y] == j;
        RanksInOrder(x - lo, y - lo, p);
        assert RotLe(b, f[x], f[y]);
      } else {
        assert q0[i] < q0[j];
      }
    }
  }

  /** How far a bucket's places have to be shifted right to fit into 16 bits. */
  method Shifts(bbSize: int) returns (shifts: nat)
    requires 0 <= bbSize
    ensures bbSize / Pow2(shifts) <= 65534
  {
    hide Pow2;
    shifts := 0;
    while bbSize / Pow2(shifts) > 65534
      decreases bbSize / Pow2(shifts)
    {
      HalfAgain(bbSize, shifts);
      shifts := shifts + 1;
    }
  }

  /** Sets the ranks of the big bucket at bbStart .. bbStart + bbSize - 1, scaled down to 16 bits. */
  method UpdateQuadrants(arr2: array<int>, q0: int, ptr: array<int>, nblock: int, bbStart: int, bbSize: int, ss: int,
    ghost b: Block, ghost quad0: seq<int>)
    returns (ghost quad: seq<int>)
    requires arr2 != ptr && nblock == |b| && Ready(b, arr2[..], q0, quad0)
    requires 0 <= bbSize && BigSorted(b, ptr[..], ss, bbStart, bbStart + bbSize)
    modifies arr2
    ensures Ready(b, arr2[..], q0, quad)
  {
    hide Ready, Shows, QuadrantsOk, BigSorted, Ranking, Pow2;
    ghost var f, blk := ptr[..], Extended0(b, arr2[..], q0, quad0);
    var shifts := Shifts(bbSize);
    ghost var p := Pow2(shifts);
    quad := quad0;
    ReadyIs(b, arr2[..], q0, quad0);
    RankingNone(b, f, ss, bbStart, bbStart + bbSize, p, quad0);
    for j := bbSize downto 0
      invariant ptr[..] == f && Shows(arr2[..], q0, blk, quad) && |blk| == nblock + N_OVERSHOOT && nblock > N_OVERSHOOT
      invariant Ranking(b, f, ss, bbStart, bbStart + bbSize, p, quad0, quad, j)
    {
      RankingNext(b, f, ss, bbStart, bbStart + bbSize, p, quad0, quad, j);
      BigPlace(b, f, ss, bbStart, bbStart + bbSize, bbStart + j);
      var a2update := ptr[bbStart + j];
      var qVal := j / Pow2(shifts);
      QuotientMono(bbSize, j, p);
      assert 0 <= qVal <= 65534;
      SetQuadrant(arr2, q0, a2update, qVal, blk, quad);
      ghost var quad1 := quad[a2update := qVal];
      if a2update < N_OVERSHOOT {
        SetQuadrant(arr2, q0, a2update + nblock, qVal, blk, quad1);
        quad1 := quad1[a2update + nblock := qVal];
      }
      quad := quad1;
    }
    RankingDone(b, f, ss, bbStart, bbStart + bbSize, p, quad0, quad);
    ReadyAgain(b, arr2[..], q0, blk, quad);
  }

  ghost function Extended0(b: Block, w: seq<int>, q0: int, quad: seq<int>): (blk: seq<Byte>)
    requires Ready(b, w, q0, quad)
    ensures blk == Extended(b) && |blk| == |b| + N_OVERSHOOT && Shows(w, q0, blk, quad)
  {
    Extended(b)
  }

  lemma {:induction false} ReadyIs(b: Block, w: seq<int>, q0: int, quad: seq<int>)
    requires Ready(b, w, q0, quad)
    ensures QuadrantsOk(b, quad) && |b| > N_OVERSHOOT && |quad| == |b| + N_OVERSHOOT && Shows(w, q0, Extended(b), quad)
  {
  }

  lemma {:induction false} ReadyAgain(b: Block, w: seq<int>, q0: int, blk: seq<Byte>, quad: seq<int>)
    requires |b| > N_OVERSHOOT && blk == Extended(b) && Shows(w, q0, blk, quad) && QuadrantsOk(b, quad)
    ensures Ready(b, w, q0, quad)
  {
  }

  lemma {:induction false} BigPlace(b: Block, f: seq<int>, ss: int, lo: int, hi: int, x: int)
    requires BigSorted(b, f, ss, lo, hi) && lo <= x < hi
    ensures 0 <= x < |f| && 0 <= f[x] < |b|
  {
  }

  lemma {:induction false} HalfAgain(x: int, k: nat)
    requires x / Pow2(k) > 65534 && x >= 0
    ensures 0 <= x / Pow2(k + 1) < x / Pow2(k)
  {
    HalfDivide(x, Pow2(k));
  }

  lemma {:induction false} HalfDivide(x: int, p: int)
    requires p > 0 && x >= 0 && x / p > 0
    ensures 0 <= x / (2 * p) < x / p
  {
    var q, r := x / p, x % p;
    DoubleProduct(p, q / 2, q % 2, r);
    DivModUnique(x, 2 * p, q / 2, p * (q % 2) + r);
  }

  lemma {:induction false} DoubleProduct(p: int, h: int, e: int, r: int)
    requires 0 <= e <= 1 && 0 <= r < p
    ensures p * (2 * h + e) + r == (2 * p) * h + (p * e + r) && 0 <= p * e + r < 2 * p
  {
  }
}
