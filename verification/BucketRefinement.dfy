/**
 * Why doubling the sorted depth works. Positions up to r are sorted on 2h bytes, the rest
 * on h bytes; a header bit marks every position that starts a class of equal rotations.
 */
module BucketRefinement {
  import opened Rotations
  import opened InverseBwt
  import opened FallbackQSort

  /** The number of bytes settled at position y. */
  function Depth(h: nat, r: int, y: int): nat {
    if y <= r then 2 * h else h
  }

  /** f is sorted to the depth of each position, and the headers delimit the classes at that depth. */
  ghost predicate Refined(b: Block, f: seq<int>, hd: seq<bool>, h: nat, r: int) {
    && IsPerm(f, |b|) && |hd| > |b| && -1 <= r < |b|
    && hd[0] && hd[r + 1]
    && (forall x, y {:trigger LessEq(b, f[x], f[y], Depth(h, r, y))} | 0 <= x < y < |b| ::
        LessEq(b, f[x], f[y], Depth(h, r, y)))
    && (forall x {:trigger hd[x]} | 1 <= x < |b| :: hd[x] <==> !Agree(b, f[x - 1], f[x], Depth(h, r, x)))
  }

  /** Everything sorted on h bytes: the header bits delimit exactly the classes equal on h bytes. */
  ghost predicate Classes(b: Block, f: seq<int>, hd: seq<bool>, h: nat) {
    Refined(b, f, hd, h, -1)
  }

  lemma {:induction false} Shallower(b: Block, i: int, j: int, g: nat, h: nat)
    requires g <= h
    ensures LessEq(b, i, j, h) ==> LessEq(b, i, j, g)
    ensures Less(b, i, j, g) ==> Less(b, i, j, h) && LessEq(b, i, j, h) && !Agree(b, i, j, h)
  {
    Trichotomy(b, i, j, g);
    Trichotomy(b, i, j, h);
    if Less(b, j, i, g) { LessMono(b, j, i, g, h); }
    if Less(b, i, j, g) { LessMono(b, i, j, g, h); }
  }

  /** A header at z > r separates everything before z from everything at or after z. */
  lemma {:induction false} Separated(b: Block, f: seq<int>, hd: seq<bool>, h: nat, r: int, x: int, z: int, y: int)
    requires Refined(b, f, hd, h, r) && 0 <= x < z <= y < |b| && r < z && hd[z]
    ensures Less(b, f[x], f[y], h)
  {
    assert LessEq(b, f[z - 1], f[z], Depth(h, r, z));
    if x < z - 1 {
      assert LessEq(b, f[x], f[z - 1], Depth(h, r, z - 1));
      Shallower(b, f[x], f[z - 1], h, Depth(h, r, z - 1));
      LessEqTrans(b, f[x], f[z - 1], f[z], h);
    }
    if z < y {
      assert LessEq(b, f[z], f[y], Depth(h, r, y));
      LessEqTrans(b, f[x], f[z], f[y], h);
    }
  }

  /** Classes of one rotation need no further sorting. */
  lemma {:induction false} SkipSingletons(b: Block, f: seq<int>, hd: seq<bool>, h: nat, r: int, r': int)
    requires Refined(b, f, hd, h, r) && r <= r' < |b|
    requires forall z | r < z <= r' + 1 :: hd[z]
    ensures Refined(b, f, hd, h, r')
  {
    forall x, y | 0 <= x < y < |b| ensures LessEq(b, f[x], f[y], Depth(h, r', y)) {
      assert LessEq(b, f[x], f[y], Depth(h, r, y));
      if r < y <= r' {
        Separated(b, f, hd, h, r, x, y, y);
        Shallower(b, f[x], f[y], h, 2 * h);
      }
    }
    forall x | 1 <= x < |b| ensures hd[x] <==> !Agree(b, f[x - 1], f[x], Depth(h, r', x)) {
      if r < x <= r' {
        Separated(b, f, hd, h, r, x - 1, x, x);
        Shallower(b, f[x - 1], f[x], h, 2 * h);
      }
    }
  }

  /** The ranks that order a class: equal and less exactly as the rotations h bytes further on. */
  ghost predicate Ranks(b: Block, e: seq<int>, h: nat) {
    && |e| >= |b|
    && forall i, j {:trigger e[i], e[j]} | 0 <= i < |b| && 0 <= j < |b| ::
         && (e[i] == e[j] <==> Agree(b, i + h, j + h, h))
         && (e[i] < e[j] <==> Less(b, i + h, j + h, h))
  }

  lemma {:induction false} WithinClass(b: Block, f: seq<int>, hd: seq<bool>, h: nat, r0: int, x: int, y: int)
    requires Refined(b, f, hd, h, r0) && r0 < x <= y < |b|
    requires forall z | x < z <= y :: !hd[z]
    ensures Agree(b, f[x], f[y], h)
    decreases y
  {
    if x < y {
      WithinClass(b, f, hd, h, r0, x, y - 1);
      assert !hd[y];
    }
  }

  /** Two rotations equal on h bytes are ordered on 2h bytes as their ranks say. */
  lemma {:induction false} RankOrder(b: Block, e: seq<int>, h: nat, i: int, j: int)
    requires Ranks(b, e, h) && 0 <= i < |b| && 0 <= j < |b| && Agree(b, i, j, h)
    ensures e[i] <= e[j] ==> LessEq(b, i, j, 2 * h)
    ensures e[i] == e[j] <==> Agree(b, i, j, 2 * h)
  {
    SplitLess(b, i, j, h, h);
    SplitAgree(b, i, j, h, h);
    assert h + h == 2 * h;
  }

  /** A class l..r put in order of its ranks, with headers wherever the rank changes. */
  ghost predicate ClassSorted(f: seq<int>, hd: seq<bool>, f': seq<int>, hd': seq<bool>, e: seq<int>, n: int, l: int,
    r: int) {
    && |f'| == |f| == n && |hd'| == |hd| > n && 0 <= l <= r < n
    && Rearranged(f, f', l, r) && InRange(f', e, l, r) && KeysSorted(f', e, l, r)
    && (forall z | 0 <= z < |hd| && !(l <= z <= r) :: hd'[z] == hd[z])
    && (forall z {:trigger hd'[z]} | l <= z <= r :: hd'[z] <==> z == l || Key(f', e, z - 1) != Key(f', e, z))
  }

  lemma {:induction false} ClassPair(b: Block, f: seq<int>, hd: seq<bool>, f': seq<int>, hd': seq<bool>, e: seq<int>,
    h: nat, l: int, r: int, x: int, y: int)
    requires Refined(b, f, hd, h, l - 1) && Ranks(b, e, h) && ClassSorted(f, hd, f', hd', e, |b|, l, r)
    requires hd[r + 1] && forall z | l < z <= r :: !hd[z]
    requires 0 <= x < y < |b|
    ensures 0 <= f'[x] < |b| && 0 <= f'[y] < |b|
    ensures LessEq(b, f'[x], f'[y], Depth(h, r, y))
    ensures x < l <= y <= r || l <= x <= r < y ==> Less(b, f'[x], f'[y], h)
    ensures l <= x < y <= r ==> (Key(f', e, x) == Key(f', e, y) <==> Agree(b, f'[x], f'[y], 2 * h))
  {
    var x0, y0 := x, y;
    if l <= x <= r { x0 := RearrangedFrom(f, f', l, r, x); }
    if l <= y <= r { y0 := RearrangedFrom(f, f', l, r, y); }
    assert f[x0] == f'[x] && f[y0] == f'[y];
    if x < l <= y <= r {
      Separated(b, f, hd, h, l - 1, x0, l, y0);
      Shallower(b, f[x0], f[y0], h, 2 * h);
    } else if l <= x <= r < y {
      Separated(b, f, hd, h, l - 1, x0, r + 1, y0);
    } else if l <= x && y <= r {
      InOneClass(b, f, hd, h, l, r, x0, y0);
      RankOrder(b, e, h, f[x0], f[y0]);
      assert Key(f', e, x) <= Key(f', e, y);
    } else {
      assert LessEq(b, f[x0], f[y0], Depth(h, l - 1, y0));
    }
  }

  lemma {:induction false} InOneClass(b: Block, f: seq<int>, hd: seq<bool>, h: nat, l: int, r: int, x: int, y: int)
    requires Refined(b, f, hd, h, l - 1) && l <= r < |b|
    requires forall z | l < z <= r :: !hd[z]
    requires l <= x <= r && l <= y <= r
    ensures Agree(b, f[x], f[y], h)
  {
    WithinClass(b, f, hd, h, l - 1, if x < y then x else y, if x < y then y else x);
  }

  // ---- rearranging keeps permutations

  lemma {:induction false} CountDistinct(s: seq<int>, v: int)
    requires forall x, y | 0 <= x < y < |s| :: s[x] != s[y]
    ensures multiset(s)[v] <= 1
  {
    if s != [] {
      var k := |s| - 1;
      assert s == s[..k] + [s[k]];
      CountDistinct(s[..k], v);
      assert v == s[k] ==> v !in s[..k];
    }
  }

  lemma {:induction false} CountTwice(s: seq<int>, x: int, y: int)
    requires 0 <= x < y < |s| && s[x] == s[y]
    ensures multiset(s)[s[x]] >= 2
  {
    assert s == s[..y] + [s[y]] + s[y + 1..];
    assert s[..y][x] == s[x];
    assert s[x] in multiset(s[..y]);
    assert multiset(s) == multiset(s[..y]) + multiset([s[y]]) + multiset(s[y + 1..]);
  }

  lemma {:induction false} RearrangedPerm(f: seq<int>, g: seq<int>, lo: int, hi: int)
    requires IsPerm(f, |f|) && Rearranged(f, g, lo, hi) && 0 <= lo <= hi < |f|
    ensures IsPerm(g, |f|)
  {
    forall x | 0 <= x < |f| ensures 0 <= g[x] < |f| {
      if lo <= x <= hi { var y := RearrangedFrom(f, g, lo, hi, x); }
    }
    forall x, y | 0 <= x < y < |f| ensures g[x] != g[y] {
      CountDistinct(f, g[x]);
      if g[x] == g[y] { CountTwice(g, x, y); }
    }
  }

  // ---- one class at a time

  /** Sorting the next class by rank, and marking it, extends the refined part over it. */
  lemma {:induction false} RefineClass(b: Block, f: seq<int>, hd: seq<bool>, f': seq<int>, hd': seq<bool>, e: seq<int>,
    h: nat, l: int, r: int)
    requires Refined(b, f, hd, h, l - 1) && Ranks(b, e, h) && ClassSorted(f, hd, f', hd', e, |b|, l, r)
    requires hd[r + 1] && forall z | l < z <= r :: !hd[z]
    ensures Refined(b, f', hd', h, r)
  {
    RearrangedPerm(f, f', l, r);
    forall x, y | 0 <= x < y < |b| ensures LessEq(b, f'[x], f'[y], Depth(h, r, y)) {
      ClassPair(b, f, hd, f', hd', e, h, l, r, x, y);
    }
    assert hd'[0] && hd'[r + 1];
    forall x | 1 <= x < |b| ensures hd'[x] <==> !Agree(b, f'[x - 1], f'[x], Depth(h, r, x)) {
      HeaderPlace(b, f, hd, f', hd', e, h, l, r, x);
    }
  }

  lemma {:induction false} HeaderPlace(b: Block, f: seq<int>, hd: seq<bool>, f': seq<int>, hd': seq<bool>, e: seq<int>,
    h: nat, l: int, r: int, x: int)
    requires Refined(b, f, hd, h, l - 1) && Ranks(b, e, h) && ClassSorted(f, hd, f', hd', e, |b|, l, r)
    requires hd[r + 1] && forall z | l < z <= r :: !hd[z]
    requires 1 <= x < |b|
    ensures hd'[x] <==> !Agree(b, f'[x - 1], f'[x], Depth(h, r, x))
  {
    ClassPair(b, f, hd, f', hd', e, h, l, r, x - 1, x);
    if x == l || x == r + 1 {
      Shallower(b, f'[x - 1], f'[x], h, 2 * h);
      Trichotomy(b, f'[x - 1], f'[x], h);
    } else if !(l <= x <= r) {
      assert f'[x - 1] == f[x - 1] && f'[x] == f[x];
    }
  }

  // ---- ranks from headers

  /** The last header at or before x: the number all members of a class share. */
  function Start(hd: seq<bool>, x: nat): (j: nat)
    requires x < |hd|
    ensures j <= x
  {
    if x == 0 || hd[x] then x else Start(hd, x - 1)
  }

  lemma {:induction false} StartOrder(hd: seq<bool>, x: nat, y: nat)
    requires x <= y < |hd|
    ensures Start(hd, x) <= Start(hd, y)
    ensures Start(hd, x) == Start(hd, y) <==> forall z | x < z <= y :: !hd[z]
    decreases y
  {
    if x < y {
      if hd[y] {
        assert Start(hd, y) == y;
      } else {
        StartOrder(hd, x, y - 1);
      }
    }
  }

  lemma {:induction false} StartCompares(b: Block, f: seq<int>, hd: seq<bool>, h: nat, x: nat, y: nat)
    requires Classes(b, f, hd, h) && x < |b| && y < |b|
    ensures Start(hd, x) == Start(hd, y) <==> Agree(b, f[x], f[y], h)
    ensures Start(hd, x) < Start(hd, y) <==> Less(b, f[x], f[y], h)
  {
    var lo, hi := if x < y then x else y, if x < y then y else x;
    StartOrder(hd, lo, hi);
    if z :| lo < z <= hi && hd[z] {
      Separated(b, f, hd, h, -1, lo, z, hi);
    } else {
      WithinClass(b, f, hd, h, -1, lo, hi);
    }
    Trichotomy(b, f[x], f[y], h);
    Trichotomy(b, f[y], f[x], h);
    AgreeSym(b, f[lo], f[hi], h);
  }

  lemma {:induction false} AgreeSym(b: Block, i: int, j: int, h: nat)
    ensures Agree(b, i, j, h) ==> Agree(b, j, i, h)
  {
  }

  /** The rotation h bytes before rotation i. */
  function Back(i: int, h: nat, n: nat): int {
    if i - h < 0 then i - h + n else i - h
  }

  lemma {:induction false} BackOnto(p: int, h: nat, n: nat) returns (i: int)
    requires 0 <= p < n && h <= n
    ensures 0 <= i < n && Back(i, h, n) == p
  {
    i := if p + h < n then p + h else p + h - n;
  }

  lemma {:induction false} RanksFromClasses(b: Block, f: seq<int>, hd: seq<bool>, e: seq<int>, h: nat)
    requires Classes(b, f, hd, h) && h <= |b| <= |e|
    requires forall x {:trigger f[x]} | 0 <= x < |b| :: e[Back(f[x], h, |b|)] == Start(hd, x)
    ensures Ranks(b, e, h)
  {
    var n := |b|;
    forall i, j | 0 <= i < n && 0 <= j < n
      ensures e[i] == e[j] <==> Agree(b, i + h, j + h, h)
      ensures e[i] < e[j] <==> Less(b, i + h, j + h, h)
    {
      var x := AtRank(b, f, h, i);
      var y := AtRank(b, f, h, j);
      StartCompares(b, f, hd, h, x, y);
      ForwardSame(b, f[x], f[y], i, j, h);
    }
  }

  lemma {:induction false} AtRank(b: Block, f: seq<int>, h: nat, i: int) returns (x: int)
    requires IsPerm(f, |b|) && h <= |b| && 0 <= i < |b|
    ensures 0 <= x < |b| && Back(f[x], h, |b|) == i
  {
    var v := BackOnto(i, h, |b|);
    Surjective(f, |b|, v);
    x :| 0 <= x < |b| && f[x] == v;
  }

  lemma {:induction false} ForwardSame(b: Block, v: int, w: int, i: int, j: int, h: nat)
    requires Back(v, h, |b|) == i && Back(w, h, |b|) == j
    ensures Agree(b, v, w, h) <==> Agree(b, i + h, j + h, h)
    ensures Less(b, v, w, h) <==> Less(b, i + h, j + h, h)
  {
    Wrap(b, v, w, h);
    Wrap(b, v, w + |b|, h);
  }

  // ---- the end

  lemma {:induction false} NextLevel(b: Block, f: seq<int>, hd: seq<bool>, h: nat)
    requires Refined(b, f, hd, h, |b| - 1)
    ensures Classes(b, f, hd, 2 * h)
  {
    forall x, y | 0 <= x < y < |b| ensures LessEq(b, f[x], f[y], Depth(2 * h, -1, y)) {
      assert LessEq(b, f[x], f[y], Depth(h, |b| - 1, y));
    }
  }

  /** Sorted on at least a whole turn, the rotations are sorted. */
  lemma {:induction false} DeepEnough(b: Block, f: seq<int>, hd: seq<bool>, h: nat)
    requires Classes(b, f, hd, h) && h >= |b|
    ensures IsRotationOrder(b, f)
  {
    forall x, y | 0 <= x < y < |b| ensures RotLe(b, f[x], f[y]) {
      assert LessEq(b, f[x], f[y], Depth(h, -1, y));
      LongOrder(b, f[x], f[y], h);
    }
  }

  /** With a header everywhere every class is one rotation and the order is final. */
  lemma {:induction false} AllSeparate(b: Block, f: seq<int>, hd: seq<bool>, h: nat)
    requires Classes(b, f, hd, h) && h <= |b|
    requires forall z | 0 <= z < |b| :: hd[z]
    ensures IsRotationOrder(b, f)
  {
    forall x, y | 0 <= x < y < |b| ensures RotLe(b, f[x], f[y]) {
      Separated(b, f, hd, h, -1, x, y, y);
      LessMono(b, f[x], f[y], h, |b|);
    }
  }
}
