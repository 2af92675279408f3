/**
 * The in-place 3-way quicksort of the fallback block sorter: fmap[lo..hi] is put in order
 * of eclass[fmap[x]], with an explicit stack of 100 spans.
 */
module FallbackQSort {
  import opened Bits

  const SMALL_THRESH := 10
  const STACK_SIZE := 100
  const INT32_LIMIT := 0x8000_0000

  /** g is f with the elements at lo..hi (both included) rearranged. */
  ghost predicate Rearranged(f: seq<int>, g: seq<int>, lo: int, hi: int) {
    && |f| == |g|
    && (forall x | 0 <= x < |f| && !(lo <= x <= hi) :: g[x] == f[x])
    && multiset(f) == multiset(g)
  }

  /** The sort key of position x; 0 where f holds no index into e. */
  function Key(f: seq<int>, e: seq<int>, x: int): int
    requires 0 <= x < |f|
  {
    if 0 <= f[x] < |e| then e[f[x]] else 0
  }

  ghost predicate InRange(f: seq<int>, e: seq<int>, lo: int, hi: int) {
    0 <= lo <= hi + 1 <= |f| && forall x | lo <= x <= hi :: 0 <= f[x] < |e|
  }

  ghost predicate KeysSorted(f: seq<int>, e: seq<int>, lo: int, hi: int)
    requires 0 <= lo <= hi + 1 <= |f|
  {
    forall x, y {:trigger Key(f, e, x), Key(f, e, y)} | lo <= x < y <= hi :: Key(f, e, x) <= Key(f, e, y)
  }

  lemma {:induction false} CancelMiddle(a: seq<int>, m1: seq<int>, m2: seq<int>, c: seq<int>)
    requires multiset(a + m1 + c) == multiset(a + m2 + c)
    ensures multiset(m1) == multiset(m2)
  {
    assert multiset(a + m1 + c) == multiset(a) + multiset(m1) + multiset(c);
    assert multiset(a + m2 + c) == multiset(a) + multiset(m2) + multiset(c);
    forall v ensures multiset(m1)[v] == multiset(m2)[v] {
      assert (multiset(a) + multiset(m1) + multiset(c))[v] == (multiset(a) + multiset(m2) + multiset(c))[v];
    }
  }

  lemma {:induction false} RangeContents(f: seq<int>, g: seq<int>, lo: int, hi: int)
    requires Rearranged(f, g, lo, hi) && 0 <= lo <= hi < |f|
    ensures multiset(f[lo..hi + 1]) == multiset(g[lo..hi + 1])
  {
    var a, c := f[..lo], f[hi + 1..];
    assert f == a + f[lo..hi + 1] + c;
    assert g == a + g[lo..hi + 1] + c;
    CancelMiddle(a, f[lo..hi + 1], g[lo..hi + 1], c);
  }

  /** Everything a rearranged range holds was in that range before. */
  lemma {:induction false} RearrangedFrom(f: seq<int>, g: seq<int>, lo: int, hi: int, x: int) returns (y: int)
    requires Rearranged(f, g, lo, hi) && 0 <= lo <= x <= hi < |f|
    ensures lo <= y <= hi && f[y] == g[x]
  {
    RangeContents(f, g, lo, hi);
    var fm, gm := f[lo..hi + 1], g[lo..hi + 1];
    assert gm[x - lo] == g[x];
    assert g[x] in multiset(fm);
    var z :| 0 <= z < |fm| && fm[z] == g[x];
    y := lo + z;
  }

  lemma {:induction false} RearrangedInRange(f: seq<int>, g: seq<int>, e: seq<int>, lo: int, hi: int)
    requires Rearranged(f, g, lo, hi) && InRange(f, e, lo, hi)
    ensures InRange(g, e, lo, hi)
  {
    forall x | lo <= x <= hi ensures 0 <= g[x] < |e| {
      var y := RearrangedFrom(f, g, lo, hi, x);
    }
  }

  /** Swapping the travelling element at d with a later one keeps a rearrangement. */
  lemma {:induction false} MoveOn(f0: seq<int>, g: seq<int>, d: int, j: int, lo: int, hi: int)
    requires 0 <= lo <= d < j <= hi < |g| && Rearranged(f0, g, lo, hi)
    ensures Rearranged(f0, g[d := g[j]][j := g[d]], lo, hi)
  {
  }

  /**
   * With stride 1: the travelling element has come from i to j; the keys it passed moved
   * left by one and are all below its own.
   */
  ghost predicate Shifted(f0: seq<int>, g: seq<int>, e: seq<int>, i: int, j: int, hi: int, h: int)
    requires 0 <= i <= j <= hi < |g| == |f0|
  {
    h == 1 ==>
      && g[j] == f0[i]
      && (forall x {:trigger f0[x]} | i < x <= j :: g[x - 1] == f0[x] && Key(f0, e, x) < Key(f0, e, i))
      && (forall x | j < x <= hi :: g[x] == f0[x])
  }

  lemma {:induction false} NotShifted(f0: seq<int>, e: seq<int>, i: int, hi: int, h: int)
    requires 0 <= i <= hi < |f0|
    ensures Rearranged(f0, f0, i, hi) && Shifted(f0, f0, e, i, i, hi, h)
  {
  }

  lemma {:induction false} ShiftedStep(f0: seq<int>, g: seq<int>, e: seq<int>, i: int, j: int, hi: int, h: int)
    requires h >= 1 && 0 <= i <= j && j + h <= hi < |g| == |f0|
    requires Shifted(f0, g, e, i, j, hi, h) && Key(g, e, j + h) < Key(g, e, j)
    ensures Shifted(f0, g[j := g[j + h]][j + h := g[j]], e, i, j + h, hi, h)
  {
    var g' := g[j := g[j + h]][j + h := g[j]];
    if h == 1 {
      assert g'[j + 1] == f0[i] && g'[j] == f0[j + 1];
      forall x | i < x <= j + 1 ensures g'[x - 1] == f0[x] && Key(f0, e, x) < Key(f0, e, i) {
        if x <= j {
          assert g'[x - 1] == g[x - 1];
        }
      }
    }
  }

  lemma {:induction false} ShiftedSorted(f0: seq<int>, g: seq<int>, e: seq<int>, i: int, j: int, hi: int, h: int)
    requires 0 <= i <= j <= hi < |g| == |f0| && h >= 1
    requires Shifted(f0, g, e, i, j, hi, h)
    requires j + h <= hi ==> Key(g, e, j) <= Key(g, e, j + h)
    ensures h == 1 && KeysSorted(f0, e, i + 1, hi) ==> KeysSorted(g, e, i, hi)
  {
    if h == 1 && KeysSorted(f0, e, i + 1, hi) {
      forall x, y | i <= x < y <= hi ensures Key(g, e, x) <= Key(g, e, y) {
        var x0, y0 := if x < j then x + 1 else x, if y < j then y + 1 else y;
        assert x != j ==> g[x] == f0[x0];
        assert y != j ==> g[y] == f0[y0];
        assert y < j ==> Key(f0, e, x0) <= Key(f0, e, y0);
        assert j < x ==> Key(f0, e, x0) <= Key(f0, e, y0);
        assert j < y ==> Key(f0, e, j + 1) <= Key(f0, e, y0);
      }
    }
  }

  /** One insertion with stride h: fmap[i] moves right past the smaller keys i + h, i + 2h, ... */
  method ShiftIn(fmap: array<int>, eclass: array<int>, i: int, hi: int, h: int)
    requires fmap != eclass && 0 <= i <= hi && h >= 1
    requires InRange(fmap[..], eclass[..], i, hi)
    modifies fmap
    ensures Rearranged(old(fmap[..]), fmap[..], i, hi)
    ensures h == 1 && old(KeysSorted(fmap[..], eclass[..], i + 1, hi)) ==> KeysSorted(fmap[..], eclass[..], i, hi)
  {
    hide Rearranged, Shifted, KeysSorted;
    ghost var f0, e := fmap[..], eclass[..];
    ghost var g := f0;
    NotShifted(f0, e, i, hi, h);
    var tmp := fmap[i];
    var ec_tmp := eclass[tmp];
    var j := i + h;
    ghost var d := i;
    while j <= hi && ec_tmp > eclass[fmap[j]]
      invariant i <= d <= hi && j == d + h && |g| == fmap.Length
      invariant Rearranged(f0, g, i, hi)
      invariant forall x | i <= x <= hi :: 0 <= g[x] < eclass.Length
      invariant g[d] == tmp && forall x | 0 <= x < fmap.Length && x != d :: fmap[x] == g[x]
      invariant Shifted(f0, g, e, i, d, hi, h)
      decreases hi - j
    {
      MoveOn(f0, g, d, j, i, hi);
      ShiftedStep(f0, g, e, i, d, hi, h);
      fmap[j - h] := fmap[j];
      g := g[d := g[j]][j := tmp];
      d := j;
      j := j + h;
    }
    fmap[j - h] := tmp;
    assert fmap[..] == g;
    ShiftedSorted(f0, g, e, i, d, hi, h);
  }

  method FallbackSimpleSort(fmap: array<int>, eclass: array<int>, lo: int, hi: int)
    requires fmap != eclass && InRange(fmap[..], eclass[..], lo, hi)
    modifies fmap
    ensures Rearranged(old(fmap[..]), fmap[..], lo, hi)
    ensures KeysSorted(fmap[..], eclass[..], lo, hi)
  {
    if lo == hi { return; }
    ghost var f0 := fmap[..];
    if hi - lo > 3 {
      var i := hi - 4;
      while i >= lo
        invariant lo - 1 <= i <= hi - 4
        invariant Rearranged(f0, fmap[..], lo, hi)
      {
        RearrangedInRange(f0, fmap[..], eclass[..], lo, hi);
        ShiftIn(fmap, eclass, i, hi, 4);
        i := i - 1;
      }
    }
    var i := hi - 1;
    while i >= lo
      invariant lo - 1 <= i || hi < lo
      invariant i <= hi - 1
      invariant Rearranged(f0, fmap[..], lo, hi)
      invariant lo <= hi ==> KeysSorted(fmap[..], eclass[..], i + 1, hi)
    {
      RearrangedInRange(f0, fmap[..], eclass[..], lo, hi);
      ShiftIn(fmap, eclass, i, hi, 1);
      i := i - 1;
    }
  }

  // ---- 3-way partitioning

  /**
   * The state of a partition around med: equal keys at both ends, lesser ones after the left
   * end, greater ones before the right end, and lo'..hi' (unLo..unHi) still to be looked at.
   */
  ghost predicate Parted(g: seq<int>, e: seq<int>, med: int, lo: int, ltLo: int, unLo: int, unHi: int, gtHi: int,
    hi: int) {
    && 0 <= lo <= ltLo <= unLo <= unHi + 1 <= gtHi + 1 <= hi + 1 <= |g|
    && (forall x | lo <= x < ltLo :: Key(g, e, x) == med)
    && (forall x | ltLo <= x < unLo :: Key(g, e, x) < med)
    && (forall x | unHi < x <= gtHi :: Key(g, e, x) > med)
    && (forall x | gtHi < x <= hi :: Key(g, e, x) == med)
  }

  function Swapped(g: seq<int>, i: int, j: int): (r: seq<int>)
    requires 0 <= i < |g| && 0 <= j < |g|
    ensures |r| == |g|
  {
    g[i := g[j]][j := g[i]]
  }

  lemma {:induction false} SwapKeeps(f0: seq<int>, e: seq<int>, g: seq<int>, i: int, j: int, lo: int, hi: int)
    requires 0 <= lo <= i <= hi < |g| && lo <= j <= hi
    requires Rearranged(f0, g, lo, hi) && InRange(g, e, lo, hi)
    ensures Rearranged(f0, Swapped(g, i, j), lo, hi) && InRange(Swapped(g, i, j), e, lo, hi)
  {
  }

  lemma {:induction false} PartUp(g: seq<int>, e: seq<int>, med: int, lo: int, ltLo: int, unLo: int, unHi: int,
    gtHi: int, hi: int)
    requires Parted(g, e, med, lo, ltLo, unLo, unHi, gtHi, hi) && unLo <= unHi && Key(g, e, unLo) <= med
    ensures Key(g, e, unLo) == med ==>
      Parted(Swapped(g, unLo, ltLo), e, med, lo, ltLo + 1, unLo + 1, unHi, gtHi, hi)
    ensures Key(g, e, unLo) < med ==> Parted(g, e, med, lo, ltLo, unLo + 1, unHi, gtHi, hi)
  {
    var r := Swapped(g, unLo, ltLo);
    assert forall x | 0 <= x < |g| && x != unLo && x != ltLo :: Key(r, e, x) == Key(g, e, x);
    assert Key(r, e, unLo) == Key(g, e, ltLo) && Key(r, e, ltLo) == Key(g, e, unLo);
  }

  lemma {:induction false} PartDown(g: seq<int>, e: seq<int>, med: int, lo: int, ltLo: int, unLo: int, unHi: int,
    gtHi: int, hi: int)
    requires Parted(g, e, med, lo, ltLo, unLo, unHi, gtHi, hi) && unLo <= unHi && Key(g, e, unHi) >= med
    ensures Key(g, e, unHi) == med ==>
      Parted(Swapped(g, unHi, gtHi), e, med, lo, ltLo, unLo, unHi - 1, gtHi - 1, hi)
    ensures Key(g, e, unHi) > med ==> Parted(g, e, med, lo, ltLo, unLo, unHi - 1, gtHi, hi)
  {
    var r := Swapped(g, unHi, gtHi);
    assert forall x | 0 <= x < |g| && x != unHi && x != gtHi :: Key(r, e, x) == Key(g, e, x);
    assert Key(r, e, unHi) == Key(g, e, gtHi) && Key(r, e, gtHi) == Key(g, e, unHi);
  }

  lemma {:induction false} PartSwap(g: seq<int>, e: seq<int>, med: int, lo: int, ltLo: int, unLo: int, unHi: int,
    gtHi: int, hi: int)
    requires Parted(g, e, med, lo, ltLo, unLo, unHi, gtHi, hi) && unLo < unHi
    requires Key(g, e, unLo) > med && Key(g, e, unHi) < med
    ensures Parted(Swapped(g, unLo, unHi), e, med, lo, ltLo, unLo + 1, unHi - 1, gtHi, hi)
  {
    var r := Swapped(g, unLo, unHi);
    assert forall x | 0 <= x < |g| && x != unLo && x != unHi :: Key(r, e, x) == Key(g, e, x);
    assert Key(r, e, unLo) == Key(g, e, unHi) && Key(r, e, unHi) == Key(g, e, unLo);
  }

  /** The upward scan: passes lesser keys, collects equal ones at the left end, stops at a greater one. */
  method ScanUp(fmap: array<int>, eclass: array<int>, med: int, lo: int, ltLo0: int, unLo0: int, unHi: int, gtHi: int,
    hi: int)
    returns (ltLo: int, unLo: int)
    requires fmap != eclass && InRange(fmap[..], eclass[..], lo, hi)
    requires Parted(fmap[..], eclass[..], med, lo, ltLo0, unLo0, unHi, gtHi, hi)
    modifies fmap
    ensures Rearranged(old(fmap[..]), fmap[..], lo, hi) && InRange(fmap[..], eclass[..], lo, hi)
    ensures Parted(fmap[..], eclass[..], med, lo, ltLo, unLo, unHi, gtHi, hi) && unLo0 <= unLo
    ensures unLo <= unHi ==> Key(fmap[..], eclass[..], unLo) > med
  {
    ghost var f0, e := fmap[..], eclass[..];
    ltLo, unLo := ltLo0, unLo0;
    while unLo <= unHi
      invariant unLo0 <= unLo
      invariant Parted(fmap[..], e, med, lo, ltLo, unLo, unHi, gtHi, hi)
      invariant Rearranged(f0, fmap[..], lo, hi) && InRange(fmap[..], e, lo, hi)
      decreases unHi - unLo
    {
      var n := eclass[fmap[unLo]] - med;
      if n > 0 { break; }
      ghost var g := fmap[..];
      PartUp(g, e, med, lo, ltLo, unLo, unHi, gtHi, hi);
      if n == 0 {
        SwapKeeps(f0, e, g, unLo, ltLo, lo, hi);
        fmap[unLo], fmap[ltLo] := fmap[ltLo], fmap[unLo];
        assert fmap[..] == Swapped(g, unLo, ltLo);
        ltLo := ltLo + 1;
      }
      unLo := unLo + 1;
    }
  }

  /** The downward scan: passes greater keys, collects equal ones at the right end, stops at a lesser one. */
  method ScanDown(fmap: array<int>, eclass: array<int>, med: int, lo: int, ltLo: int, unLo: int, unHi0: int, gtHi0: int,
    hi: int)
    returns (unHi: int, gtHi: int)
    requires fmap != eclass && InRange(fmap[..], eclass[..], lo, hi)
    requires Parted(fmap[..], eclass[..], med, lo, ltLo, unLo, unHi0, gtHi0, hi)
    modifies fmap
    ensures Rearranged(old(fmap[..]), fmap[..], lo, hi) && InRange(fmap[..], eclass[..], lo, hi)
    ensures Parted(fmap[..], eclass[..], med, lo, ltLo, unLo, unHi, gtHi, hi) && unHi <= unHi0
    ensures unLo <= unHi ==> fmap[unLo] == old(fmap[unLo])
    ensures unLo <= unHi ==> Key(fmap[..], eclass[..], unHi) < med
  {
    ghost var f0, e := fmap[..], eclass[..];
    unHi, gtHi := unHi0, gtHi0;
    while unLo <= unHi
      invariant unHi <= unHi0
      invariant Parted(fmap[..], e, med, lo, ltLo, unLo, unHi, gtHi, hi)
      invariant Rearranged(f0, fmap[..], lo, hi) && InRange(fmap[..], e, lo, hi)
      invariant unLo <= unHi ==> fmap[unLo] == f0[unLo]
      decreases unHi - unLo
    {
      var n := eclass[fmap[unHi]] - med;
      if n < 0 { break; }
      ghost var g := fmap[..];
      PartDown(g, e, med, lo, ltLo, unLo, unHi, gtHi, hi);
      if n == 0 {
        SwapKeeps(f0, e, g, unHi, gtHi, lo, hi);
        fmap[unHi], fmap[gtHi] := fmap[gtHi], fmap[unHi];
        assert fmap[..] == Swapped(g, unHi, gtHi);
        gtHi := gtHi - 1;
      }
      unHi := unHi - 1;
    }
  }

  function Min(a: int, b: int): int {
    if a < b then a else b
  }

  /** g is f with the blocks of length n at p1 and p2 exchanged. */
  ghost predicate BlocksSwapped(f: seq<int>, g: seq<int>, p1: int, p2: int, n: int) {
    && 0 <= n && 0 <= p1 && p1 + n <= p2 && p2 + n <= |f| == |g|
    && (forall x | p1 <= x < p1 + n :: g[x] == f[x + (p2 - p1)])
    && (forall x | p2 <= x < p2 + n :: g[x] == f[x - (p2 - p1)])
    && (forall x | 0 <= x < |f| && !(p1 <= x < p1 + n) && !(p2 <= x < p2 + n) :: g[x] == f[x])
  }

  lemma {:induction false} SwapNext(f: seq<int>, g: seq<int>, p1: int, p2: int, n: int)
    requires BlocksSwapped(f, g, p1, p2, n) && p1 + n < p2 && p2 + n < |f|
    ensures BlocksSwapped(f, Swapped(g, p1 + n, p2 + n), p1, p2, n + 1)
  {
  }

  method VSwap(fmap: array<int>, zzp1: int, zzp2: int, zzn: int, ghost lo: int, ghost hi: int)
    requires 0 <= zzn && 0 <= lo <= zzp1 && zzp1 + zzn <= zzp2 && zzp2 + zzn <= hi + 1 <= fmap.Length
    modifies fmap
    ensures BlocksSwapped(old(fmap[..]), fmap[..], zzp1, zzp2, zzn)
    ensures Rearranged(old(fmap[..]), fmap[..], lo, hi)
  {
    ghost var f := fmap[..];
    var yyp1, yyp2, yyn := zzp1, zzp2, zzn;
    assert BlocksSwapped(f, f, zzp1, zzp2, 0) && Rearranged(f, f, lo, hi);
    hide BlocksSwapped, Rearranged, Swapped;
    ghost var k := 0;
    while yyn > 0
      invariant 0 <= k == zzn - yyn <= zzn && yyp1 == zzp1 + k && yyp2 == zzp2 + k
      invariant BlocksSwapped(f, fmap[..], zzp1, zzp2, k) && Rearranged(f, fmap[..], lo, hi)
    {
      ghost var g := fmap[..];
      SwapNext(f, g, zzp1, zzp2, k);
      MoveOn(f, g, yyp1, yyp2, lo, hi);
      fmap[yyp1], fmap[yyp2] := fmap[yyp2], fmap[yyp1];
      assert fmap[..] == Swapped(g, yyp1, yyp2);
      yyp1, yyp2, yyn, k := yyp1 + 1, yyp2 + 1, yyn - 1, k + 1;
    }
  }

  /** lesser keys at lo..n, keys equal to med between n and m, greater keys at m..hi */
  ghost predicate ThreeWay(g: seq<int>, e: seq<int>, med: int, lo: int, n: int, m: int, hi: int) {
    && 0 <= lo <= n + 1 <= m <= hi + 1 <= |g|
    && (forall x | lo <= x <= n :: Key(g, e, x) < med)
    && (forall x | n < x < m :: Key(g, e, x) == med)
    && (forall x | m <= x <= hi :: Key(g, e, x) > med)
  }

  lemma {:induction false} LeftEnd(f: seq<int>, g: seq<int>, e: seq<int>, med: int, lo: int, ltLo: int, unLo: int,
    gtHi: int, hi: int, n: int)
    requires Parted(f, e, med, lo, ltLo, unLo, unLo - 1, gtHi, hi)
    requires n == Min(ltLo - lo, unLo - ltLo)
    requires BlocksSwapped(f, g, lo, unLo - n, n)
    ensures forall x | lo <= x < lo + unLo - ltLo :: Key(g, e, x) < med
    ensures forall x | lo + unLo - ltLo <= x < unLo :: Key(g, e, x) == med
    ensures forall x | unLo <= x <= hi :: Key(g, e, x) == Key(f, e, x)
  {
    var d := unLo - n - lo;
    forall x | lo <= x < unLo ensures Key(g, e, x) ==
      Key(f, e, if x < lo + n then x + d else if x >= unLo - n then x - d else x) {}
  }

  lemma {:induction false} RightEnd(f: seq<int>, g: seq<int>, e: seq<int>, med: int, unLo: int, gtHi: int, hi: int,
    m: int)
    requires 0 <= unLo <= gtHi + 1 <= hi + 1 <= |f|
    requires forall x | unLo <= x <= gtHi :: Key(f, e, x) > med
    requires forall x | gtHi < x <= hi :: Key(f, e, x) == med
    requires m == Min(hi - gtHi, gtHi - (unLo - 1))
    requires BlocksSwapped(f, g, unLo, hi - m + 1, m)
    ensures forall x | unLo <= x < unLo + (hi - gtHi) :: Key(g, e, x) == med
    ensures forall x | unLo + (hi - gtHi) <= x <= hi :: Key(g, e, x) > med
    ensures forall x | 0 <= x < unLo :: Key(g, e, x) == Key(f, e, x)
  {
    var d := hi - m + 1 - unLo;
    forall x | unLo <= x <= hi ensures Key(g, e, x) ==
      Key(f, e, if x < unLo + m then x + d else if x > hi - m then x - d else x) {}
  }

  lemma {:induction false} EqualKeyPresent(f0: seq<int>, g: seq<int>, e: seq<int>, med: int, lo: int, ltLo: int,
    unLo: int, gtHi: int, hi: int, x: int)
    requires Rearranged(f0, g, lo, hi) && Parted(g, e, med, lo, ltLo, unLo, unLo - 1, gtHi, hi)
    requires lo <= x <= hi && Key(f0, e, x) == med
    ensures ltLo > lo || gtHi < hi
  {
    var y := RearrangedFrom(g, f0, lo, hi, x);
    assert Key(g, e, y) == med;
  }

  lemma {:induction false} RearrangedTrans(f: seq<int>, g: seq<int>, h: seq<int>, lo: int, hi: int)
    requires Rearranged(f, g, lo, hi) && Rearranged(g, h, lo, hi)
    ensures Rearranged(f, h, lo, hi)
  {
  }

  /** The two scans of a partition, run against each other until they meet. */
  method ScanBoth(fmap: array<int>, eclass: array<int>, med: int, lo: int, hi: int)
    returns (ltLo: int, unLo: int, unHi: int, gtHi: int)
    requires fmap != eclass && InRange(fmap[..], eclass[..], lo, hi) && lo <= hi
    modifies fmap
    ensures Rearranged(old(fmap[..]), fmap[..], lo, hi) && InRange(fmap[..], eclass[..], lo, hi)
    ensures unHi == unLo - 1 && Parted(fmap[..], eclass[..], med, lo, ltLo, unLo, unHi, gtHi, hi)
  {
    ghost var f0, e := fmap[..], eclass[..];
    unLo, ltLo := lo, lo;
    unHi, gtHi := hi, hi;
    assert Rearranged(f0, f0, lo, hi);
    hide Rearranged, InRange;
    while true
      invariant Parted(fmap[..], e, med, lo, ltLo, unLo, unHi, gtHi, hi)
      invariant Rearranged(f0, fmap[..], lo, hi) && InRange(fmap[..], e, lo, hi)
      decreases unHi - unLo + 1
    {
      ghost var g0 := fmap[..];
      ltLo, unLo := ScanUp(fmap, eclass, med, lo, ltLo, unLo, unHi, gtHi, hi);
      RearrangedTrans(f0, g0, fmap[..], lo, hi);
      ghost var g1 := fmap[..];
      unHi, gtHi := ScanDown(fmap, eclass, med, lo, ltLo, unLo, unHi, gtHi, hi);
      ghost var g := fmap[..];
      RearrangedTrans(f0, g1, g, lo, hi);
      if unLo > unHi { break; }
      PartSwap(g, e, med, lo, ltLo, unLo, unHi, gtHi, hi);
      SwapKeeps(f0, e, g, unLo, unHi, lo, hi);
      fmap[unLo], fmap[unHi] := fmap[unHi], fmap[unLo];
      assert fmap[..] == Swapped(g, unLo, unHi);
      unLo, unHi := unLo + 1, unHi - 1;
    }
  }

  lemma {:induction false} Collected(f0: seq<int>, f1: seq<int>, f2: seq<int>, e: seq<int>, med: int, lo: int,
    ltLo: int, unLo: int, gtHi: int, hi: int, n: int, m: int)
    requires Parted(f0, e, med, lo, ltLo, unLo, unLo - 1, gtHi, hi)
    requires n == Min(ltLo - lo, unLo - ltLo)
    requires m == Min(hi - gtHi, gtHi - (unLo - 1))
    requires BlocksSwapped(f0, f1, lo, unLo - n, n) && BlocksSwapped(f1, f2, unLo, hi - m + 1, m)
    ensures ThreeWay(f2, e, med, lo, lo + unLo - ltLo - 1, hi - (gtHi - (unLo - 1)) + 1, hi)
  {
    LeftEnd(f0, f1, e, med, lo, ltLo, unLo, gtHi, hi, n);
    RightEnd(f1, f2, e, med, unLo, gtHi, hi, m);
  }

  lemma {:induction false} PartedRange(g: seq<int>, e: seq<int>, med: int, lo: int, ltLo: int, unLo: int, unHi: int,
    gtHi: int, hi: int)
    requires Parted(g, e, med, lo, ltLo, unLo, unHi, gtHi, hi)
    ensures 0 <= lo <= ltLo <= unLo <= unHi + 1 <= gtHi + 1 <= hi + 1 <= |g|
  {
  }

  /** Moves the equal keys from both ends to the middle. */
  method Collect(fmap: array<int>, ghost e: seq<int>, med: int, lo: int, ltLo: int, unLo: int, unHi: int, gtHi: int,
    hi: int)
    returns (n: int, m: int)
    requires unHi == unLo - 1
    requires Parted(fmap[..], e, med, lo, ltLo, unLo, unHi, gtHi, hi)
    modifies fmap
    ensures Rearranged(old(fmap[..]), fmap[..], lo, hi)
    ensures n == lo + unLo - ltLo - 1 && m == hi - (gtHi - unHi) + 1
    ensures ThreeWay(fmap[..], e, med, lo, n, m, hi)
  {
    hide BlocksSwapped, Rearranged, ThreeWay, Parted;
    ghost var f0 := fmap[..];
    PartedRange(f0, e, med, lo, ltLo, unLo, unHi, gtHi, hi);
    n := Min(ltLo - lo, unLo - ltLo);
    m := Min(hi - gtHi, gtHi - unHi);
    VSwap(fmap, lo, unLo - n, n, lo, hi);
    ghost var g := fmap[..];
    VSwap(fmap, unLo, hi - m + 1, m, lo, hi);
    Collected(f0, g, fmap[..], e, med, lo, ltLo, unLo, gtHi, hi, n, m);
    RearrangedTrans(f0, g, fmap[..], lo, hi);
    n := lo + unLo - ltLo - 1;
    m := hi - (gtHi - unHi) + 1;
  }

  /**
   * One partition of fmap[lo..hi] around a key med that occurs there. All keys equal, or
   * the three ranges lo..n, n+1..m-1 (not empty) and m..hi.
   */
  method Partition(fmap: array<int>, eclass: array<int>, lo: int, hi: int, med: int, ghost at: int)
    returns (allEqual: bool, n: int, m: int)
    requires fmap != eclass && InRange(fmap[..], eclass[..], lo, hi)
    requires lo <= at <= hi && Key(fmap[..], eclass[..], at) == med
    modifies fmap
    ensures Rearranged(old(fmap[..]), fmap[..], lo, hi)
    ensures allEqual ==> KeysSorted(fmap[..], eclass[..], lo, hi)
    ensures !allEqual ==> ThreeWay(fmap[..], eclass[..], med, lo, n, m, hi) && n + 1 < m
  {
    ghost var f0, e := fmap[..], eclass[..];
    n, m := 0, 0;
    var ltLo, unLo, unHi, gtHi := ScanBoth(fmap, eclass, med, lo, hi);
    allEqual := gtHi < ltLo;
    if !allEqual {
      ghost var g := fmap[..];
      hide Rearranged, ThreeWay;
      EqualKeyPresent(f0, g, e, med, lo, ltLo, unLo, gtHi, hi, at);
      n, m := Collect(fmap, eclass[..], med, lo, ltLo, unLo, unHi, gtHi, hi);
      RearrangedTrans(f0, g, fmap[..], lo, hi);
    }
  }

  // ---- the explicit stack

  /** A pending span; hi == lo - 1 when it is empty. */
  datatype Span = Span(lo: int, hi: int) {
    function Size(): int { hi - lo + 1 }

    predicate Holds(x: int, y: int) { lo <= x && y <= hi }
  }

  /** A span of this size may stand in slot s of a stack that started with total elements. */
  predicate Fits(size: int, s: nat, total: int) {
    size * Pow2(s) <= total
  }

  lemma {:induction false} FitsHalf(top: int, a: int, c: int, s: nat, total: int)
    requires Fits(top, s, total) && a >= c >= 0 && a + c <= top
    ensures Fits(a, s, total) && Fits(c, s + 1, total)
  {
    var p := Pow2(s);
    MulMono(a, top, p);
    MulMono(2 * c, top, p);
    assert c * (2 * p) == (2 * c) * p;
  }

  lemma {:induction false} MulMono(a: int, b: int, c: nat)
    requires a <= b
    ensures a * c <= b * c
  {
  }

  /** Pending spans lie within lo..hi, do not overlap, and at least halve from one slot to the next. */
  ghost predicate StackOk(st: seq<Span>, lo: int, hi: int) {
    && (forall s | 0 <= s < |st| :: lo <= st[s].lo <= st[s].hi + 1 <= hi + 1)
    && (forall s | 0 <= s < |st| :: Fits(st[s].Size(), s, hi - lo + 1))
    && (forall s, t | 0 <= s < t < |st| :: st[s].hi < st[t].lo || st[t].hi < st[s].lo)
  }

  /** Two positions in the wrong order still share a pending span. */
  ghost predicate Settled(g: seq<int>, e: seq<int>, st: seq<Span>, lo: int, hi: int)
    requires 0 <= lo <= hi + 1 <= |g|
  {
    forall x, y {:trigger Key(g, e, x), Key(g, e, y)} | lo <= x < y <= hi ::
      Key(g, e, x) <= Key(g, e, y) || exists s | 0 <= s < |st| :: st[s].Holds(x, y)
  }

  /** What is left to do: shrinks with every span taken from the stack. */
  function Work(st: seq<Span>): int {
    if st == [] then 0 else Work(st[..|st| - 1]) + 2 * st[|st| - 1].Size() + 1
  }

  lemma {:induction false} WorkPush(st: seq<Span>, a: Span)
    ensures Work(st + [a]) == Work(st) + 2 * a.Size() + 1
  {
    assert (st + [a])[..|st|] == st;
  }

  lemma {:induction false} WorkNonNegative(st: seq<Span>)
    requires forall s | 0 <= s < |st| :: st[s].Size() >= 0
    ensures Work(st) >= 0
  {
    if st != [] { WorkNonNegative(st[..|st| - 1]); }
  }

  /**
   * Rearranging the top span so that a pair out of order lies in one of the new spans
   * keeps the whole range settled with the new spans in place of the old top.
   */
  lemma {:induction false} Resettle(f: seq<int>, g: seq<int>, e: seq<int>, rest: seq<Span>, top: Span, more: seq<Span>,
    lo: int, hi: int)
    requires 0 <= lo <= hi + 1 <= |f| == |g| && lo <= top.lo <= top.hi + 1 <= hi + 1
    requires StackOk(rest + [top], lo, hi) && Settled(f, e, rest + [top], lo, hi)
    requires Rearranged(f, g, top.lo, top.hi)
    requires forall x, y {:trigger Key(g, e, x), Key(g, e, y)} | top.lo <= x < y <= top.hi ::
      Key(g, e, x) <= Key(g, e, y) || exists s | 0 <= s < |more| :: more[s].Holds(x, y)
    ensures Settled(g, e, rest + more, lo, hi)
  {
    var st, st' := rest + [top], rest + more;
    assert st[|rest|] == top;
    forall x, y | lo <= x < y <= hi && Key(g, e, x) > Key(g, e, y)
      ensures exists s | 0 <= s < |st'| :: st'[s].Holds(x, y)
    {
      if top.lo <= x && y <= top.hi {
        var s :| 0 <= s < |more| && more[s].Holds(x, y);
        assert st'[|rest| + s].Holds(x, y);
      } else {
        var x0, y0 := x, y;
        if top.lo <= x <= top.hi { x0 := RearrangedFrom(f, g, top.lo, top.hi, x); }
        if top.lo <= y <= top.hi { y0 := RearrangedFrom(f, g, top.lo, top.hi, y); }
        assert Key(f, e, x0) == Key(g, e, x) && Key(f, e, y0) == Key(g, e, y);
        assert x0 < y0;
        var s :| 0 <= s < |st| && st[s].Holds(x0, y0);
        assert s != |rest|;
        assert st'[s] == st[s];
      }
    }
  }

  /** Pushing the larger part first keeps the sizes halving. */
  lemma {:induction false} PushOk(rest: seq<Span>, top: Span, a: Span, c: Span, lo: int, hi: int)
    requires StackOk(rest + [top], lo, hi)
    requires top.lo <= a.lo <= a.hi + 1 <= top.hi + 1 && top.lo <= c.lo <= c.hi + 1 <= top.hi + 1
    requires a.hi < c.lo || c.hi < a.lo
    requires a.Size() >= c.Size() && a.Size() + c.Size() <= top.Size()
    ensures StackOk(rest + [a, c], lo, hi)
  {
    var st, st' := rest + [top], rest + [a, c];
    hide Fits;
    assert st[|rest|] == top;
    FitsHalf(top.Size(), a.Size(), c.Size(), |rest|, hi - lo + 1);
    forall s | 0 <= s < |st'|
      ensures lo <= st'[s].lo <= st'[s].hi + 1 <= hi + 1 && Fits(st'[s].Size(), s, hi - lo + 1)
    {
      if s < |rest| { assert st'[s] == st[s]; }
    }
    forall s, t | 0 <= s < t < |st'| ensures st'[s].hi < st'[t].lo || st'[t].hi < st'[s].lo {
      if s < |rest| {
        assert st'[s] == st[s];
        if t < |rest| { assert st'[t] == st[t]; }
      }
    }
  }

  /** A span of more than ten elements sits low in the stack: at most 28 slots are ever in use. */
  lemma {:induction false} StackDepth(st: seq<Span>, lo: int, hi: int)
    requires StackOk(st, lo, hi) && st != [] && hi - lo + 1 <= INT32_LIMIT
    requires st[|st| - 1].Size() > SMALL_THRESH
    ensures |st| <= 28
  {
    var k := |st| - 1;
    if k >= 28 {
      Pow2Mono(28, k);
      assert Pow2(28) == 0x1000_0000 by {
        Pow2Values();
        Pow2Sum(24, 4);
      }
      assert st[k].Size() * Pow2(k) >= 11 * Pow2(k) by { MulMono(11, st[k].Size(), Pow2(k)); }
    }
  }

  /** After a partition only pairs within the lesser or within the greater keys may be out of order. */
  lemma {:induction false} ThreeWaySettled(f: seq<int>, g: seq<int>, e: seq<int>, med: int, rest: seq<Span>, top: Span,
    n: int, m: int, more: seq<Span>, lo: int, hi: int)
    requires 0 <= lo <= hi + 1 <= |f| == |g| && lo <= top.lo <= top.hi + 1 <= hi + 1
    requires StackOk(rest + [top], lo, hi) && Settled(f, e, rest + [top], lo, hi)
    requires Rearranged(f, g, top.lo, top.hi) && ThreeWay(g, e, med, top.lo, n, m, top.hi)
    requires more == [Span(top.lo, n), Span(m, top.hi)] || more == [Span(m, top.hi), Span(top.lo, n)]
    ensures Settled(g, e, rest + more, lo, hi)
  {
    forall x, y | top.lo <= x < y <= top.hi && Key(g, e, x) > Key(g, e, y)
      ensures exists s | 0 <= s < |more| :: more[s].Holds(x, y)
    {
      if y <= n {
        assert more[if more[0] == Span(top.lo, n) then 0 else 1].Holds(x, y);
      } else {
        assert m <= x;
        assert more[if more[0] == Span(m, top.hi) then 0 else 1].Holds(x, y);
      }
    }
    Resettle(f, g, e, rest, top, more, lo, hi);
  }

  lemma {:induction false} SortedSettled(f: seq<int>, g: seq<int>, e: seq<int>, rest: seq<Span>, top: Span, lo: int,
    hi: int)
    requires 0 <= lo <= hi + 1 <= |f| == |g| && lo <= top.lo <= top.hi + 1 <= hi + 1
    requires StackOk(rest + [top], lo, hi) && Settled(f, e, rest + [top], lo, hi)
    requires Rearranged(f, g, top.lo, top.hi) && KeysSorted(g, e, top.lo, top.hi)
    ensures Settled(g, e, rest, lo, hi)
  {
    Resettle(f, g, e, rest, top, [], lo, hi);
    assert rest + [] == rest;
  }

  lemma {:induction false} Widen(f: seq<int>, g: seq<int>, h: seq<int>, e: seq<int>, l: int, r: int, lo: int, hi: int)
    requires 0 <= lo <= l <= r + 1 <= hi + 1 <= |f|
    requires Rearranged(f, g, lo, hi) && Rearranged(g, h, l, r) && InRange(g, e, lo, hi)
    ensures Rearranged(f, h, lo, hi) && InRange(h, e, lo, hi)
  {
    RearrangedInRange(g, h, e, lo, hi);
  }

  lemma {:induction false} TopSpan(rest: seq<Span>, top: Span, lo: int, hi: int)
    requires StackOk(rest + [top], lo, hi)
    ensures StackOk(rest, lo, hi) && lo <= top.lo <= top.hi + 1 <= hi + 1
    ensures 0 <= Work(rest) < Work(rest + [top])
  {
    var st := rest + [top];
    assert st[|rest|] == top;
    assert forall s | 0 <= s < |rest| :: st[s] == rest[s];
    WorkPush(rest, top);
    WorkNonNegative(rest);
  }

  lemma {:induction false} WorkPushTwo(rest: seq<Span>, top: Span, a: Span, c: Span)
    requires a.Size() + c.Size() < top.Size()
    ensures Work(rest + [a, c]) < Work(rest + [top])
  {
    WorkPush(rest, top);
    WorkPush(rest, a);
    WorkPush(rest + [a], c);
    assert rest + [a] + [c] == rest + [a, c];
  }

  ghost predicate Mirrors(los: array<int>, his: array<int>, st: seq<Span>)
    reads los, his
  {
    && |st| <= los.Length && |st| <= his.Length
    && forall s | 0 <= s < |st| :: los[s] == st[s].lo && his[s] == st[s].hi
  }

  method Push(stackLo: array<int>, stackHi: array<int>, sp: int, lo: int, hi: int, ghost st: seq<Span>)
    returns (sp': int)
    requires stackLo != stackHi && stackLo.Length == stackHi.Length == STACK_SIZE
    requires |st| == sp < STACK_SIZE && Mirrors(stackLo, stackHi, st)
    modifies stackLo, stackHi
    ensures sp' == sp + 1 && Mirrors(stackLo, stackHi, st + [Span(lo, hi)])
  {
    stackLo[sp] := lo;
    stackHi[sp] := hi;
    sp' := sp + 1;
  }

  method Pop(stackLo: array<int>, stackHi: array<int>, sp: int, ghost st: seq<Span>)
    returns (sp': int, lo: int, hi: int)
    requires |st| == sp > 0 && Mirrors(stackLo, stackHi, st)
    ensures sp' == sp - 1 && Top(st) == Span(lo, hi) && Mirrors(stackLo, stackHi, Rest(st))
  {
    sp' := sp - 1;
    lo, hi := stackLo[sp'], stackHi[sp'];
  }

  /** Everything the sorting loop keeps. */
  ghost predicate Underway(f0: seq<int>, g: seq<int>, e: seq<int>, st: seq<Span>, lo: int, hi: int) {
    && 0 <= lo <= hi + 1 <= |f0| == |g|
    && Rearranged(f0, g, lo, hi) && InRange(g, e, lo, hi)
    && StackOk(st, lo, hi) && Settled(g, e, st, lo, hi)
  }

  lemma {:induction false} Begin(f0: seq<int>, e: seq<int>, lo: int, hi: int)
    requires InRange(f0, e, lo, hi)
    ensures Underway(f0, f0, e, [Span(lo, hi)], lo, hi)
  {
    var st := [Span(lo, hi)];
    assert st[0].Holds(lo, hi);
  }

  function Top(st: seq<Span>): Span
    requires |st| > 0
  {
    st[|st| - 1]
  }

  function Rest(st: seq<Span>): (r: seq<Span>)
    requires |st| > 0
    ensures |r| == |st| - 1 && r + [Top(st)] == st
  {
    st[..|st| - 1]
  }

  lemma {:induction false} TopReady(f0: seq<int>, f: seq<int>, e: seq<int>, st: seq<Span>, lo: int, hi: int)
    requires Underway(f0, f, e, st, lo, hi) && |st| > 0
    ensures lo <= Top(st).lo <= Top(st).hi + 1 <= hi + 1 && InRange(f, e, Top(st).lo, Top(st).hi)
    ensures 0 <= Work(Rest(st)) < Work(st)
    ensures Top(st).Size() > SMALL_THRESH && hi - lo + 1 <= INT32_LIMIT ==> |st| <= 28
  {
    TopSpan(Rest(st), Top(st), lo, hi);
    if Top(st).Size() > SMALL_THRESH && hi - lo + 1 <= INT32_LIMIT {
      StackDepth(st, lo, hi);
    }
  }

  lemma {:induction false} TopSorted(f0: seq<int>, f: seq<int>, g: seq<int>, e: seq<int>, st: seq<Span>, lo: int,
    hi: int)
    requires Underway(f0, f, e, st, lo, hi) && |st| > 0
    requires InRange(f, e, Top(st).lo, Top(st).hi)
    requires Rearranged(f, g, Top(st).lo, Top(st).hi) && KeysSorted(g, e, Top(st).lo, Top(st).hi)
    ensures Underway(f0, g, e, Rest(st), lo, hi)
  {
    var rest, top := Rest(st), Top(st);
    TopSpan(rest, top, lo, hi);
    SortedSettled(f, g, e, rest, top, lo, hi);
    Widen(f0, f, g, e, top.lo, top.hi, lo, hi);
  }

  lemma {:induction false} TopDivided(f0: seq<int>, f: seq<int>, g: seq<int>, e: seq<int>, med: int, st: seq<Span>,
    n: int, m: int, lo: int, hi: int)
    requires Underway(f0, f, e, st, lo, hi) && |st| > 0
    requires Rearranged(f, g, Top(st).lo, Top(st).hi) && ThreeWay(g, e, med, Top(st).lo, n, m, Top(st).hi) && n + 1 < m
    ensures Underway(f0, g, e, Rest(st) + Parts(Top(st), n, m), lo, hi)
    ensures Work(Rest(st) + Parts(Top(st), n, m)) < Work(st)
  {
    var rest, top := Rest(st), Top(st);
    TopSpan(rest, top, lo, hi);
    Widen(f0, f, g, e, top.lo, top.hi, lo, hi);
    assert top.lo <= n + 1 && m <= top.hi + 1;
    hide StackOk, Settled, Rearranged, InRange, ThreeWay, Work;
    var more := Parts(top, n, m);
    ThreeWaySettled(f, g, e, med, rest, top, n, m, more, lo, hi);
    assert more == [more[0], more[1]];
    PushOk(rest, top, more[0], more[1], lo, hi);
    WorkPushTwo(rest, top, more[0], more[1]);
  }

  lemma {:induction false} Finished(f0: seq<int>, g: seq<int>, e: seq<int>, st: seq<Span>, lo: int, hi: int)
    requires Underway(f0, g, e, st, lo, hi) && |st| == 0
    ensures Rearranged(f0, g, lo, hi) && KeysSorted(g, e, lo, hi)
  {
  }

  /** The two spans a partition leaves, the larger first. */
  function Parts(top: Span, n: int, m: int): (r: seq<Span>)
    ensures |r| == 2
  {
    if n - top.lo > top.hi - m then [Span(top.lo, n), Span(m, top.hi)] else [Span(m, top.hi), Span(top.lo, n)]
  }

  method PushParts(stackLo: array<int>, stackHi: array<int>, sp: int, lo: int, hi: int, n: int, m: int,
    ghost st: seq<Span>)
    returns (sp': int)
    requires stackLo != stackHi && stackLo.Length == stackHi.Length == STACK_SIZE
    requires |st| == sp < STACK_SIZE - 1 && Mirrors(stackLo, stackHi, st)
    modifies stackLo, stackHi
    ensures sp' == sp + 2 && Mirrors(stackLo, stackHi, st + Parts(Span(lo, hi), n, m))
  {
    if n - lo > hi - m {
      sp' := Push(stackLo, stackHi, sp, lo, n, st);
      sp' := Push(stackLo, stackHi, sp', m, hi, st + [Span(lo, n)]);
      assert st + [Span(lo, n)] + [Span(m, hi)] == st + Parts(Span(lo, hi), n, m);
    } else {
      sp' := Push(stackLo, stackHi, sp, m, hi, st);
      sp' := Push(stackLo, stackHi, sp', lo, n, st + [Span(m, hi)]);
      assert st + [Span(m, hi)] + [Span(lo, n)] == st + Parts(Span(lo, hi), n, m);
    }
  }

  /** The next pseudo-random number decides between the first, the middle and the last position. */
  method PickPivot(r0: int, lo: int, hi: int) returns (r: int, at: int)
    requires lo <= hi
    ensures lo <= at <= hi
  {
    r := ((r0 * 7621) + 1) % 32768;
    var r3 := r % 3;
    at := if r3 == 0 then lo else if r3 == 1 then (lo + hi) / 2 else hi;
  }

  /** Partitions the span just popped and pushes what is left of it. */
  method Divide(fmap: array<int>, eclass: array<int>, stackLo: array<int>, stackHi: array<int>, sp: int, lo: int,
    hi: int, r: int, ghost f0: seq<int>, ghost st: seq<Span>, ghost loSt: int, ghost hiSt: int)
    returns (sp': int, r': int, ghost st': seq<Span>)
    requires fmap != eclass && stackLo != stackHi
    requires fmap != stackLo && fmap != stackHi && eclass != stackLo && eclass != stackHi
    requires stackLo.Length == stackHi.Length == STACK_SIZE && 0 < |st| == sp + 1 <= 28 &&
      Mirrors(stackLo, stackHi, Rest(st))
    requires Underway(f0, fmap[..], eclass[..], st, loSt, hiSt) && Top(st) == Span(lo, hi)
    requires lo < hi && InRange(fmap[..], eclass[..], lo, hi)
    modifies fmap, stackLo, stackHi
    ensures |st'| == sp' <= 29 && Mirrors(stackLo, stackHi, st')
    ensures Underway(f0, fmap[..], eclass[..], st', loSt, hiSt)
    ensures Work(st') < Work(st)
  {
    ghost var f, e := fmap[..], eclass[..];
    TopReady(f0, f, e, st, loSt, hiSt);
    var at;
    r', at := PickPivot(r, lo, hi);
    var med := eclass[fmap[at]];
    hide Underway, Rearranged, KeysSorted, Mirrors, Work, ThreeWay, Parts, InRange, Rest;
    var allEqual, n, m := Partition(fmap, eclass, lo, hi, med, at);
    if allEqual {
      TopSorted(f0, f, fmap[..], e, st, loSt, hiSt);
      sp', st' := sp, Rest(st);
    } else {
      TopDivided(f0, f, fmap[..], e, med, st, n, m, loSt, hiSt);
      sp' := PushParts(stackLo, stackHi, sp, lo, hi, n, m, Rest(st));
      st' := Rest(st) + Parts(Span(lo, hi), n, m);
    }
  }

  /**
   * Sorts fmap[loSt..hiSt] by eclass[fmap[x]]. The stack never holds more than 29 spans, so
   * the overflow check against its 100 slots cannot fail.
   */
  method FallbackQSort3(fmap: array<int>, eclass: array<int>, loSt: int, hiSt: int)
    requires fmap != eclass && InRange(fmap[..], eclass[..], loSt, hiSt)
    requires hiSt - loSt + 1 <= INT32_LIMIT
    modifies fmap
    ensures Rearranged(old(fmap[..]), fmap[..], loSt, hiSt)
    ensures KeysSorted(fmap[..], eclass[..], loSt, hiSt)
  {
    ghost var f0, e := fmap[..], eclass[..];
    var stackLo, stackHi := new int[STACK_SIZE], new int[STACK_SIZE];
    var r := 0;
    var sp := Push(stackLo, stackHi, 0, loSt, hiSt, []);
    ghost var st := [Span(loSt, hiSt)];
    assert [] + st == st;
    Begin(f0, e, loSt, hiSt);
    hide Underway, Rearranged, KeysSorted, Mirrors, Work, InRange, Rest;
    while sp > 0
      invariant |st| == sp <= 29 && Mirrors(stackLo, stackHi, st)
      invariant Underway(f0, fmap[..], e, st, loSt, hiSt)
      decreases Work(st)
    {
      assert sp < STACK_SIZE - 1;
      var lo, hi;
      sp, lo, hi := Pop(stackLo, stackHi, sp, st);
      ghost var f := fmap[..];
      TopReady(f0, f, e, st, loSt, hiSt);
      if hi - lo < SMALL_THRESH {
        FallbackSimpleSort(fmap, eclass, lo, hi);
        TopSorted(f0, f, fmap[..], e, st, loSt, hiSt);
        st := Rest(st);
      } else {
        sp, r, st := Divide(fmap, eclass, stackLo, stackHi, sp, lo, hi, r, f0, st, loSt, hiSt);
      }
    }
    Finished(f0, fmap[..], e, st, loSt, hiSt);
  }
}
