/** One step of the main sorter's string quicksort: a range is split in three by byte d of its rotations. */
module MainPartition {
  import opened Rotations
  import opened ByteView
  import opened FallbackQSort
  import opened Overlay
  import opened MainCompare
  import opened MainSimpleSort

  /** Byte d of every rotation. */
  ghost function KeysAt(b: Block, d: nat): (e: seq<int>)
    requires |b| > N_OVERSHOOT && d <= 15
  {
    Extended(b)[d..]
  }

  lemma {:induction false} KeyIs(b: Block, g: seq<int>, x: int, d: nat)
    requires |b| > N_OVERSHOOT && d <= 15 && 0 <= x < |g| && 0 <= g[x] < |b|
    ensures Key(g, KeysAt(b, d), x) == Ch(b, g[x], d)
  {
    ExtendedAt(b, g[x] + d);
  }

  /** The byte that range position x is compared by: number d of its rotation. */
  method KeyByte(ptr: array<int>, arr2: array<int>, x: int, d: int, lo: int, hi: int, ghost f0: seq<int>,
    ghost b: Block, ghost q0: int, ghost quad: seq<int>)
    returns (c: Byte)
    requires Ready(b, arr2[..], q0, quad) && |b| > N_OVERSHOOT && 0 <= d <= 15
    requires Alike(b, f0, lo, hi, d) && Rearranged(f0, ptr[..], lo, hi) && lo <= x <= hi
    ensures 0 <= x < ptr.Length && c == Key(ptr[..], KeysAt(b, d), x)
  {
    hide Ready, Alike, Rearranged, Key, KeysAt, Ch;
    AlikeStill(b, f0, ptr[..], lo, hi, d);
    AlikeRange(b, ptr[..], lo, hi, d);
    AlikePair(b, ptr[..], lo, hi, d, x, x);
    ReadyAt(b, arr2[..], q0, quad, ptr[x] + d);
    c := BlockByte(arr2, ptr[x] + d);
    KeyIs(b, ptr[..], x, d);
    ChMoves(b, ptr[x], d);
  }

  lemma {:induction false} ChMoves(b: Block, i: int, d: int)
    ensures Ch(b, i + d, 0) == Ch(b, i, d)
  {
  }

  lemma {:induction false} SwapStill(f0: seq<int>, g: seq<int>, i: int, j: int, lo: int, hi: int)
    requires 0 <= lo <= i <= hi < |g| && lo <= j <= hi && Rearranged(f0, g, lo, hi)
    ensures Rearranged(f0, Swapped(g, i, j), lo, hi)
  {
  }

  /** The upward scan. */
  method ScanUpward(ptr: array<int>, arr2: array<int>, d: int, med: int, lo: int, ltLo0: int, unLo0: int, unHi: int,
    gtHi: int, hi: int, ghost f0: seq<int>, ghost b: Block, ghost q0: int, ghost quad: seq<int>)
    returns (ltLo: int, unLo: int)
    requires ptr != arr2 && Ready(b, arr2[..], q0, quad) && |b| > N_OVERSHOOT && 0 <= d <= 15
    requires Alike(b, f0, lo, hi, d) && Rearranged(f0, ptr[..], lo, hi)
    requires Parted(ptr[..], KeysAt(b, d), med, lo, ltLo0, unLo0, unHi, gtHi, hi)
    modifies ptr
    ensures Rearranged(f0, ptr[..], lo, hi) && unLo0 <= unLo
    ensures Parted(ptr[..], KeysAt(b, d), med, lo, ltLo, unLo, unHi, gtHi, hi)
    ensures unLo <= unHi ==> Key(ptr[..], KeysAt(b, d), unLo) > med
  {
    hide Ready, Alike, Rearranged, Parted, Key, KeysAt;
    ghost var e := KeysAt(b, d);
    ltLo, unLo := ltLo0, unLo0;
    PartedRange(ptr[..], e, med, lo, ltLo, unLo, unHi, gtHi, hi);
    while unLo <= unHi
      invariant unLo0 <= unLo && 0 <= lo <= ltLo <= unLo <= unHi + 1 <= gtHi + 1 <= hi + 1 <= ptr.Length
      invariant Parted(ptr[..], e, med, lo, ltLo, unLo, unHi, gtHi, hi) && Rearranged(f0, ptr[..], lo, hi)
      decreases unHi - unLo
    {
      var c := KeyByte(ptr, arr2, unLo, d, lo, hi, f0, b, q0, quad);
      var n := c as int - med;
      if n > 0 { break; }
      ghost var g := ptr[..];
      PartUp(g, e, med, lo, ltLo, unLo, unHi, gtHi, hi);
      if n == 0 {
        SwapStill(f0, g, unLo, ltLo, lo, hi);
        ptr[unLo], ptr[ltLo] := ptr[ltLo], ptr[unLo];
        assert ptr[..] == Swapped(g, unLo, ltLo);
        ltLo := ltLo + 1;
      }
      unLo := unLo + 1;
    }
  }

  /** The downward scan. */
  method ScanDownward(ptr: array<int>, arr2: array<int>, d: int, med: int, lo: int, ltLo: int, unLo: int, unHi0: int,
    gtHi0: int, hi: int, ghost f0: seq<int>, ghost b: Block, ghost q0: int, ghost quad: seq<int>)
    returns (unHi: int, gtHi: int)
    requires ptr != arr2 && Ready(b, arr2[..], q0, quad) && |b| > N_OVERSHOOT && 0 <= d <= 15
    requires Alike(b, f0, lo, hi, d) && Rearranged(f0, ptr[..], lo, hi)
    requires Parted(ptr[..], KeysAt(b, d), med, lo, ltLo, unLo, unHi0, gtHi0, hi)
    modifies ptr
    ensures Rearranged(f0, ptr[..], lo, hi) && unHi <= unHi0
    ensures Parted(ptr[..], KeysAt(b, d), med, lo, ltLo, unLo, unHi, gtHi, hi)
    ensures unLo <= unHi ==> ptr[unLo] == old(ptr[unLo]) && Key(ptr[..], KeysAt(b, d), unHi) < med
  {
    hide Ready, Alike, Rearranged, Parted, Key, KeysAt;
    ghost var e := KeysAt(b, d);
    unHi, gtHi := unHi0, gtHi0;
    ghost var g0 := ptr[..];
    PartedRange(ptr[..], e, med, lo, ltLo, unLo, unHi, gtHi, hi);
    while unLo <= unHi
      invariant unHi <= unHi0 && 0 <= lo <= ltLo <= unLo <= unHi + 1 <= gtHi + 1 <= hi + 1 <= ptr.Length
      invariant Parted(ptr[..], e, med, lo, ltLo, unLo, unHi, gtHi, hi) && Rearranged(f0, ptr[..], lo, hi)
      invariant unLo <= unHi ==> ptr[unLo] == g0[unLo]
      decreases unHi - unLo
    {
      var c := KeyByte(ptr, arr2, unHi, d, lo, hi, f0, b, q0, quad);
      var n := c as int - med;
      if n < 0 { break; }
      ghost var g := ptr[..];
      PartDown(g, e, med, lo, ltLo, unLo, unHi, gtHi, hi);
      if n == 0 {
        SwapStill(f0, g, unHi, gtHi, lo, hi);
        ptr[unHi], ptr[gtHi] := ptr[gtHi], ptr[unHi];
        assert ptr[..] == Swapped(g, unHi, gtHi);
        gtHi := gtHi - 1;
      }
      unHi := unHi - 1;
    }
  }

  lemma {:induction false} SameKey(f: seq<int>, g: seq<int>, e: seq<int>, x: int)
    requires 0 <= x < |f| == |g| && f[x] == g[x]
    ensures Key(f, e, x) == Key(g, e, x)
  {
  }

  lemma {:induction false} NothingParted(g: seq<int>, e: seq<int>, med: int, lo: int, hi: int)
    requires 0 <= lo <= hi + 1 <= |g|
    ensures Parted(g, e, med, lo, lo, lo, hi, hi, hi)
  {
  }

  /** The two scans, run against each other until they meet. */
  method ScanTogether(ptr: array<int>, arr2: array<int>, d: int, med: int, lo: int, hi: int, ghost b: Block,
    ghost q0: int, ghost quad: seq<int>)
    returns (ltLo: int, unLo: int, unHi: int, gtHi: int)
    requires ptr != arr2 && Ready(b, arr2[..], q0, quad) && |b| > N_OVERSHOOT && 0 <= d <= 15
    requires lo <= hi && Alike(b, ptr[..], lo, hi, d)
    modifies ptr
    ensures Rearranged(old(ptr[..]), ptr[..], lo, hi) && unHi == unLo - 1
    ensures Parted(ptr[..], KeysAt(b, d), med, lo, ltLo, unLo, unHi, gtHi, hi)
  {
    hide Ready, Alike, Rearranged, Parted, Key, KeysAt;
    ghost var f0, e := ptr[..], KeysAt(b, d);
    AlikeRange(b, f0, lo, hi, d);
    unLo, ltLo := lo, lo;
    unHi, gtHi := hi, hi;
    Unmoved(f0, lo, hi);
    NothingParted(f0, e, med, lo, hi);
    while true
      invariant Parted(ptr[..], e, med, lo, ltLo, unLo, unHi, gtHi, hi) && Rearranged(f0, ptr[..], lo, hi)
      decreases unHi - unLo + 1
    {
      ltLo, unLo := ScanUpward(ptr, arr2, d, med, lo, ltLo, unLo, unHi, gtHi, hi, f0, b, q0, quad);
      ghost var g1 := ptr[..];
      PartedRange(g1, e, med, lo, ltLo, unLo, unHi, gtHi, hi);
      unHi, gtHi := ScanDownward(ptr, arr2, d, med, lo, ltLo, unLo, unHi, gtHi, hi, f0, b, q0, quad);
      ghost var g := ptr[..];
      PartedRange(g, e, med, lo, ltLo, unLo, unHi, gtHi, hi);
      if unLo > unHi { break; }
      SameKey(g1, g, e, unLo);
      KeysDiffer(g, e, med, unLo, unHi);
      PartSwap(g, e, med, lo, ltLo, unLo, unHi, gtHi, hi);
      SwapStill(f0, g, unLo, unHi, lo, hi);
      ptr[unLo], ptr[unHi] := ptr[unHi], ptr[unLo];
      assert ptr[..] == Swapped(g, unLo, unHi);
      unLo, unHi := unLo + 1, unHi - 1;
    }
  }

  lemma {:induction false} KeysDiffer(g: seq<int>, e: seq<int>, med: int, x: int, y: int)
    requires 0 <= x < |g| && 0 <= y < |g| && Key(g, e, x) > med > Key(g, e, y)
    ensures x != y
  {
  }

  /** mmed3: the middle one of three bytes. */
  method MMed3(a0: int, b0: int, c: int) returns (m: int)
    ensures m == a0 || m == b0 || m == c
    ensures (a0 <= m <= b0 || b0 <= m <= a0) || (a0 <= m <= c || c <= m <= a0)
    ensures (a0 <= m <= b0 || b0 <= m <= a0) || (b0 <= m <= c || c <= m <= b0)
    ensures (a0 <= m <= c || c <= m <= a0) || (b0 <= m <= c || c <= m <= b0)
  {
    var a, b := a0, b0;
    if a > b { a, b := b, a; }
    if b > c {
      b := c;
      if a > b { b := a; }
    }
    m := b;
  }

  /** Every key of the range is med. */
  ghost predicate AllKeys(g: seq<int>, e: seq<int>, med: int, lo: int, hi: int)
    requires 0 <= lo <= hi + 1 <= |g|
  {
    forall x | lo <= x <= hi :: Key(g, e, x) == med
  }

  lemma {:induction false} AllMedian(g: seq<int>, e: seq<int>, med: int, lo: int, ltLo: int, unLo: int, unHi: int,
    gtHi: int, hi: int)
    requires Parted(g, e, med, lo, ltLo, unLo, unHi, gtHi, hi) && unHi == unLo - 1 && gtHi < ltLo
    ensures 0 <= lo <= hi + 1 <= |g| && AllKeys(g, e, med, lo, hi)
  {
  }

  /**
   * Splits ptr[lo..hi] by byte d around the median of three: all alike on d + 1 bytes, or lesser, equal (some) and
   * greater ones.
   */
  method SplitRange(ptr: array<int>, arr2: array<int>, lo: int, hi: int, d: int, ghost b: Block, ghost q0: int,
    ghost quad: seq<int>)
    returns (allEqual: bool, n: int, m: int, ghost med: int)
    requires ptr != arr2 && Ready(b, arr2[..], q0, quad) && |b| > N_OVERSHOOT && 0 <= d <= 15
    requires lo <= hi && Alike(b, ptr[..], lo, hi, d)
    modifies ptr
    ensures Rearranged(old(ptr[..]), ptr[..], lo, hi) && 0 <= lo <= hi < ptr.Length
    ensures allEqual ==> AllKeys(ptr[..], KeysAt(b, d), med, lo, hi)
    ensures !allEqual ==> ThreeWay(ptr[..], KeysAt(b, d), med, lo, n, m, hi) && n + 1 < m
  {
    hide Ready, Alike, Rearranged, Parted, Key, KeysAt, ThreeWay, AllKeys;
    ghost var f0, e := ptr[..], KeysAt(b, d);
    AlikeRange(b, f0, lo, hi, d);
    Unmoved(f0, lo, hi);
    var c0 := KeyByte(ptr, arr2, lo, d, lo, hi, f0, b, q0, quad);
    var c1 := KeyByte(ptr, arr2, hi, d, lo, hi, f0, b, q0, quad);
    var c2 := KeyByte(ptr, arr2, (lo + hi) / 2, d, lo, hi, f0, b, q0, quad);
    var pivot := MMed3(c0, c1, c2);
    med := pivot;
    ghost var at := if med == c0 then lo else if med == c1 then hi else (lo + hi) / 2;
    assert lo <= at <= hi && Key(f0, e, at) == med;
    n, m := 0, 0;
    var ltLo, unLo, unHi, gtHi := ScanTogether(ptr, arr2, d, pivot, lo, hi, b, q0, quad);
    ghost var g := ptr[..];
    PartedRange(g, e, med, lo, ltLo, unLo, unHi, gtHi, hi);
    allEqual := gtHi < ltLo;
    if allEqual {
      AllMedian(g, e, med, lo, ltLo, unLo, unHi, gtHi, hi);
    } else {
      EqualKeyPresent(f0, g, e, med, lo, ltLo, unLo, gtHi, hi, at);
      n, m := Collect(ptr, e, pivot, lo, ltLo, unLo, unHi, gtHi, hi);
      RearrangedTrans(f0, g, ptr[..], lo, hi);
    }
  }
}
