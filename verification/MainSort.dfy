/** The main block sorter: buckets on two bytes, string quicksort, pointer scans and cached ranks. */
module MainSort {
  import opened Bits
  import opened Rotations
  import opened InverseBwt
  import opened ByteView
  import opened FallbackQSort
  import opened Overlay
  import opened MainCompare
  import opened MainSimpleSort
  import opened MainQSort
  import opened MainRadix
  import opened InducedSort
  import opened PointerScan
  import opened BucketScan
  import opened MainMarks
  import opened MainQuadrants
  import opened RunningOrder

  /** Every rotation in its bucket, and the marked buckets sorted. */
  ghost predicate SortState(b: Block, ks: seq<int>, f: seq<int>, t: seq<int>, marks: seq<bool>) {
    && ks == Keys(b) && Buckets(f, ks) && Table(t, ks, marks) && |marks| == 65536
    && forall c | 0 <= c < 65536 && marks[c] :: SmallSorted(b, f, ks, c)
  }

  // ---- step 1: a small bucket

  lemma {:induction false} BucketAlike(b: Block, ks: seq<int>, f: seq<int>, c: int)
    requires ks == Keys(b) && Buckets(f, ks) && 0 <= c < 65536
    ensures Alike(b, f, Start(ks, c), Start(ks, c + 1) - 1, 2)
  {
    hide Start, Buckets, Ch;
    BucketsSize(f, ks);
    KeysSize(b);
    StartMono(ks, c, c + 1);
    StartBound(ks, c);
    StartBound(ks, c + 1);
    forall x | Start(ks, c) <= x < Start(ks, c + 1)
      ensures 0 <= f[x] < |b| && 256 * Ch(b, f[x], 0) + Ch(b, f[x], 1) == c
    {
      KeyBetween(f, ks, x, c, c + 1);
      KeysAt(b, f[x]);
    }
    forall x, y | Start(ks, c) <= x < Start(ks, c + 1) && Start(ks, c) <= y < Start(ks, c + 1)
      ensures Agree(b, f[x], f[y], 2)
    {
      PairEqual(Ch(b, f[x], 0), Ch(b, f[x], 1), Ch(b, f[y], 0), Ch(b, f[y], 1));
    }
  }

  lemma {:induction false} PairEqual(a: Byte, c: Byte, a': Byte, c': Byte)
    requires 256 * a + c == 256 * a' + c'
    ensures a == a' && c == c'
  {
  }

  lemma {:induction false} DistinctCounts(p: seq<int>, q: seq<int>)
    requires multiset(p) == multiset(q) && Distinct(p)
    ensures Distinct(q)
  {
    forall i, j | 0 <= i < j < |q| ensures q[i] != q[j] {
      CountOnce(p, q[i]);
      if q[i] == q[j] { CountTwice(q, i, j); }
    }
  }

  lemma {:induction false} CountOnce(p: seq<int>, v: int)
    requires Distinct(p)
    ensures multiset(p)[v] <= 1
  {
    if p != [] {
      var n := |p| - 1;
      assert p == p[..n] + [p[n]];
      CountOnce(p[..n], v);
      if p[n] == v { assert v !in p[..n]; }
    }
  }

  lemma {:induction false} CountTwice(q: seq<int>, i: int, j: int)
    requires 0 <= i < j < |q| && q[i] == q[j]
    ensures multiset(q)[q[i]] >= 2
  {
    assert q == q[..i] + [q[i]] + q[i + 1..j] + [q[j]] + q[j + 1..];
  }

  /** Sorting within a small bucket finishes it, and no other changes. */
  lemma {:induction false} BucketSorted(b: Block, ks: seq<int>, f: seq<int>, g: seq<int>, c: int)
    requires ks == Keys(b) && Buckets(f, ks) && 0 <= c < 65536 && Start(ks, c) < Start(ks, c + 1)
    requires Rearranged(f, g, Start(ks, c), Start(ks, c + 1) - 1) && InOrder(b, g, Start(ks, c), Start(ks, c + 1) - 1)
    ensures SmallDone(b, g, ks, c) && forall d | 0 <= d < 65536 && d != c :: Kept(f, g, ks, d)
  {
    hide Start, Buckets, RotLe;
    BucketsSize(f, ks);
    KeysSize(b);
    var lo, hi := Start(ks, c), Start(ks, c + 1) - 1;
    StartBound(ks, c);
    StartBound(ks, c + 1);
    RangeContents(f, g, lo, hi);
    RangeDistinct(f, ks, lo, hi);
    DistinctCounts(f[lo..hi + 1], g[lo..hi + 1]);
    forall y | lo <= y <= hi ensures 0 <= g[y] < |ks| && ks[g[y]] == c {
      var y0 := RearrangedFrom(f, g, lo, hi, y);
      KeyBetween(f, ks, y0, c, c + 1);
    }
    forall x, y | lo <= x < y <= hi ensures g[x] != g[y] && RotLe(b, g[x], g[y]) {
      assert g[lo..hi + 1][x - lo] != g[lo..hi + 1][y - lo];
    }
    forall d | 0 <= d < 65536 && d != c ensures Kept(f, g, ks, d) {
      forall y | Start(ks, d) <= y < Start(ks, d + 1) ensures g[y] == f[y] {
        StartBound(ks, d);
        StartBound(ks, d + 1);
        if lo <= y <= hi { BucketsApart(ks, c, d, y, y); }
      }
    }
  }

  lemma {:induction false} RangeDistinct(f: seq<int>, ks: seq<int>, lo: int, hi: int)
    requires Buckets(f, ks) && 0 <= lo <= hi + 1 <= |ks|
    ensures |ks| <= |f| && Distinct(f[lo..hi + 1])
  {
    var g := f[..|ks|];
    var p := f[lo..hi + 1];
    forall i, j | 0 <= i < j < |p| ensures p[i] != p[j] {
      assert p[i] == g[lo + i] && p[j] == g[lo + j];
    }
  }

  lemma {:induction false} KeptSorted(b: Block, f: seq<int>, g: seq<int>, ks: seq<int>, c: int)
    requires SmallSorted(b, f, ks, c) && Kept(f, g, ks, c)
    ensures SmallSorted(b, g, ks, c)
  {
    hide Start, RotLe;
  }

  /** The state after small bucket c has been put in order. */
  lemma {:induction false} StateSorted(b: Block, ks: seq<int>, f: seq<int>, g: seq<int>, t: seq<int>, marks: seq<bool>,
    c: int)
    requires SortState(b, ks, f, t, marks) && 0 <= c < 65536 && Start(ks, c) < Start(ks, c + 1)
    requires Rearranged(f, g, Start(ks, c), Start(ks, c + 1) - 1) && InOrder(b, g, Start(ks, c), Start(ks, c + 1) - 1)
    ensures SortState(b, ks, g, t, marks) && SmallSorted(b, g, ks, c)
  {
    hide Start, RotLe, Buckets, Table, SmallDone, Kept, SmallSorted, Rearranged, InOrder;
    BucketSorted(b, ks, f, g, c);
    DoneIsSorted(b, g, ks, c);
    KeptSize(f, g, ks, if c == 0 then 1 else 0);
    StillBuckets(b, f, g, ks);
    forall d | 0 <= d < 65536 && marks[d] ensures SmallSorted(b, g, ks, d) {
      if d != c { KeptSorted(b, f, g, ks, d); }
    }
  }

  lemma {:induction false} KeptSize(f: seq<int>, g: seq<int>, ks: seq<int>, c: int)
    requires Kept(f, g, ks, c)
    ensures |f| == |g| && |ks| <= |g|
  {
  }

  /** A bucket of at most one rotation is in order. */
  lemma {:induction false} TinySorted(b: Block, ks: seq<int>, f: seq<int>, c: int)
    requires Buckets(f, ks) && Start(ks, c + 1) <= Start(ks, c) + 1
    ensures SmallSorted(b, f, ks, c)
  {
    hide Start, Buckets;
    BucketsSize(f, ks);
    StartMono(ks, c, c + 1);
    StartBound(ks, c);
    StartBound(ks, c + 1);
  }

  lemma {:induction false} StateParts(b: Block, ks: seq<int>, f: seq<int>, t: seq<int>, marks: seq<bool>)
    requires SortState(b, ks, f, t, marks)
    ensures ks == Keys(b) && |ks| == |b| <= |f| && Buckets(f, ks) && Table(t, ks, marks) && |marks| == 65536 &&
      |t| >= 65537
    ensures forall c | 0 <= c < 65536 && marks[c] :: SmallSorted(b, f, ks, c)
  {
  }

  lemma {:induction false} StateMarked(b: Block, ks: seq<int>, f: seq<int>, t: seq<int>, t': seq<int>, marks: seq<bool>,
    c: int)
    requires SortState(b, ks, f, t, marks) && 0 <= c < 65536 && SmallSorted(b, f, ks, c) &&
      Table(t', ks, marks[c := true])
    ensures SortState(b, ks, f, t', marks[c := true])
  {
    hide SmallSorted, Buckets, Table;
  }

  /** One turn of step 1: bucket sb is sorted if it is not marked, and marked. */
  method SortSmall(ptr: array<int>, arr2: array<int>, q0: int, ftab: array<int>, nblock: int, sb: int, budget0: int,
    ghost b: Block, ghost ks: seq<int>, ghost quad: seq<int>, ghost marks: seq<bool>)
    returns (budget: int)
    requires ptr != arr2 && ptr != ftab && arr2 != ftab && Ready(b, arr2[..], q0, quad) &&
      N_OVERSHOOT < nblock == |b| <= 900_000
    requires SortState(b, ks, ptr[..], ftab[..], marks) && 0 <= sb < 65536 && budget0 >= 0
    modifies ptr, ftab
    ensures budget >= 0 ==> |marks| == 65536 && SortState(b, ks, ptr[..], ftab[..], marks[sb := true])
    ensures budget < 0 ==> ftab[..] == old(ftab[..])
  {
    hide Ready, SortState, Start, Table, Buckets, SmallSorted, Alike, InOrder, Rearranged, Marked, Cleared;
    ghost var f, t := ptr[..], ftab[..];
    budget := budget0;
    StateParts(b, ks, f, t, marks);
    TableAt(t, ks, marks, sb);
    TableAt(t, ks, marks, sb + 1);
    if !Marked(ftab[sb]) {
      var lo := Cleared(ftab[sb]);
      var hi := Cleared(ftab[sb + 1]) - 1;
      if hi > lo {
        BucketAlike(b, ks, f, sb);
        StartBound(ks, sb);
        StartBound(ks, sb + 1);
        budget := MainQSort3(ptr, arr2, q0, nblock, lo, hi, 2, budget, b, quad);
        if budget < 0 { return; }
        StateSorted(b, ks, f, ptr[..], t, marks, sb);
      } else {
        TinySorted(b, ks, f, sb);
      }
    }
    SetMark(ftab, sb, ks, marks);
    StateMarked(b, ks, ptr[..], t, ftab[..], marks, sb);
  }

  // ---- step 2: the pointer scans

  /** All other small buckets of ss are marked. */
  ghost predicate OthersMarked(marks: seq<bool>, ss: int, n: int)
    requires |marks| == 65536 && 0 <= ss < 256
  {
    forall c | 256 * ss <= c < 256 * ss + n && c < 65536 && c != 257 * ss :: marks[c]
  }

  /** Step 1: the small buckets [ss, j], j != ss. */
  method SortOthers(ptr: array<int>, arr2: array<int>, q0: int, ftab: array<int>, nblock: int, ss: int, budget0: int,
    ghost b: Block, ghost ks: seq<int>, ghost quad: seq<int>, ghost marks0: seq<bool>)
    returns (budget: int, ghost marks: seq<bool>)
    requires ptr != arr2 && ptr != ftab && arr2 != ftab && Ready(b, arr2[..], q0, quad) &&
      N_OVERSHOOT < nblock == |b| <= 900_000
    requires SortState(b, ks, ptr[..], ftab[..], marks0) && 0 <= ss < 256 && budget0 >= 0
    modifies ptr, ftab
    ensures |marks0| == |marks| == 65536 && forall c | 0 <= c < 65536 && marks0[c] :: marks[c]
    ensures budget >= 0 ==> SortState(b, ks, ptr[..], ftab[..], marks) && OthersMarked(marks, ss, 256)
    ensures Table(ftab[..], ks, marks)
  {
    hide Ready, SortState, Start, Table, Buckets, SmallSorted;
    budget, marks := budget0, marks0;
    StateParts(b, ks, ptr[..], ftab[..], marks);
    for j := 0 to 256
      invariant |marks0| == |marks| == 65536 && budget >= 0
      invariant forall c | 0 <= c < 65536 && marks0[c] :: marks[c]
      invariant SortState(b, ks, ptr[..], ftab[..], marks) && OthersMarked(marks, ss, j)
    {
      StateParts(b, ks, ptr[..], ftab[..], marks);
      if j != ss {
        budget := SortSmall(ptr, arr2, q0, ftab, nblock, 256 * ss + j, budget, b, ks, quad, marks);
        if budget < 0 { return; }
        marks := marks[256 * ss + j := true];
      }
    }
    StateParts(b, ks, ptr[..], ftab[..], marks);
  }

  /** copyStart and copyEnd: the places of the small buckets [j, ss]. */
  method CopyPlaces(ftab: array<int>, ss: int, ghost ks: seq<int>, ghost marks: seq<bool>)
    returns (copyStart: array<int>, copyEnd: array<int>)
    requires Table(ftab[..], ks, marks) && 0 <= ss < 256
    ensures fresh(copyStart) && fresh(copyEnd) && copyStart != copyEnd && copyStart.Length == copyEnd.Length == 256
    ensures forall t | 0 <= t < 256 :: copyStart[t] == Place(ks, ss, true, t, 0)
    ensures forall t | 0 <= t < 256 :: copyEnd[t] == Place(ks, ss, false, t, 0)
  {
    hide Table, Start, Marked, Cleared;
    copyStart, copyEnd := new int[256], new int[256];
    for j := 0 to 256
      invariant forall t | 0 <= t < j :: copyStart[t] == Place(ks, ss, true, t, 0)
      invariant forall t | 0 <= t < j :: copyEnd[t] == Place(ks, ss, false, t, 0)
    {
      TableAt(ftab[..], ks, marks, 256 * j + ss);
      TableAt(ftab[..], ks, marks, 256 * j + ss + 1);
      copyStart[j] := Cleared(ftab[256 * j + ss]);
      copyEnd[j] := Cleared(ftab[256 * j + ss + 1]) - 1;
    }
  }

  lemma {:induction false} LeftBegins(b: Block, ks: seq<int>, ss: int, done: seq<bool>, f: seq<int>, cl: seq<int>)
    requires 0 <= ss < 256 && |done| == |cl| == 256 && !done[ss] && ks == Keys(b) && Buckets(f, ks) &&
      LeadSorted(b, f, ks, ss)
    requires forall t | 0 <= t < 256 :: cl[t] == Place(ks, ss, true, t, 0)
    ensures |ks| <= |f| && Scanning(b, ks, ss, true, done, LeadOf(f, ks, ss, true), f, f, cl, [])
  {
    hide Start, Buckets, LeadSize, ReadAt, LeadSorted, Lead, Place;
    BucketsSize(f, ks);
    KeysSize(b);
    LeadIs(b, f, ks, ss, true);
    ScanBegins(b, ks, ss, true, done, LeadOf(f, ks, ss, true), f, cl);
  }

  lemma {:induction false} IsEnded(b: Block, ks: seq<int>, ss: int, up: bool, done: seq<bool>, a: seq<int>, g: seq<int>,
    f: seq<int>, cs: seq<int>, s: seq<int>)
    requires Scanning(b, ks, ss, up, done, a, g, f, cs, s) && AreRotations(b, s) && |s| == |ToScan(b, ss, a, s)|
    ensures Ended(b, ks, ss, up, done, a, g, f, cs, s)
  {
  }

  lemma {:induction false} BothAre(b: Block, ks: seq<int>, ss: int, done: seq<bool>, al: seq<int>, ar: seq<int>,
    f0: seq<int>, f1: seq<int>, f2: seq<int>, cl: seq<int>, cr: seq<int>, sl: seq<int>, sr: seq<int>)
    requires Ended(b, ks, ss, true, done, al, f0, f1, cl, sl) && Ended(b, ks, ss, false, done, ar, f1, f2, cr, sr) &&
      Buckets(f0, ks)
    ensures ScanResult(b, ks, ss, done, f0, f2) && 0 <= ss < |cl| == |cr|
    ensures cl[ss] - 1 == cr[ss] || (cl[ss] == 0 && cr[ss] == |b| - 1)
  {
    hide Ended, ScanResult, Buckets, Constant;
    assert BothEnded(b, ks, ss, done, al, ar, f0, f1, f2, cl, cr, sl, sr);
    ScansMeet(b, ks, ss, done, al, ar, f0, f1, f2, cl, cr, sl, sr);
    if Constant(b, ss) {
      ResultConstant(b, ks, ss, done, al, ar, f0, f1, f2, cl, cr, sl, sr);
    } else {
      ResultMixed(b, ks, ss, done, al, ar, f0, f1, f2, cl, cr, sl, sr);
    }
  }

  /** Step 2: both scans. The check that they meet cannot fail. */
  method ScanBig(ptr: array<int>, arr2: array<int>, ftab: array<int>, bigDone: array<bool>, nblock: int, ss: int,
    ghost b: Block, ghost q0: int, ghost quad: seq<int>, ghost ks: seq<int>, ghost marks: seq<bool>)
    requires ptr != arr2 && ptr != ftab && arr2 != ftab && bigDone.Length == 256 && nblock == |b|
    requires Ready(b, arr2[..], q0, quad) && Table(ftab[..], ks, marks) && ks == Keys(b) && Buckets(ptr[..], ks)
    requires 0 <= ss < 256 && !bigDone[ss] && LeadSorted(b, ptr[..], ks, ss)
    modifies ptr
    ensures ScanResult(b, ks, ss, bigDone[..], old(ptr[..]), ptr[..])
  {
    hide Ready, Table, Start, Buckets, LeadSorted, Scanning, Ended, Marked, Cleared, AreRotations, ToScan, ScanResult,
      Place, LeadSize;
    ghost var f0, done := ptr[..], bigDone[..];
    var copyStart, copyEnd := CopyPlaces(ftab, ss, ks, marks);
    TableAt(ftab[..], ks, marks, 256 * ss);
    TableAt(ftab[..], ks, marks, 256 * ss + 256);
    LeftBegins(b, ks, ss, done, f0, copyStart[..]);
    ghost var al, ar := LeadOf(f0, ks, ss, true), LeadOf(f0, ks, ss, false);
    ghost var sl := ScanBucket(ptr, arr2, copyStart, bigDone, nblock, Cleared(ftab[256 * ss]), ss, true, b, q0, quad,
      ks, al, f0);
    ghost var f1 := ptr[..];
    ghost var cl := copyStart[..];
    IsEnded(b, ks, ss, true, done, al, f0, f1, cl, sl);
    RightBegins(b, ks, ss, done, al, f0, f1, cl, copyEnd[..], sl);
    ghost var sr := ScanBucket(ptr, arr2, copyEnd, bigDone, nblock, Cleared(ftab[256 * (ss + 1)]) - 1, ss, false, b, q0,
      quad, ks, ar, f1);
    IsEnded(b, ks, ss, false, done, ar, f1, ptr[..], copyEnd[..], sr);
    BothAre(b, ks, ss, done, al, ar, f0, f1, ptr[..], cl, copyEnd[..], sl, sr);
    assert copyStart[ss] - 1 == copyEnd[ss] || (copyStart[ss] == 0 && copyEnd[ss] == nblock - 1);
  }

  /** The scans' buckets are marked from the first byte j down: below j and everything marked before. */
  ghost predicate MarkedTo(marks0: seq<bool>, marks: seq<bool>, ss: int, j: int) {
    && |marks0| == |marks| == 65536
    && forall c | 0 <= c < 65536 :: marks[c] <==> marks0[c] || (c % 256 == ss && c / 256 < j)
  }

  method MarkScanned(ftab: array<int>, ss: int, ghost ks: seq<int>, ghost marks0: seq<bool>)
    returns (ghost marks: seq<bool>)
    requires Table(ftab[..], ks, marks0) && 0 <= ss < 256
    modifies ftab
    ensures Table(ftab[..], ks, marks) && MarkedTo(marks0, marks, ss, 256)
  {
    hide Table;
    marks := marks0;
    TableSize(ftab[..], ks, marks0);
    for j := 0 to 256
      invariant Table(ftab[..], ks, marks) && MarkedTo(marks0, marks, ss, j)
    {
      SetMark(ftab, 256 * j + ss, ks, marks);
      MarkedNext(marks0, marks, ss, j);
      marks := marks[256 * j + ss := true];
    }
  }

  lemma {:induction false} MarkedNext(marks0: seq<bool>, marks: seq<bool>, ss: int, j: int)
    requires MarkedTo(marks0, marks, ss, j) && 0 <= ss < 256 && 0 <= j < 256
    ensures MarkedTo(marks0, marks[256 * j + ss := true], ss, j + 1)
  {
    forall c | 0 <= c < 65536 ensures c == 256 * j + ss <==> c % 256 == ss && c / 256 == j { }
  }

  /** Finished big buckets have all their small buckets marked, on either side. */
  ghost predicate DoneMarked(marks: seq<bool>, done: seq<bool>) {
    |marks| == 65536 && |done| == 256 && forall c | 0 <= c < 65536 && done[c / 256] :: marks[c]
  }

  lemma {:induction false} StateScanned(b: Block, ks: seq<int>, ss: int, done: seq<bool>, f0: seq<int>, f: seq<int>,
    t: seq<int>, t': seq<int>, marks: seq<bool>, marks': seq<bool>)
    requires SortState(b, ks, f0, t, marks) && ScanResult(b, ks, ss, done, f0, f) && DoneMarked(marks, done) &&
      0 <= ss < 256
    requires Table(t', ks, marks') && MarkedTo(marks, marks', ss, 256) && OthersMarked(marks, ss, 256)
    ensures SortState(b, ks, f, t', marks') && DoneMarked(marks', done[ss := true])
  {
    hide Start, Buckets, Table, SmallSorted, Kept;
    forall c | 0 <= c < 65536 && marks'[c] ensures SmallSorted(b, f, ks, c) {
      if c % 256 != ss || done[c / 256] {
        KeptSorted(b, f0, f, ks, c);
      } else {
        BucketNumber(c, ss);
        assert SmallSorted(b, f, ks, 256 * (c / 256) + ss);
      }
    }
    forall c | 0 <= c < 65536 && done[ss := true][c / 256] ensures marks'[c] {
      if c / 256 == ss && c != 257 * ss { assert marks[c]; }
    }
  }

  // ---- step 3: the big bucket

  /** Two positions whose small buckets are sorted. */
  lemma {:induction false} PairSorted(b: Block, ks: seq<int>, f: seq<int>, t: seq<int>, marks: seq<bool>, x: int,
    y: int)
    requires SortState(b, ks, f, t, marks) && 0 <= x < y < |b| && 0 <= f[x] < |b| && |ks| == |b| &&
      0 <= ks[f[x]] < 65536 && marks[ks[f[x]]]
    requires 0 <= f[y] < |b|
    ensures f[x] != f[y] && RotLe(b, f[x], f[y])
  {
    hide Start, RotLe, Table, Ch;
    BucketAt(f, ks, x);
    BucketAt(f, ks, y);
    KeysAt(b, f[x]);
    KeysAt(b, f[y]);
    var g := f[..|ks|];
    assert g[x] != g[y];
    var c, d := ks[f[x]], ks[f[y]];
    if d < c { StartMono(ks, d + 1, c); }
    if c == d {
      assert SmallSorted(b, f, ks, c);
      assert RotLe(b, f[x], f[y]);
    } else {
      KeyDecides(b, f[x], f[y]);
    }
  }

  /** A smaller key decides. */
  lemma {:induction false} KeyDecides(b: Block, i: int, j: int)
    requires KeyOf(b, i) < KeyOf(b, j)
    ensures RotLe(b, i, j)
  {
    if Ch(b, i, 0) < Ch(b, j, 0) {
      assert LessAt(b, i, j, 0);
    } else {
      SecondByte(b, i, j);
    }
  }

  /** A big bucket all of whose small buckets are sorted. */
  lemma {:induction false} BigDone(b: Block, ks: seq<int>, f: seq<int>, t: seq<int>, marks: seq<bool>, done: seq<bool>,
    ss: int)
    requires SortState(b, ks, f, t, marks) && DoneMarked(marks, done) && 0 <= ss < 256 && done[ss]
    ensures BigSorted(b, f, ss, Start(ks, 256 * ss), Start(ks, 256 * ss + 256))
  {
    hide Start, RotLe, Table, Ch, SortState, Buckets;
    StateParts(b, ks, f, t, marks);
    var lo, hi := Start(ks, 256 * ss), Start(ks, 256 * ss + 256);
    StartMono(ks, 256 * ss, 256 * ss + 256);
    StartBound(ks, 256 * ss);
    StartBound(ks, 256 * ss + 256);
    forall x | lo <= x < hi ensures 0 <= f[x] < |b| && b[f[x]] == ss && marks[ks[f[x]]] {
      KeyBetween(f, ks, x, 256 * ss, 256 * ss + 256);
      KeyParts(b, ks, f[x]);
      FirstOfKey(b[f[x]], Ch(b, f[x], 1), ss);
    }
    forall i | 0 <= i < |b| && b[i] == ss ensures exists x :: lo <= x < hi && f[x] == i {
      var x := FindRotation(f, ks, i);
      KeyParts(b, ks, i);
      StartMono(ks, 256 * ss, ks[i]);
      StartMono(ks, ks[i] + 1, 256 * ss + 256);
    }
    forall x, y | lo <= x < y < hi ensures f[x] != f[y] && RotLe(b, f[x], f[y]) {
      PairSorted(b, ks, f, t, marks, x, y);
    }
  }

  lemma {:induction false} FirstOfKey(c: Byte, d: Byte, ss: int)
    requires 256 * ss <= 256 * c + d < 256 * ss + 256
    ensures c == ss && (256 * c + d) / 256 == ss && 0 <= 256 * c + d < 65536
  {
  }

  /** When all buckets are finished, so is the sort. */
  lemma {:induction false} AllDone(b: Block, ks: seq<int>, f: seq<int>, t: seq<int>, marks: seq<bool>, done: seq<bool>)
    requires SortState(b, ks, f, t, marks) && DoneMarked(marks, done) && forall c | 0 <= c < 256 :: done[c]
    ensures |b| <= |f| && IsRotationOrder(b, f[..|b|])
  {
    hide Start, RotLe, Table, Ch, SortState;
    StateParts(b, ks, f, t, marks);
    var p := f[..|b|];
    forall x, y | 0 <= x < y < |b| ensures RotLe(b, p[x], p[y]) {
      BucketAt(f, ks, x);
      BucketAt(f, ks, y);
      KeysAt(b, f[x]);
      KeyQuotient(ks[f[x]]);
      PairSorted(b, ks, f, t, marks, x, y);
    }
    InRotationOrder(b, p);
  }

  lemma {:induction false} KeyQuotient(c: int)
    requires 0 <= c < 65536
    ensures 0 <= c / 256 < 256
  {
  }

  lemma {:induction false} InRotationOrder(b: Block, p: seq<int>)
    requires IsPerm(p, |b|) && forall x, y | 0 <= x < y < |b| :: RotLe(b, p[x], p[y])
    ensures IsRotationOrder(b, p)
  {
    forall x, y | 0 <= x < y < |p| ensures LessEq(b, p[x], p[y], |b|) { assert RotLe(b, p[x], p[y]); }
  }

  // ---- the main loop

  /** The finished big buckets are the first i of the running order. */
  ghost predicate DoneTo(done: seq<bool>, order: seq<int>, i: int) {
    && |done| == |order| == 256 && IsPerm(order, 256) && 0 <= i <= 256
    && forall x | 0 <= x < 256 :: done[order[x]] <==> x < i
  }

  lemma {:induction false} NextUndone(done: seq<bool>, order: seq<int>, i: int)
    requires DoneTo(done, order, i) && i < 256
    ensures 0 <= order[i] < 256 && !done[order[i]] && DoneTo(done[order[i] := true], order, i + 1)
  {
    forall x | 0 <= x < 256 && x != i ensures order[x] != order[i] {
      if x < i { assert order[x] != order[i]; } else { assert order[i] != order[x]; }
    }
  }

  lemma {:induction false} EveryDone(done: seq<bool>, order: seq<int>)
    requires DoneTo(done, order, 256)
    ensures forall c | 0 <= c < 256 :: done[c]
  {
    forall c | 0 <= c < 256 ensures done[c] { Surjective(order, 256, c); }
  }

  lemma {:induction false} OthersLead(b: Block, ks: seq<int>, f: seq<int>, t: seq<int>, marks: seq<bool>, ss: int)
    requires SortState(b, ks, f, t, marks) && 0 <= ss < 256 && OthersMarked(marks, ss, 256)
    ensures LeadSorted(b, f, ks, ss)
  {
    hide Start, Buckets, Table, SmallSorted;
  }

  lemma {:induction false} StillDone(marks0: seq<bool>, marks: seq<bool>, done: seq<bool>)
    requires DoneMarked(marks0, done) && |marks| == 65536 && forall c | 0 <= c < 65536 && marks0[c] :: marks[c]
    ensures DoneMarked(marks, done)
  {
  }

  /** One turn of the main loop: steps 1, 2 and 3 for big bucket ss. */
  method SortBig(ptr: array<int>, arr2: array<int>, q0: int, ftab: array<int>, bigDone: array<bool>, nblock: int,
    ss: int, last: bool, budget0: int, ghost b: Block, ghost ks: seq<int>, ghost quad0: seq<int>,
    ghost marks0: seq<bool>)
    returns (budget: int, ghost quad: seq<int>, ghost marks: seq<bool>)
    requires ptr != arr2 && ptr != ftab && arr2 != ftab && bigDone.Length == 256 && 0 <= ss < 256 && !bigDone[ss]
    requires Ready(b, arr2[..], q0, quad0) && N_OVERSHOOT < nblock == |b| <= 900_000 && budget0 >= 0
    requires SortState(b, ks, ptr[..], ftab[..], marks0) && DoneMarked(marks0, bigDone[..])
    modifies ptr, arr2, ftab, bigDone
    ensures Ready(b, arr2[..], q0, quad) && Table(ftab[..], ks, marks)
    ensures budget >= 0 ==>
      bigDone[..] == old(bigDone[..])[ss := true] && SortState(b, ks, ptr[..], ftab[..], marks) &&
      DoneMarked(marks, bigDone[..])
  {
    hide Ready, SortState, Start, Table, Buckets, OthersMarked, DoneMarked, MarkedTo, LeadSorted, ScanResult, BigSorted,
      Cleared;
    ghost var done := bigDone[..];
    quad := quad0;
    budget, marks := SortOthers(ptr, arr2, q0, ftab, nblock, ss, budget0, b, ks, quad, marks0);
    if budget < 0 { return; }
    StillDone(marks0, marks, done);
    ghost var f1, t1, marks1 := ptr[..], ftab[..], marks;
    StateParts(b, ks, f1, t1, marks1);
    OthersLead(b, ks, f1, t1, marks1, ss);
    assert !bigDone[ss];
    ScanBig(ptr, arr2, ftab, bigDone, nblock, ss, b, q0, quad, ks, marks1);
    marks := MarkScanned(ftab, ss, ks, marks1);
    StateScanned(b, ks, ss, done, f1, ptr[..], t1, ftab[..], marks1, marks);
    bigDone[ss] := true;
    assert bigDone[..] == done[ss := true];
    if !last {
      TableAt(ftab[..], ks, marks, 256 * ss);
      TableAt(ftab[..], ks, marks, 256 * ss + 256);
      var bbStart := Cleared(ftab[256 * ss]);
      var bbSize := Cleared(ftab[256 * (ss + 1)]) - bbStart;
      BigDone(b, ks, ptr[..], ftab[..], marks, bigDone[..], ss);
      StartMono(ks, 256 * ss, 256 * ss + 256);
      quad := UpdateQuadrants(arr2, q0, ptr, nblock, bbStart, bbSize, ss, b, quad);
    }
  }

  /** What the words hold before the sort: the block, and anything behind it. */
  lemma {:induction false} BlockShown(b: Block, w: seq<int>, q0: int)
    requires |b| + N_OVERSHOOT <= q0 && q0 + 2 * (|b| + N_OVERSHOOT) <= 4 * |w| && BytesOf(w, |b|) == b
    ensures Clearing(b, w, q0, BytesOf(w, |b| + N_OVERSHOOT), QuadsOf(w, q0, |b| + N_OVERSHOOT), |b|)
  {
    hide ByteAt;
    var blk := BytesOf(w, |b| + N_OVERSHOOT);
    forall k | 0 <= k < |b| ensures blk[k] == b[k] { assert BytesOf(w, |b|)[k] == ByteAt(w, k); }
  }

  lemma {:induction false} NoRanks(b: Block, w: seq<int>, q0: int, quad: seq<int>)
    requires Ready(b, w, q0, quad)
    ensures |b| <= 4 * |w| && BytesOf(w, |b|) == b
  {
    hide QuadrantsOk;
    ReadyIs(b, w, q0, quad);
    ShownSize(w, q0, Extended(b), quad);
    forall k | 0 <= k < |b| ensures ByteAt(w, k) == b[k] { assert Extended(b)[k] == b[k]; }
  }

  lemma {:induction false} FirstState(b: Block, ks: seq<int>, f: seq<int>, t: seq<int>, done: seq<bool>)
    requires ks == Keys(b) && |b| <= 900_000 && |b| <= |f| && Bucketed(f[..|b|], ks) && |t| >= 65537 &&
      forall c | 0 <= c <= 65536 :: t[c] == Start(ks, c)
    requires |done| == 256 && forall c | 0 <= c < 256 :: !done[c]
    ensures SortState(b, ks, f, t, seq(65536, i => false)) && DoneMarked(seq(65536, i => false), done)
  {
    hide Start, Bucketed;
    KeysSize(b);
    TableFresh(t, ks);
    forall c | 0 <= c < 65536 ensures 0 <= c / 256 < 256 { KeyQuotient(c); }
  }

  lemma {:induction false} NothingDone(done: seq<bool>, order: seq<int>)
    requires |done| == |order| == 256 && IsPerm(order, 256) && forall c | 0 <= c < 256 :: !done[c]
    ensures DoneTo(done, order, 0)
  {
  }

  /**
   * mainSort: unless the budget runs out, ptr ends as a sorted order of the rotations. In either case the block is as
   * it was, and the table holds 32-bit words.
   */
  method MainSort(ptr: array<int>, arr2: array<int>, q0: int, ftab: array<int>, nblock: int, budget0: int,
    ghost b: Block)
    returns (budget: int)
    requires ptr != arr2 && ptr != ftab && arr2 != ftab && ftab.Length == 65537 && nblock <= ptr.Length
    requires N_OVERSHOOT < nblock == |b| <= 900_000 && budget0 >= 0
    requires nblock + N_OVERSHOOT <= q0 && q0 + 2 * (nblock + N_OVERSHOOT) <= 4 * arr2.Length &&
      BytesOf(arr2[..], nblock) == b
    modifies ptr, arr2, ftab
    ensures BytesOf(arr2[..], nblock) == b && forall c | 0 <= c < 65537 :: 0 <= ftab[c] < WORD
    ensures budget >= 0 ==> IsRotationOrder(b, ptr[..nblock])
  {
    hide Clearing, Ready, SortState, Start, Table, Buckets, Bucketed, DoneMarked, DoneTo, IsRotationOrder, BytesOf,
      Keys, FullerLater;
    ghost var ks := Keys(b);
    BlockShown(b, arr2[..], q0);
    ghost var quad := QuadsOf(arr2[..], q0, nblock + N_OVERSHOOT);
    quad := RadixSort(ptr, arr2, q0, ftab, nblock, b, ks, BytesOf(arr2[..], nblock + N_OVERSHOOT), quad);
    var bigDone := new bool[256](i => false);
    var order := SortBuckets(ftab);
    ghost var marks: seq<bool> := seq(65536, i => false);
    FirstState(b, ks, ptr[..], ftab[..], bigDone[..]);
    NothingDone(bigDone[..], order[..]);
    budget := budget0;
    StateParts(b, ks, ptr[..], ftab[..], marks);
    var i := 0;
    while i <= 255 && budget >= 0
      invariant 0 <= i <= 256 && Ready(b, arr2[..], q0, quad) && Table(ftab[..], ks, marks)
      invariant budget >= 0 ==>
        SortState(b, ks, ptr[..], ftab[..], marks) && DoneMarked(marks, bigDone[..]) &&
        DoneTo(bigDone[..], order[..], i)
      decreases 256 - i
    {
      var ss := order[i];
      NextUndone(bigDone[..], order[..], i);
      budget, quad, marks := SortBig(ptr, arr2, q0, ftab, bigDone, nblock, ss, i == 255, budget, b, ks, quad, marks);
      i := i + 1;
    }
    NoRanks(b, arr2[..], q0, quad);
    TableWords(ftab[..], ks, marks);
    if budget >= 0 {
      EveryDone(bigDone[..], order[..]);
      AllDone(b, ks, ptr[..], ftab[..], marks, bigDone[..]);
    }
  }
}
