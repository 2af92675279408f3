/** Both pointer scans of one big bucket: where they start, that they meet, and what they leave sorted. */
module BucketScan {
  import opened Rotations
  import opened InverseBwt
  import opened Counting
  import opened Overlay
  import opened MainCompare
  import opened MainSimpleSort
  import opened MainRadix
  import opened InducedSort
  import opened PointerScan

  /** The rotations of small bucket c are in order. */
  ghost predicate SmallSorted(b: Block, f: seq<int>, ks: seq<int>, c: int) {
    InOrder(b, f, Start(ks, c), Start(ks, c + 1) - 1)
  }

  /** Every position has a rotation of its bucket, and all rotations are different. */
  ghost predicate Buckets(f: seq<int>, ks: seq<int>) {
    |ks| <= |f| && Bucketed(f[..|ks|], ks)
  }

  lemma {:induction false} BucketsSize(f: seq<int>, ks: seq<int>)
    requires Buckets(f, ks)
    ensures |ks| <= |f|
  {
  }

  /** A position between two bucket starts has a key between them. */
  lemma {:induction false} KeyBetween(f: seq<int>, ks: seq<int>, y: int, c: int, d: int)
    requires Buckets(f, ks) && 0 <= y < |ks| && Start(ks, c) <= y < Start(ks, d)
    ensures 0 <= f[y] < |ks| && c <= ks[f[y]] < d
    ensures Start(ks, ks[f[y]]) <= y < Start(ks, ks[f[y]] + 1)
  {
    hide Start;
    var g := f[..|ks|];
    assert InBucket(g, ks, y);
    if ks[f[y]] < c { StartMono(ks, ks[f[y]] + 1, c); }
    if d <= ks[f[y]] { StartMono(ks, d, ks[f[y]]); }
  }

  /** The position of a rotation. */
  lemma {:induction false} FindRotation(f: seq<int>, ks: seq<int>, r: int) returns (y: int)
    requires Buckets(f, ks) && 0 <= r < |ks|
    ensures 0 <= y < |ks| && f[y] == r && Start(ks, ks[r]) <= y < Start(ks, ks[r] + 1)
  {
    hide Start;
    var g := f[..|ks|];
    Surjective(g, |ks|, r);
    y :| 0 <= y < |ks| && g[y] == r;
    assert InBucket(g, ks, y);
  }

  lemma {:induction false} KeyParts(b: Block, ks: seq<int>, r: int)
    requires ks == Keys(b) && 0 <= r < |b|
    ensures |ks| == |b| && ks[r] == 256 * b[r] + Ch(b, r, 1) && 0 <= ks[r] < 65536
  {
    ChInside(b, r);
  }

  // ---- where a scan starts

  /** The small buckets [ss, u] on the side the scan starts from are in order. */
  ghost predicate LeadSorted(b: Block, f: seq<int>, ks: seq<int>, ss: int) {
    forall c | 256 * ss <= c < 256 * ss + 256 && c != 257 * ss :: SmallSorted(b, f, ks, c)
  }

  ghost function LeadOf(f: seq<int>, ks: seq<int>, ss: int, up: bool): (a: seq<int>)
    requires |ks| <= |f| && 0 <= ss < 256
    ensures LeadSize(ks, ss, up) >= 0 && |a| == LeadSize(ks, ss, up)
    ensures forall i | 0 <= i < |a| :: 0 <= ReadAt(ks, ss, up, i) < |ks| && a[i] == f[ReadAt(ks, ss, up, i)]
  {
    LeadRange(ks, ss, up);
    seq(LeadSize(ks, ss, up),
      i requires 0 <= i < LeadSize(ks, ss, up) => LeadRange(ks, ss, up); f[ReadAt(ks, ss, up, i)])
  }

  lemma {:induction false} LeadRange(ks: seq<int>, ss: int, up: bool)
    requires 0 <= ss < 256
    ensures LeadSize(ks, ss, up) >= 0
    ensures forall i | 0 <= i < LeadSize(ks, ss, up) :: 0 <= ReadAt(ks, ss, up, i) < |ks|
    ensures forall i | 0 <= i < LeadSize(ks, ss, up) && up ::
      Start(ks, 256 * ss) <= ReadAt(ks, ss, up, i) < Start(ks, 257 * ss)
    ensures forall i | 0 <= i < LeadSize(ks, ss, up) && !up ::
      Start(ks, 257 * ss + 1) <= ReadAt(ks, ss, up, i) < Start(ks, 256 * ss + 256)
  {
    hide Start;
    StartMono(ks, 256 * ss, 257 * ss);
    StartMono(ks, 257 * ss + 1, 256 * ss + 256);
  }

  lemma {:induction false} KeySplit(c: Byte, d: Byte, ss: int)
    ensures 256 * ss <= 256 * c + d < 257 * ss && 0 <= ss < 256 ==> c == ss && d < ss
    ensures 257 * ss + 1 <= 256 * c + d < 256 * ss + 256 && 0 <= ss < 256 ==> c == ss && d > ss
  {
  }

  /** What stands at a place of the lead: a rotation of big bucket ss with its second byte on the side. */
  lemma {:induction false} LeadEntry(b: Block, f: seq<int>, ks: seq<int>, ss: int, up: bool, i: int)
    requires ks == Keys(b) && Buckets(f, ks) && 0 <= ss < 256 && 0 <= i < |LeadOf(f, ks, ss, up)|
    ensures var r := LeadOf(f, ks, ss, up)[i];
      0 <= r < |b| && b[r] == ss && (if up then Ch(b, r, 1) < ss else Ch(b, r, 1) > ss) && Side(b, ss, up, r)
  {
    hide Start, Buckets, LeadSize, ReadAt;
    BucketsSize(f, ks);
    LeadRange(ks, ss, up);
    var y := ReadAt(ks, ss, up, i);
    var r := f[y];
    if up { KeyBetween(f, ks, y, 256 * ss, 257 * ss); } else { KeyBetween(f, ks, y, 257 * ss + 1, 256 * ss + 256); }
    KeyParts(b, ks, r);
    KeySplit(b[r], Ch(b, r, 1), ss);
    ChInside(b, r);
    assert SideAt(b, ss, up, r, 1);
  }

  /** Two positions of big bucket ss outside [ss, ss], in order. */
  lemma {:induction false} BigPair(b: Block, f: seq<int>, ks: seq<int>, ss: int, x: int, y: int)
    requires ks == Keys(b) && Buckets(f, ks) && 0 <= ss < 256 && LeadSorted(b, f, ks, ss) && 0 <= x < y < |b|
    requires 0 <= f[x] < |b| && 0 <= f[y] < |b| && b[f[x]] == b[f[y]] == ss && Ch(b, f[x], 1) != ss
    ensures f[x] != f[y] && RotLe(b, f[x], f[y])
  {
    hide Start, RotLe, Ch;
    BucketAt(f, ks, x);
    BucketAt(f, ks, y);
    KeyParts(b, ks, f[x]);
    KeyParts(b, ks, f[y]);
    ChInside(b, f[x]);
    ChInside(b, f[y]);
    var g := f[..|ks|];
    assert g[x] != g[y];
    if ks[f[y]] < ks[f[x]] { StartMono(ks, ks[f[y]] + 1, ks[f[x]]); }
    if ks[f[x]] == ks[f[y]] {
      assert SmallSorted(b, f, ks, ks[f[x]]);
      assert RotLe(b, f[x], f[y]);
    } else {
      SecondByte(b, f[x], f[y]);
    }
  }

  lemma {:induction false} BucketAt(f: seq<int>, ks: seq<int>, y: int)
    requires Buckets(f, ks) && 0 <= y < |ks|
    ensures 0 <= f[y] < |ks| && Start(ks, ks[f[y]]) <= y < Start(ks, ks[f[y]] + 1)
  {
    assert InBucket(f[..|ks|], ks, y);
  }

  lemma {:induction false} LeadChain(b: Block, f: seq<int>, ks: seq<int>, ss: int, up: bool)
    requires ks == Keys(b) && Buckets(f, ks) && 0 <= ss < 256 && LeadSorted(b, f, ks, ss)
    ensures Good(b, ss, up, LeadOf(f, ks, ss, up))
  {
    hide Start, Buckets, LeadSize, LeadSorted, Side, RotLe, Ch;
    BucketsSize(f, ks);
    var a := LeadOf(f, ks, ss, up);
    forall i | 0 <= i < |a|
      ensures 0 <= a[i] < |b| && b[a[i]] == ss && Side(b, ss, up, a[i])
    {
      LeadEntry(b, f, ks, ss, up, i);
    }
    forall i, j | 0 <= i < j < |a| ensures a[i] != a[j] && Ord(b, up, a[i], a[j]) {
      LeadEntry(b, f, ks, ss, up, i);
      LeadEntry(b, f, ks, ss, up, j);
      if up { BigPair(b, f, ks, ss, ReadAt(ks, ss, up, i), ReadAt(ks, ss, up, j)); }
      else { BigPair(b, f, ks, ss, ReadAt(ks, ss, up, j), ReadAt(ks, ss, up, i)); }
    }
  }

  lemma {:induction false} LeadAll(b: Block, f: seq<int>, ks: seq<int>, ss: int, up: bool, r: int)
    requires ks == Keys(b) && Buckets(f, ks) && 0 <= ss < 256 && 0 <= r < |b| && b[r] == ss
    requires if up then Ch(b, r, 1) < ss else Ch(b, r, 1) > ss
    ensures r in LeadOf(f, ks, ss, up)
  {
    hide Start, Buckets, Ch;
    KeyParts(b, ks, r);
    var y := FindRotation(f, ks, r);
    BucketsSize(f, ks);
    var a := LeadOf(f, ks, ss, up);
    if up {
      StartMono(ks, 256 * ss, ks[r]);
      StartMono(ks, ks[r] + 1, 257 * ss);
      var i := y - Start(ks, 256 * ss);
      assert ReadAt(ks, ss, up, i) == y;
      assert a[i] == r;
    } else {
      StartMono(ks, 257 * ss + 1, ks[r]);
      StartMono(ks, ks[r] + 1, 256 * ss + 256);
      var i := Start(ks, 256 * ss + 256) - 1 - y;
      assert ReadAt(ks, ss, up, i) == y;
      assert a[i] == r;
    }
  }

  /** With the other small buckets of ss in order, a scan can start from them. */
  lemma {:induction false} LeadIs(b: Block, f: seq<int>, ks: seq<int>, ss: int, up: bool)
    requires ks == Keys(b) && Buckets(f, ks) && 0 <= ss < 256 && LeadSorted(b, f, ks, ss)
    ensures Lead(b, ss, up, LeadOf(f, ks, ss, up))
  {
    hide Start, Buckets, LeadSize, LeadSorted, Good, Ch;
    BucketsSize(f, ks);
    var a := LeadOf(f, ks, ss, up);
    LeadChain(b, f, ks, ss, up);
    forall i | 0 <= i < |a|
      ensures if up then Ch(b, a[i], 1) < ss else Ch(b, a[i], 1) > ss
    {
      LeadEntry(b, f, ks, ss, up, i);
    }
    forall r | 0 <= r < |b| && b[r] == ss && (if up then Ch(b, r, 1) < ss else Ch(b, r, 1) > ss) ensures r in a {
      LeadAll(b, f, ks, ss, up, r);
    }
  }

  /** The state before a scan. */
  lemma {:induction false} ScanBegins(b: Block, ks: seq<int>, ss: int, up: bool, done: seq<bool>, a: seq<int>,
    f: seq<int>, cs: seq<int>)
    requires 0 <= ss < 256 && |done| == |cs| == 256 && !done[ss] && ks == Keys(b) && |b| <= |f|
    requires Lead(b, ss, up, a) && |a| == LeadSize(ks, ss, up)
    requires forall i | 0 <= i < |a| :: 0 <= ReadAt(ks, ss, up, i) < |f| && f[ReadAt(ks, ss, up, i)] == a[i]
    requires forall t | 0 <= t < 256 :: cs[t] == Place(ks, ss, up, t, 0)
    ensures Scanning(b, ks, ss, up, done, a, f, f, cs, [])
  {
    hide Start, LeadSize, ReadAt, Lead;
    NothingScanned(b, ss, up, a);
  }

  // ---- both scans

  /** A scan that has read all there is to read. */
  ghost predicate Ended(b: Block, ks: seq<int>, ss: int, up: bool, done: seq<bool>, a: seq<int>, g: seq<int>,
    f: seq<int>, cs: seq<int>, s: seq<int>) {
    Scanning(b, ks, ss, up, done, a, g, f, cs, s) && |s| == |ToScan(b, ss, a, s)|
  }

  /** The upward scan from f0 to f1, then the downward scan from f1 to f2. */
  ghost predicate BothEnded(b: Block, ks: seq<int>, ss: int, done: seq<bool>, al: seq<int>, ar: seq<int>, f0: seq<int>,
    f1: seq<int>, f2: seq<int>, cl: seq<int>, cr: seq<int>, sl: seq<int>, sr: seq<int>) {
    Ended(b, ks, ss, true, done, al, f0, f1, cl, sl) && Ended(b, ks, ss, false, done, ar, f1, f2, cr, sr)
  }

  lemma {:induction false} EndedGood(b: Block, ks: seq<int>, ss: int, up: bool, done: seq<bool>, a: seq<int>,
    g: seq<int>, f: seq<int>, cs: seq<int>, s: seq<int>)
    requires Ended(b, ks, ss, up, done, a, g, f, cs, s)
    ensures AreRotations(b, s) && Good(b, ss, up, s) && ks == Keys(b) && |ks| == |b| <= |f| == |g| && 0 <= ss < 256
    ensures |done| == |cs| == 256 && !done[ss] && Scanned(b, ss, up, a, s) && |s| == |ToScan(b, ss, a, s)|
  {
    hide Scanned, Held, Written, Start;
    ScannedGood(b, ss, up, a, s);
  }

  lemma {:induction false} BeforeInjective(n: int, x: int, y: int)
    requires 0 <= x < n && 0 <= y < n && Before(x, n) == Before(y, n)
    ensures x == y
  {
  }

  /** No rotation is noted by both scans. */
  lemma {:induction false} Exclusive(b: Block, ss: int, sl: seq<int>, sr: seq<int>, t: int, i: int, j: int)
    requires Good(b, ss, true, sl) && Good(b, ss, false, sr) && 0 <= i < |Induced(b, sl, t)| &&
      0 <= j < |Induced(b, sr, t)|
    ensures Induced(b, sl, t)[i] != Induced(b, sr, t)[j]
  {
    hide Induced, Side, Ord;
    var x := InducedFrom(b, sl, t, i);
    var y := InducedFrom(b, sr, t, j);
    SidesDiffer(b, ss, sl[x]);
    if Before(sl[x], |b|) == Before(sr[y], |b|) { BeforeInjective(|b|, sl[x], sr[y]); }
  }

  /** What the two scans note fits into the bucket, so they do not overlap. */
  lemma {:induction false} TogetherFit(b: Block, ks: seq<int>, ss: int, sl: seq<int>, sr: seq<int>, t: int)
    requires Good(b, ss, true, sl) && Good(b, ss, false, sr) && ks == Keys(b) && 0 <= t < 256
    ensures |Induced(b, sl, t)| + |Induced(b, sr, t)| <= Size(ks, 256 * t + ss)
  {
    hide Induced, Start, Good, Size;
    InducedKeys(b, ks, ss, true, sl, t) by { GoodIs(b, ss, true, sl); }
    InducedKeys(b, ks, ss, false, sr, t) by { GoodIs(b, ss, false, sr); }
    GoodIs(b, ss, true, sl);
    GoodIs(b, ss, false, sr);
    var l, r := Induced(b, sl, t), Induced(b, sr, t);
    var p := l + r;
    forall i, j | 0 <= i < j < |p| ensures p[i] != p[j] {
      if i < |l| && j >= |l| { Exclusive(b, ss, sl, sr, t, i, j - |l|); }
    }
    KeyBound(ks, 256 * t + ss, p);
  }

  lemma {:induction false} GoodIs(b: Block, c: int, up: bool, s: seq<int>)
    requires Good(b, c, up, s)
    ensures AreRotations(b, s)
  {
  }

  /** The block has no other byte than c. */
  ghost predicate Constant(b: Block, c: int) {
    forall i | 0 <= i < |b| :: b[i] == c
  }

  lemma {:induction false} ConstantFrom(b: Block, c: int, r: int)
    requires 0 <= r < |b| && forall k: nat :: Ch(b, r, k) == c
    ensures Constant(b, c)
  {
    forall i | 0 <= i < |b| ensures b[i] == c {
      var k := if i >= r then i - r else i - r + |b|;
      assert Ch(b, r, k) == c;
      if i < r { ChPeriod(b, i, 0); }
      ChInside(b, i);
    }
  }

  /** Unless the block is constant, the scans together note every rotation [t, ss]. */
  lemma {:induction false} NotedByOne(b: Block, ks: seq<int>, ss: int, al: seq<int>, ar: seq<int>, sl: seq<int>,
    sr: seq<int>, t: int, r: int)
    requires Scanned(b, ss, true, al, sl) && |sl| == |ToScan(b, ss, al, sl)|
    requires Scanned(b, ss, false, ar, sr) && |sr| == |ToScan(b, ss, ar, sr)|
    requires AreRotations(b, sl) && AreRotations(b, sr)
    requires ks == Keys(b) && !Constant(b, ss) && 0 <= ss < 256 && 0 <= t < 256 && 0 <= r < |b| && ks[r] == 256 * t + ss
    ensures r in Induced(b, sl, t) || r in Induced(b, sr, t)
  {
    hide Induced, Scanned, Ch, Constant;
    KeyParts(b, ks, r);
    KeyIsPair(b[r], Ch(b, r, 1), t, ss);
    var q := if r == |b| - 1 then 0 else r + 1;
    BeforeCh(b, q, 1);
    ChInside(b, q);
    SomeSide(b, ss, q);
    if Side(b, ss, true, q) {
      NotedBy(b, ss, true, al, sl, q);
    } else if Side(b, ss, false, q) {
      NotedBy(b, ss, false, ar, sr, q);
    } else {
      ConstantFrom(b, ss, q);
    }
  }

  lemma {:induction false} KeyIsPair(c: Byte, d: Byte, t: int, ss: int)
    requires 256 * c + d == 256 * t + ss && 0 <= ss < 256
    ensures c == t && d == ss
  {
  }

  lemma {:induction false} NotedBy(b: Block, c: int, up: bool, a: seq<int>, s: seq<int>, q: int)
    requires Scanned(b, c, up, a, s) && |s| == |ToScan(b, c, a, s)| && AreRotations(b, s)
    requires 0 <= q < |b| && b[q] == c && Side(b, c, up, q)
    ensures 0 <= Before(q, |b|) < |b| && Before(q, |b|) in Induced(b, s, b[Before(q, |b|)])
  {
    hide Induced, Scanned;
    var m: nat :| SideAt(b, c, up, q, m);
    ScanComplete(b, c, up, a, s, q, m);
    var x :| 0 <= x < |s| && s[x] == q;
    InducedAll(b, s, x);
  }

  lemma {:induction false} TogetherAll(b: Block, ks: seq<int>, ss: int, al: seq<int>, ar: seq<int>, sl: seq<int>,
    sr: seq<int>, t: int)
    requires Scanned(b, ss, true, al, sl) && |sl| == |ToScan(b, ss, al, sl)|
    requires Scanned(b, ss, false, ar, sr) && |sr| == |ToScan(b, ss, ar, sr)|
    requires Good(b, ss, true, sl) && Good(b, ss, false, sr)
    requires ks == Keys(b) && !Constant(b, ss) && 0 <= ss < 256 && 0 <= t < 256
    ensures |Induced(b, sl, t)| + |Induced(b, sr, t)| == Size(ks, 256 * t + ss)
  {
    hide Induced, Scanned, Start, Size, Constant, ToScan;
    TogetherFit(b, ks, ss, sl, sr, t);
    var p := Induced(b, sl, t) + Induced(b, sr, t);
    forall r | 0 <= r < |ks| && ks[r] == 256 * t + ss ensures r in p {
      NotedByOne(b, ks, ss, al, ar, sl, sr, t, r);
    }
    KeyCover(ks, 256 * t + ss, p);
  }

  // ---- what the scans leave in a small bucket

  /** The upward scan's places of [t, ss] are not written by the downward scan. */
  lemma {:induction false} NotOverwritten(b: Block, ks: seq<int>, ss: int, done: seq<bool>, sl: seq<int>, sr: seq<int>,
    t: int, i: int)
    requires Good(b, ss, true, sl) && Good(b, ss, false, sr) && ks == Keys(b) && |done| == 256 && 0 <= t < 256
    requires AreRotations(b, sl) && AreRotations(b, sr) && 0 <= i < |Induced(b, sl, t)|
    ensures !Written(b, ks, ss, false, done, sr, Place(ks, ss, true, t, i))
  {
    hide Induced, Start, Good, Size, Place;
    var z := Place(ks, ss, true, t, i);
    TogetherFit(b, ks, ss, sl, sr, t);
    forall u, j | 0 <= u < 256 && 0 <= j < |Induced(b, sr, u)| ensures Place(ks, ss, false, u, j) != z {
      TogetherFit(b, ks, ss, sl, sr, u);
      if u == t { OppositePlaces(ks, ss, t, i, j); } else {
        PlaceInBucket(ks, ss, true, t, i); PlaceInBucket(ks, ss, false, u, j); BucketsApart(ks, 256 * t + ss,
          256 * u + ss, z, Place(ks, ss, false, u, j));
      }
    }
  }

  lemma {:induction false} OppositePlaces(ks: seq<int>, ss: int, t: int, i: int, j: int)
    requires i + j < Size(ks, 256 * t + ss) - 1
    ensures Place(ks, ss, true, t, i) != Place(ks, ss, false, t, j)
  {
  }

  /** Small bucket [t, ss] consists of l from its start and r from its end. */
  ghost predicate Halves(f: seq<int>, ks: seq<int>, ss: int, t: int, l: seq<int>, r: seq<int>) {
    && |l| + |r| == Size(ks, 256 * t + ss) && |ks| <= |f|
    && (forall i | 0 <= i < |l| :: 0 <= Place(ks, ss, true, t, i) < |f| && f[Place(ks, ss, true, t, i)] == l[i])
    && (forall j | 0 <= j < |r| :: 0 <= Place(ks, ss, false, t, j) < |f| && f[Place(ks, ss, false, t, j)] == r[j])
  }

  lemma {:induction false} FilledHalves(b: Block, ks: seq<int>, ss: int, done: seq<bool>, al: seq<int>, ar: seq<int>,
    f0: seq<int>, f1: seq<int>, f2: seq<int>, cl: seq<int>, cr: seq<int>, sl: seq<int>, sr: seq<int>, t: int)
    requires BothEnded(b, ks, ss, done, al, ar, f0, f1, f2, cl, cr, sl, sr) && !Constant(b, ss)
    requires 0 <= t < 256 && |done| == 256 && !done[t] && AreRotations(b, sl) && AreRotations(b, sr)
    ensures Halves(f2, ks, ss, t, Induced(b, sl, t), Induced(b, sr, t))
  {
    hide Induced, Start, Good, Size, Place, Scanned, Written, ToScan, Constant;
    EndedGood(b, ks, ss, true, done, al, f0, f1, cl, sl);
    EndedGood(b, ks, ss, false, done, ar, f1, f2, cr, sr);
    TogetherAll(b, ks, ss, al, ar, sl, sr, t);
    assert Held(b, ks, ss, true, f1, sl, t) && Held(b, ks, ss, false, f2, sr, t);
    forall i | 0 <= i < |Induced(b, sl, t)| ensures f2[Place(ks, ss, true, t, i)] == Induced(b, sl, t)[i] {
      NotOverwritten(b, ks, ss, done, sl, sr, t, i);
    }
  }

  /** The entry at position y of a bucket in two halves. */
  function HalfEntry(ks: seq<int>, c: int, l: seq<int>, r: seq<int>, y: int): int
    requires Start(ks, c) <= y < Start(ks, c + 1) && |l| + |r| == Size(ks, c)
  {
    if y - Start(ks, c) < |l| then l[y - Start(ks, c)] else r[Start(ks, c + 1) - 1 - y]
  }

  lemma {:induction false} HalvesAt(f: seq<int>, ks: seq<int>, ss: int, t: int, l: seq<int>, r: seq<int>, y: int)
    requires Halves(f, ks, ss, t, l, r) && Start(ks, 256 * t + ss) <= y < Start(ks, 256 * t + ss + 1)
    ensures y < |f| && f[y] == HalfEntry(ks, 256 * t + ss, l, r, y)
  {
    hide Start;
    StartBound(ks, 256 * t + ss + 1);
    if y - Start(ks, 256 * t + ss) < |l| {
      assert y == Place(ks, ss, true, t, y - Start(ks, 256 * t + ss));
    } else {
      assert y == Place(ks, ss, false, t, Start(ks, 256 * t + ss + 1) - 1 - y);
    }
  }

  lemma {:induction false} StartBound(ks: seq<int>, c: int)
    ensures 0 <= Start(ks, c) <= |ks|
  {
  }

  /** A rotation noted upwards comes before one noted downwards. */
  lemma {:induction false} SidesInOrder(b: Block, ss: int, sl: seq<int>, sr: seq<int>, t: int, i: int, j: int)
    requires Good(b, ss, true, sl) && Good(b, ss, false, sr) && 0 <= i < |Induced(b, sl, t)| &&
      0 <= j < |Induced(b, sr, t)|
    ensures RotLe(b, Induced(b, sl, t)[i], Induced(b, sr, t)[j])
  {
    hide Induced, Side, RotLe;
    var x := InducedFrom(b, sl, t, i);
    var y := InducedFrom(b, sr, t, j);
    SidesOrdered(b, ss, sl[x], sr[y]);
    OrdBefore(b, true, sl[x], sr[y]);
  }

  lemma {:induction false} HalvesPair(b: Block, f: seq<int>, ks: seq<int>, ss: int, sl: seq<int>, sr: seq<int>, t: int,
    x: int, y: int)
    requires Good(b, ss, true, sl) && Good(b, ss, false, sr) && AreRotations(b, sl) && AreRotations(b, sr) &&
      ks == Keys(b) && 0 <= t < 256
    requires Halves(f, ks, ss, t, Induced(b, sl, t), Induced(b, sr, t))
    requires Start(ks, 256 * t + ss) <= x < y < Start(ks, 256 * t + ss + 1)
    ensures y < |f| && f[x] != f[y] && RotLe(b, f[x], f[y])
  {
    hide Induced, Start, Good, Halves, Side, RotLe;
    var c, l, r := 256 * t + ss, Induced(b, sl, t), Induced(b, sr, t);
    HalvesAt(f, ks, ss, t, l, r, x);
    HalvesAt(f, ks, ss, t, l, r, y);
    InducedKeys(b, ks, ss, true, sl, t);
    InducedKeys(b, ks, ss, false, sr, t);
    HalvesSize(f, ks, ss, t, l, r);
    var i, j := x - Start(ks, c), y - Start(ks, c);
    var i', j' := Start(ks, c + 1) - 1 - x, Start(ks, c + 1) - 1 - y;
    if j < |l| {
      assert l[i] != l[j] && Ord(b, true, l[i], l[j]);
    } else if i >= |l| {
      assert r[j'] != r[i'] && Ord(b, false, r[j'], r[i']);
    } else {
      Exclusive(b, ss, sl, sr, t, i, j');
      SidesInOrder(b, ss, sl, sr, t, i, j');
    }
  }

  lemma {:induction false} HalvesSize(f: seq<int>, ks: seq<int>, ss: int, t: int, l: seq<int>, r: seq<int>)
    requires Halves(f, ks, ss, t, l, r)
    ensures |l| + |r| == Size(ks, 256 * t + ss) && |ks| <= |f|
  {
  }

  /** The bucket as the scans leave it: its own rotations, all different, in order. */
  ghost predicate SmallDone(b: Block, f: seq<int>, ks: seq<int>, c: int) {
    && 0 <= Start(ks, c) <= Start(ks, c + 1) <= |ks| <= |f|
    && (forall y | Start(ks, c) <= y < Start(ks, c + 1) :: 0 <= f[y] < |ks| && ks[f[y]] == c)
    && (forall x, y {:trigger f[x], f[y]} | Start(ks, c) <= x < y < Start(ks, c + 1) ::
        f[x] != f[y] && RotLe(b, f[x], f[y]))
  }

  lemma {:induction false} HalvesDone(b: Block, f: seq<int>, ks: seq<int>, ss: int, sl: seq<int>, sr: seq<int>, t: int)
    requires Good(b, ss, true, sl) && Good(b, ss, false, sr) && AreRotations(b, sl) && AreRotations(b, sr) &&
      ks == Keys(b) && 0 <= t < 256
    requires Halves(f, ks, ss, t, Induced(b, sl, t), Induced(b, sr, t))
    ensures SmallDone(b, f, ks, 256 * t + ss)
  {
    hide Induced, Start, Good, Halves, Side, RotLe, Chain;
    var c, l, r := 256 * t + ss, Induced(b, sl, t), Induced(b, sr, t);
    StartMono(ks, c, c + 1);
    StartBound(ks, c);
    StartBound(ks, c + 1);
    HalvesSize(f, ks, ss, t, l, r);
    InducedKeys(b, ks, ss, true, sl, t);
    InducedKeys(b, ks, ss, false, sr, t);
    forall y | Start(ks, c) <= y < Start(ks, c + 1) ensures 0 <= f[y] < |ks| && ks[f[y]] == c {
      HalvesAt(f, ks, ss, t, l, r, y);
    }
    forall x, y | Start(ks, c) <= x < y < Start(ks, c + 1) ensures f[x] != f[y] && RotLe(b, f[x], f[y]) {
      HalvesPair(b, f, ks, ss, sl, sr, t, x, y);
    }
  }

  // ---- the whole order afterwards

  /** Small bucket c is as it was. */
  ghost predicate Kept(f0: seq<int>, f: seq<int>, ks: seq<int>, c: int) {
    |f0| == |f| && |ks| <= |f| && forall y | Start(ks, c) <= y < Start(ks, c + 1) :: f[y] == f0[y]
  }

  /** If every small bucket is either done or as it was, all buckets are still what they should be. */
  lemma {:induction false} StillBuckets(b: Block, f0: seq<int>, f: seq<int>, ks: seq<int>)
    requires ks == Keys(b) && Buckets(f0, ks)
    requires |ks| <= |f| && forall c | 0 <= c < 65536 :: SmallDone(b, f, ks, c) || Kept(f0, f, ks, c)
    ensures Buckets(f, ks)
  {
    hide Start, SmallDone, Kept, Keys;
    var g := f[..|ks|];
    forall y | 0 <= y < |ks| ensures 0 <= g[y] < |ks| && InBucket(g, ks, y) { StillInBucket(b, f0, f, ks, y); }
    forall x, y | 0 <= x < y < |ks| ensures g[x] != g[y] { StillDifferent(b, f0, f, ks, x, y); }
  }

  lemma {:induction false} StillInBucket(b: Block, f0: seq<int>, f: seq<int>, ks: seq<int>, y: int)
    requires ks == Keys(b) && Buckets(f0, ks) && |ks| <= |f| && 0 <= y < |ks|
    requires forall c | 0 <= c < 65536 :: SmallDone(b, f, ks, c) || Kept(f0, f, ks, c)
    ensures 0 <= f0[y] < |ks| && 0 <= f[y] < |ks| && ks[f[y]] == ks[f0[y]] &&
      Start(ks, ks[f[y]]) <= y < Start(ks, ks[f[y]] + 1)
  {
    hide Start, RotLe;
    BucketAt(f0, ks, y);
    KeyParts(b, ks, f0[y]);
    assert SmallDone(b, f, ks, ks[f0[y]]) || Kept(f0, f, ks, ks[f0[y]]);
  }

  lemma {:induction false} StillDifferent(b: Block, f0: seq<int>, f: seq<int>, ks: seq<int>, x: int, y: int)
    requires ks == Keys(b) && Buckets(f0, ks) && |ks| <= |f| && 0 <= x < y < |ks|
    requires forall c | 0 <= c < 65536 :: SmallDone(b, f, ks, c) || Kept(f0, f, ks, c)
    ensures f[x] != f[y]
  {
    hide Start, RotLe;
    StillInBucket(b, f0, f, ks, x);
    StillInBucket(b, f0, f, ks, y);
    KeyParts(b, ks, f0[x]);
    BucketAt(f0, ks, x);
    BucketAt(f0, ks, y);
    var g0 := f0[..|ks|];
    assert g0[x] != g0[y];
    var c := ks[f0[x]];
    assert SmallDone(b, f, ks, c) || Kept(f0, f, ks, c);
  }

  /** A written position lies in a small bucket [t, ss] of an unfinished t. */
  lemma {:induction false} WrittenIn(b: Block, ks: seq<int>, ss: int, up: bool, done: seq<bool>, s: seq<int>, c: int,
    z: int)
    requires ks == Keys(b) && |done| == 256 && 0 <= ss < 256 && Good(b, ss, up, s) && AreRotations(b, s)
    requires 0 <= c < 65536 && (c % 256 != ss || done[c / 256]) && Start(ks, c) <= z < Start(ks, c + 1)
    ensures !Written(b, ks, ss, up, done, s, z)
  {
    hide Induced, Start, Good, Size, Place;
    if Written(b, ks, ss, up, done, s, z) {
      var t, i :| 0 <= t < 256 && 0 <= i < |Induced(b, s, t)| && !done[t] && Place(ks, ss, up, t, i) == z;
      InducedKeys(b, ks, ss, up, s, t);
      PlaceInBucket(ks, ss, up, t, i);
      BucketsApart(ks, 256 * t + ss, c, z, z);
    }
  }

  lemma {:induction false} KeptElsewhere(b: Block, ks: seq<int>, ss: int, done: seq<bool>, al: seq<int>, ar: seq<int>,
    f0: seq<int>, f1: seq<int>, f2: seq<int>, cl: seq<int>, cr: seq<int>, sl: seq<int>, sr: seq<int>, c: int)
    requires BothEnded(b, ks, ss, done, al, ar, f0, f1, f2, cl, cr, sl, sr)
    requires |done| == 256 && 0 <= c < 65536 && (c % 256 != ss || done[c / 256])
    ensures Kept(f0, f2, ks, c)
  {
    hide Induced, Start, Good, Size, Place, Scanned, Written, ToScan, Held;
    EndedGood(b, ks, ss, true, done, al, f0, f1, cl, sl);
    EndedGood(b, ks, ss, false, done, ar, f1, f2, cr, sr);
    forall y | Start(ks, c) <= y < Start(ks, c + 1) ensures f2[y] == f0[y] {
      WrittenIn(b, ks, ss, true, done, sl, c, y);
      WrittenIn(b, ks, ss, false, done, sr, c, y);
      StartBound(ks, c);
      StartBound(ks, c + 1);
    }
  }

  // ---- the constant block

  lemma {:induction false} ConstantNoSide(b: Block, c: int, up: bool, r: int)
    requires Constant(b, c)
    ensures !Side(b, c, up, r)
  {
    forall m: nat ensures Ch(b, r, m) == c {
    }
  }

  lemma {:induction false} ConstantOrder(b: Block, c: int, i: int, j: int)
    requires Constant(b, c)
    ensures RotLe(b, i, j)
  {
    assert Agree(b, i, j, |b|);
  }

  lemma {:induction false} ConstantScan(b: Block, c: int, up: bool, s: seq<int>)
    requires Constant(b, c) && Good(b, c, up, s)
    ensures s == []
  {
    if s != [] { ConstantNoSide(b, c, up, s[0]); }
  }

  lemma {:induction false} ConstantKeys(b: Block, ks: seq<int>, c: int)
    requires Constant(b, c) && 0 <= c < 256 && ks == Keys(b)
    ensures Start(ks, 257 * c) == 0 && Start(ks, 257 * c + 1) == |b|
  {
    ConstantBelow(b, ks, c, |ks|);
  }

  lemma {:induction false} ConstantBelow(b: Block, ks: seq<int>, c: int, m: nat)
    requires Constant(b, c) && 0 <= c < 256 && ks == Keys(b) && m <= |ks|
    ensures Below(ks, 257 * c, m) == 0 && Below(ks, 257 * c + 1, m) == m
  {
    if m > 0 { ConstantBelow(b, ks, c, m - 1); }
  }

  // ---- both scans of a big bucket

  /**
   * What a big bucket's scans achieve: every small bucket [t, ss] of an unfinished t is done, the others are as they
   * were.
   */
  ghost predicate ScanResult(b: Block, ks: seq<int>, ss: int, done: seq<bool>, f0: seq<int>, f: seq<int>) {
    && |done| == 256 && |f0| == |f| && Buckets(f, ks)
    && (forall t | 0 <= t < 256 && !done[t] :: SmallSorted(b, f, ks, 256 * t + ss))
    && (forall c | 0 <= c < 65536 && (c % 256 != ss || done[c / 256]) :: Kept(f0, f, ks, c))
  }

  lemma {:induction false} DoneIsSorted(b: Block, f: seq<int>, ks: seq<int>, c: int)
    requires SmallDone(b, f, ks, c)
    ensures SmallSorted(b, f, ks, c)
  {
  }

  lemma {:induction false} BucketNumber(c: int, ss: int)
    requires 0 <= c < 65536 && c % 256 == ss
    ensures 0 <= c / 256 < 256 && c == 256 * (c / 256) + ss
  {
  }

  lemma {:induction false} ResultMixed(b: Block, ks: seq<int>, ss: int, done: seq<bool>, al: seq<int>, ar: seq<int>,
    f0: seq<int>, f1: seq<int>, f2: seq<int>, cl: seq<int>, cr: seq<int>, sl: seq<int>, sr: seq<int>)
    requires BothEnded(b, ks, ss, done, al, ar, f0, f1, f2, cl, cr, sl, sr) && Buckets(f0, ks) && !Constant(b, ss)
    ensures ScanResult(b, ks, ss, done, f0, f2)
  {
    hide Induced, Start, Good, Size, Place, Scanned, Written, ToScan, Held, BothEnded, Halves, SmallDone, Kept, Buckets,
      Constant;
    EndsOf(b, ks, ss, done, al, ar, f0, f1, f2, cl, cr, sl, sr);
    EndedGood(b, ks, ss, true, done, al, f0, f1, cl, sl);
    EndedGood(b, ks, ss, false, done, ar, f1, f2, cr, sr);
    forall t | 0 <= t < 256 && !done[t]
      ensures SmallDone(b, f2, ks, 256 * t + ss) && SmallSorted(b, f2, ks, 256 * t + ss)
    {
      FilledHalves(b, ks, ss, done, al, ar, f0, f1, f2, cl, cr, sl, sr, t);
      HalvesDone(b, f2, ks, ss, sl, sr, t);
      DoneIsSorted(b, f2, ks, 256 * t + ss);
    }
    forall c | 0 <= c < 65536 ensures SmallDone(b, f2, ks, c) || Kept(f0, f2, ks, c)
      ensures c % 256 != ss || done[c / 256] ==> Kept(f0, f2, ks, c)
    {
      if c % 256 != ss || done[c / 256] {
        KeptElsewhere(b, ks, ss, done, al, ar, f0, f1, f2, cl, cr, sl, sr, c);
      } else {
        BucketNumber(c, ss);
        assert SmallDone(b, f2, ks, 256 * (c / 256) + ss);
      }
    }
    StillBuckets(b, f0, f2, ks);
  }

  lemma {:induction false} EndsOf(b: Block, ks: seq<int>, ss: int, done: seq<bool>, al: seq<int>, ar: seq<int>,
    f0: seq<int>, f1: seq<int>, f2: seq<int>, cl: seq<int>, cr: seq<int>, sl: seq<int>, sr: seq<int>)
    requires BothEnded(b, ks, ss, done, al, ar, f0, f1, f2, cl, cr, sl, sr)
    ensures Ended(b, ks, ss, true, done, al, f0, f1, cl, sl) && Ended(b, ks, ss, false, done, ar, f1, f2, cr, sr)
  {
  }

  /** In a constant block nothing is scanned, and any order is sorted. */
  lemma {:induction false} ResultConstant(b: Block, ks: seq<int>, ss: int, done: seq<bool>, al: seq<int>, ar: seq<int>,
    f0: seq<int>, f1: seq<int>, f2: seq<int>, cl: seq<int>, cr: seq<int>, sl: seq<int>, sr: seq<int>)
    requires BothEnded(b, ks, ss, done, al, ar, f0, f1, f2, cl, cr, sl, sr) && Buckets(f0, ks) && Constant(b, ss)
    ensures f2 == f0 && ScanResult(b, ks, ss, done, f0, f2) && sl == [] && sr == []
  {
    hide Start, Good, Size, Scanned, Held, BothEnded, Buckets, Constant, ToScan, Place, RotLe;
    EndsOf(b, ks, ss, done, al, ar, f0, f1, f2, cl, cr, sl, sr);
    EndedGood(b, ks, ss, true, done, al, f0, f1, cl, sl);
    EndedGood(b, ks, ss, false, done, ar, f1, f2, cr, sr);
    ConstantScan(b, ss, true, sl);
    ConstantScan(b, ss, false, sr);
    assert forall z | 0 <= z < |f0| :: f1[z] == f0[z];
    assert f2 == f0;
    forall t | 0 <= t < 256 && !done[t] ensures SmallSorted(b, f2, ks, 256 * t + ss) {
      StartMono(ks, 256 * t + ss, 256 * t + ss + 1);
      StartBound(ks, 256 * t + ss);
      StartBound(ks, 256 * t + ss + 1);
      forall x, y | 0 <= x < y < |f2| ensures RotLe(b, f2[x], f2[y]) { ConstantOrder(b, ss, f2[x], f2[y]); }
    }
    BucketsSize(f0, ks);
    forall c | 0 <= c < 65536 && (c % 256 != ss || done[c / 256]) ensures Kept(f0, f2, ks, c) {
      StartBound(ks, c);
      StartBound(ks, c + 1);
    }
  }

  /** The scans meet in [ss, ss], unless the block is constant: the source's check cannot fail. */
  lemma {:induction false} ScansMeet(b: Block, ks: seq<int>, ss: int, done: seq<bool>, al: seq<int>, ar: seq<int>,
    f0: seq<int>, f1: seq<int>, f2: seq<int>, cl: seq<int>, cr: seq<int>, sl: seq<int>, sr: seq<int>)
    requires BothEnded(b, ks, ss, done, al, ar, f0, f1, f2, cl, cr, sl, sr) && Buckets(f0, ks)
    ensures 0 <= ss < |cl| == |cr| == 256
    ensures !Constant(b, ss) ==> cl[ss] - 1 == cr[ss]
    ensures Constant(b, ss) ==> cl[ss] == 0 && cr[ss] == |b| - 1
  {
    hide Start, Good, Scanned, BothEnded, Buckets, Constant, ToScan, Induced, Written;
    EndsOf(b, ks, ss, done, al, ar, f0, f1, f2, cl, cr, sl, sr);
    EndedGood(b, ks, ss, true, done, al, f0, f1, cl, sl);
    EndedGood(b, ks, ss, false, done, ar, f1, f2, cr, sr);
    if Constant(b, ss) {
      ResultConstant(b, ks, ss, done, al, ar, f0, f1, f2, cl, cr, sl, sr);
      ConstantKeys(b, ks, ss);
      InducedNone(b, ss);
    } else {
      TogetherAll(b, ks, ss, al, ar, sl, sr, ss);
    }
  }

  lemma {:induction false} InducedNone(b: Block, t: int)
    ensures Induced(b, [], t) == []
  {
  }

  /** What the upward scan leaves for the downward one to start from. */
  lemma {:induction false} RightBegins(b: Block, ks: seq<int>, ss: int, done: seq<bool>, al: seq<int>, f0: seq<int>,
    f1: seq<int>, cl: seq<int>, cr: seq<int>, sl: seq<int>)
    requires Ended(b, ks, ss, true, done, al, f0, f1, cl, sl) && Buckets(f0, ks) && LeadSorted(b, f0, ks, ss)
    requires 0 <= ss < 256 && |cr| == 256 && forall t | 0 <= t < 256 :: cr[t] == Place(ks, ss, false, t, 0)
    ensures |ks| <= |f0| && Scanning(b, ks, ss, false, done, LeadOf(f0, ks, ss, false), f1, f1, cr, [])
  {
    hide Start, Good, Scanned, Buckets, ToScan, Induced, Place, LeadSize, ReadAt, Held, LeadSorted, Lead;
    BucketsSize(f0, ks);
    EndedGood(b, ks, ss, true, done, al, f0, f1, cl, sl);
    var a := LeadOf(f0, ks, ss, false);
    LeadIs(b, f0, ks, ss, false);
    forall i | 0 <= i < |a| ensures f1[ReadAt(ks, ss, false, i)] == a[i] {
      LeadUnwritten(b, ks, ss, done, sl, i);
    }
    ScanBegins(b, ks, ss, false, done, a, f1, cr);
  }

  lemma {:induction false} LeadUnwritten(b: Block, ks: seq<int>, ss: int, done: seq<bool>, sl: seq<int>, i: int)
    requires Good(b, ss, true, sl) && AreRotations(b, sl) && ks == Keys(b) && |done| == 256 && 0 <= ss < 256 &&
      0 <= i < LeadSize(ks, ss, false)
    ensures !Written(b, ks, ss, true, done, sl, ReadAt(ks, ss, false, i))
  {
    hide Induced, Start, Good, Size, Place, LeadSize, ReadAt;
    forall t, j | 0 <= t < 256 && 0 <= j < |Induced(b, sl, t)|
      ensures Place(ks, ss, true, t, j) != ReadAt(ks, ss, false, i)
    {
      InducedKeys(b, ks, ss, true, sl, t);
      LeadApart(ks, ss, false, i, true, t, j);
    }
  }
}
