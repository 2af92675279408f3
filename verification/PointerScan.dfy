/**
 * The main sorter's pointer scan: reading big bucket ss, its small bucket [ss, ss] included, upwards and downwards
 * sorts the small buckets [t, ss] of every unfinished t.
 */
module PointerScan {
  import opened Rotations
  import opened InverseBwt
  import opened Counting
  import opened ByteView
  import opened Overlay
  import opened MainCompare
  import opened MainSimpleSort
  import opened MainRadix
  import opened InducedSort

  function Size(ks: seq<int>, c: int): int {
    Start(ks, c + 1) - Start(ks, c)
  }

  // ---- how many rotations have a key

  ghost predicate Distinct(p: seq<int>) {
    forall i, j | 0 <= i < j < |p| :: p[i] != p[j]
  }

  ghost function Members(p: seq<int>): (r: set<int>)
    ensures forall v :: v in r <==> v in p
  {
    set v | v in p
  }

  lemma {:induction false} MembersSize(p: seq<int>)
    ensures |Members(p)| <= |p| && (Distinct(p) ==> |Members(p)| == |p|)
  {
    if p != [] {
      var n := |p| - 1;
      MembersSize(p[..n]);
      assert Members(p) == Members(p[..n]) + {p[n]};
      if Distinct(p) { assert p[n] !in Members(p[..n]); }
    }
  }

  lemma {:induction false} SubsetCount(s: set<int>, t: set<int>)
    requires s <= t
    ensures |s| <= |t|
  {
    assert t == s + (t - s);
  }

  lemma {:induction false} SizeIsCount(ks: seq<int>, c: int)
    ensures Size(ks, c) == |Where(ks, c, |ks|)| >= 0
  {
    BelowStep(ks, c, |ks|);
    CountIsSize(ks, c, |ks|);
  }

  ghost predicate HaveKey(ks: seq<int>, c: int, p: seq<int>) {
    forall i | 0 <= i < |p| :: 0 <= p[i] < |ks| && ks[p[i]] == c
  }

  /** Different rotations with one key fit into its bucket. */
  lemma {:induction false} KeyBound(ks: seq<int>, c: int, p: seq<int>)
    requires Distinct(p) && HaveKey(ks, c, p)
    ensures |p| <= Size(ks, c)
  {
    hide Start;
    SizeIsCount(ks, c);
    MembersSize(p);
    SubsetCount(Members(p), Where(ks, c, |ks|));
  }

  /** All rotations with one key fill its bucket. */
  lemma {:induction false} KeyCover(ks: seq<int>, c: int, p: seq<int>)
    requires forall i | 0 <= i < |ks| && ks[i] == c :: i in p
    ensures |p| >= Size(ks, c)
  {
    hide Start;
    SizeIsCount(ks, c);
    MembersSize(p);
    SubsetCount(Where(ks, c, |ks|), Members(p));
  }

  // ---- where the scan reads and writes

  /** Place i, in the direction of the scan, of small bucket [t, ss]. */
  function Place(ks: seq<int>, ss: int, up: bool, t: int, i: int): int {
    if up then Start(ks, 256 * t + ss) + i else Start(ks, 256 * t + ss + 1) - 1 - i
  }

  /** Place i, in the direction of the scan, of big bucket ss. */
  function ReadAt(ks: seq<int>, ss: int, up: bool, i: int): int {
    if up then Start(ks, 256 * ss) + i else Start(ks, 256 * ss + 256) - 1 - i
  }

  /** How much of big bucket ss comes before small bucket [ss, ss] in the direction of the scan. */
  function LeadSize(ks: seq<int>, ss: int, up: bool): int {
    if up then Start(ks, 257 * ss) - Start(ks, 256 * ss) else Start(ks, 256 * ss + 256) - Start(ks, 257 * ss + 1)
  }

  lemma {:induction false} PlaceInBucket(ks: seq<int>, ss: int, up: bool, t: int, i: int)
    requires 0 <= i < Size(ks, 256 * t + ss)
    ensures 0 <= Start(ks, 256 * t + ss) <= Place(ks, ss, up, t, i) < Start(ks, 256 * t + ss + 1) <= |ks|
  {
  }

  lemma {:induction false} BucketsApart(ks: seq<int>, c: int, d: int, x: int, y: int)
    requires c != d && Start(ks, c) <= x < Start(ks, c + 1) && Start(ks, d) <= y < Start(ks, d + 1)
    ensures x != y
  {
    if c < d { StartMono(ks, c + 1, d); } else { StartMono(ks, d + 1, c); }
  }

  lemma {:induction false} PlacesApart(ks: seq<int>, ss: int, up: bool, t: int, i: int, u: int, j: int)
    requires 0 <= i < Size(ks, 256 * t + ss) && 0 <= j < Size(ks, 256 * u + ss) && (t != u || i != j)
    ensures Place(ks, ss, up, t, i) != Place(ks, ss, up, u, j)
  {
    hide Start;
    PlaceInBucket(ks, ss, up, t, i);
    PlaceInBucket(ks, ss, up, u, j);
    if t != u { BucketsApart(ks, 256 * t + ss, 256 * u + ss, Place(ks, ss, up, t, i), Place(ks, ss, up, u, j)); }
  }

  /** The part of big bucket ss read first is not in any small bucket [t, ss]. */
  lemma {:induction false} LeadApart(ks: seq<int>, ss: int, up: bool, i: int, way: bool, t: int, j: int)
    requires 0 <= ss < 256 && 0 <= t < 256 && 0 <= i < LeadSize(ks, ss, up) && 0 <= j < Size(ks, 256 * t + ss)
    ensures ReadAt(ks, ss, up, i) != Place(ks, ss, way, t, j)
  {
    hide Start;
    PlaceInBucket(ks, ss, way, t, j);
    if up { StartMono(ks, 256 * ss, 257 * ss); } else { StartMono(ks, 257 * ss + 1, 256 * ss + 256); }
    if t < ss {
      StartMono(ks, 256 * t + ss + 1, 256 * ss);
      StartMono(ks, 256 * t + ss + 1, 257 * ss + 1);
    } else if t > ss {
      StartMono(ks, 256 * ss + 256, 256 * t + ss);
      StartMono(ks, 257 * ss, 256 * t + ss);
    }
  }

  // ---- the state of a scan

  /** The rotations noted for byte t are in their places. */
  ghost predicate Held(b: Block, ks: seq<int>, ss: int, up: bool, f: seq<int>, s: seq<int>, t: int) {
    AreRotations(b, s) &&
      forall i | 0 <= i < |Induced(b, s, t)| ::
      0 <= Place(ks, ss, up, t, i) < |f| && f[Place(ks, ss, up, t, i)] == Induced(b, s, t)[i]
  }

  /** Position z has been written by the scan. */
  ghost predicate Written(b: Block, ks: seq<int>, ss: int, up: bool, done: seq<bool>, s: seq<int>, z: int)
    requires |done| == 256 && AreRotations(b, s)
  {
    exists t, i {:trigger Place(ks, ss, up, t, i)} | 0 <= t < 256 && 0 <= i < |Induced(b, s, t)| ::
      !done[t] && Place(ks, ss, up, t, i) == z
  }

  /**
   * Everything a scan keeps: what has been read is s, what has been noted is in place, and nothing else has changed.
   */
  ghost predicate Scanning(b: Block, ks: seq<int>, ss: int, up: bool, done: seq<bool>, a: seq<int>, g: seq<int>,
    f: seq<int>, cs: seq<int>, s: seq<int>) {
    && 0 <= ss < 256 && |done| == |cs| == 256 && !done[ss] && ks == Keys(b) && |b| <= |f| == |g|
    && Scanned(b, ss, up, a, s) && |a| == LeadSize(ks, ss, up)
    && (forall i | 0 <= i < |a| :: 0 <= ReadAt(ks, ss, up, i) < |f| && f[ReadAt(ks, ss, up, i)] == a[i])
    && (forall t | 0 <= t < 256 && !done[t] ::
        Held(b, ks, ss, up, f, s, t) && cs[t] == Place(ks, ss, up, t, |Induced(b, s, t)|))
    && (forall z | 0 <= z < |f| && !Written(b, ks, ss, up, done, s, z) :: f[z] == g[z])
  }

  /** The rotations noted for t fit into [t, ss]. */
  lemma {:induction false} InducedKeys(b: Block, ks: seq<int>, ss: int, up: bool, s: seq<int>, t: int)
    requires 0 <= t < 256 && ks == Keys(b) && Good(b, ss, up, s)
    ensures HaveKey(ks, 256 * t + ss, Induced(b, s, t)) && Chain(b, up, Induced(b, s, t)) && Distinct(Induced(b, s, t))
    ensures |Induced(b, s, t)| <= Size(ks, 256 * t + ss)
  {
    hide Induced, Start, Ord, Side;
    InducedChain(b, up, s, t);
    var p := Induced(b, s, t);
    forall i | 0 <= i < |p| ensures 0 <= p[i] < |ks| && ks[p[i]] == 256 * t + ss {
      var x := InducedFrom(b, s, t, i);
      BeforeCh(b, s[x], 1);
      ChInside(b, s[x]);
    }
    assert Distinct(p);
    KeyBound(ks, 256 * t + ss, p);
  }

  lemma {:induction false} ScannedGood(b: Block, c: int, up: bool, a: seq<int>, s: seq<int>)
    requires Scanned(b, c, up, a, s)
    ensures Good(b, c, up, s) && AreRotations(b, s)
  {
    var w := ToScan(b, c, a, s);
    assert forall i | 0 <= i < |s| :: s[i] == w[i];
  }

  /** The rotation about to be read is the next one to scan. */
  lemma {:induction false} NextRead(b: Block, ks: seq<int>, ss: int, up: bool, done: seq<bool>, a: seq<int>,
    g: seq<int>, f: seq<int>, cs: seq<int>, s: seq<int>)
    requires Scanning(b, ks, ss, up, done, a, g, f, cs, s) && |s| < |ToScan(b, ss, a, s)|
    ensures 0 <= ReadAt(ks, ss, up, |s|) < |f| && f[ReadAt(ks, ss, up, |s|)] == ToScan(b, ss, a, s)[|s|]
  {
    hide Induced, Start, Scanned;
    if |s| >= |a| {
      assert Held(b, ks, ss, up, f, s, ss);
      assert ReadAt(ks, ss, up, |s|) == Place(ks, ss, up, ss, |s| - |a|);
    }
  }

  /** The source's loop condition: the scan has not yet caught up with small bucket [ss, ss]. */
  lemma {:induction false} MoreToRead(b: Block, ks: seq<int>, ss: int, up: bool, done: seq<bool>, a: seq<int>,
    g: seq<int>, f: seq<int>, cs: seq<int>, s: seq<int>)
    requires Scanning(b, ks, ss, up, done, a, g, f, cs, s)
    ensures 0 <= ss < |cs| && AreRotations(b, s) && |s| <= |ToScan(b, ss, a, s)|
    ensures |s| < |ToScan(b, ss, a, s)| <==>
      if up then ReadAt(ks, ss, up, |s|) < cs[ss] else ReadAt(ks, ss, up, |s|) > cs[ss]
  {
    hide Induced, Start, Held, Written;
  }

  /** The next rotation to scan, and the byte in front of it. */
  ghost predicate Next(b: Block, ss: int, a: seq<int>, s: seq<int>, r: int, k: int, c: int) {
    && AreRotations(b, s) && |s| < |ToScan(b, ss, a, s)| && r == ToScan(b, ss, a, s)[|s|] && 0 <= r < |b|
    && k == Before(r, |b|) && 0 <= k < |b| && c == b[k] && AreRotations(b, s + [r])
  }

  lemma {:induction false} IsNext(b: Block, ss: int, up: bool, a: seq<int>, s: seq<int>, r: int)
    requires Scanned(b, ss, up, a, s) && |s| < |ToScan(b, ss, a, s)| && r == ToScan(b, ss, a, s)[|s|]
    ensures 0 <= r < |b| && 0 <= Before(r, |b|) < |b| && Next(b, ss, a, s, r, Before(r, |b|), b[Before(r, |b|)])
    ensures Scanned(b, ss, up, a, s + [r])
  {
    hide Induced;
    ScanStep(b, ss, up, a, s, r);
  }

  lemma {:induction false} NextInduced(b: Block, ss: int, a: seq<int>, s: seq<int>, r: int, k: int, c: int, t: int)
    requires Next(b, ss, a, s, r, k, c)
    ensures AreRotations(b, s) && AreRotations(b, s + [r])
    ensures Induced(b, s + [r], t) == Induced(b, s, t) + if c == t then [k] else []
  {
    InducedMore(b, s, r, t);
  }

  /** The place for the rotation to be noted lies in its small bucket. */
  lemma {:induction false} NextPlace(b: Block, ks: seq<int>, ss: int, up: bool, a: seq<int>, s: seq<int>, r: int,
    k: int, c: int)
    requires Scanned(b, ss, up, a, s) && Next(b, ss, a, s, r, k, c) && ks == Keys(b)
    ensures AreRotations(b, s) && AreRotations(b, s + [r]) && 0 <= c < 256
    ensures |Induced(b, s, c)| < Size(ks, 256 * c + ss) && |Induced(b, s + [r], c)| == |Induced(b, s, c)| + 1
  {
    hide Induced, Start, Scanned, Good;
    NextInduced(b, ss, a, s, r, k, c, c);
    IsNext(b, ss, up, a, s, r);
    ScannedGood(b, ss, up, a, s + [r]);
    InducedKeys(b, ks, ss, up, s + [r], c);
  }

  lemma {:induction false} Fits(b: Block, ks: seq<int>, ss: int, up: bool, a: seq<int>, s: seq<int>, t: int)
    requires Scanned(b, ss, up, a, s) && ks == Keys(b) && 0 <= t < 256
    ensures AreRotations(b, s) && |Induced(b, s, t)| <= Size(ks, 256 * t + ss)
  {
    hide Induced, Start, Scanned, Good;
    ScannedGood(b, ss, up, a, s);
    InducedKeys(b, ks, ss, up, s, t);
  }

  /** Writing the next place of [c, ss] leaves what is noted in place, and adds to it. */
  lemma {:induction false} HeldNext(b: Block, ks: seq<int>, ss: int, up: bool, a: seq<int>, f: seq<int>, s: seq<int>,
    r: int, k: int, c: int, t: int)
    requires Scanned(b, ss, up, a, s) && Next(b, ss, a, s, r, k, c) && ks == Keys(b) && |b| <= |f| && 0 <= t < 256
    requires Held(b, ks, ss, up, f, s, t) && 0 <= Place(ks, ss, up, c, |Induced(b, s, c)|) < |f|
    ensures Held(b, ks, ss, up, f[Place(ks, ss, up, c, |Induced(b, s, c)|) := k], s + [r], t)
  {
    hide Induced, Start, Scanned, Place, Size, Next;
    NextPlace(b, ks, ss, up, a, s, r, k, c);
    NextInduced(b, ss, a, s, r, k, c, t);
    Fits(b, ks, ss, up, a, s, t);
    var n := |Induced(b, s, c)|;
    forall i | 0 <= i < |Induced(b, s, t)| ensures Place(ks, ss, up, t, i) != Place(ks, ss, up, c, n) {
      PlacesApart(ks, ss, up, t, i, c, n);
    }
  }

  lemma {:induction false} HeldStill(b: Block, ks: seq<int>, ss: int, up: bool, a: seq<int>, f: seq<int>, s: seq<int>,
    r: int, k: int, c: int, t: int)
    requires Next(b, ss, a, s, r, k, c) && Held(b, ks, ss, up, f, s, t) && t != c
    ensures Held(b, ks, ss, up, f, s + [r], t)
  {
    hide Induced, Start, Place;
    NextInduced(b, ss, a, s, r, k, c, t);
  }

  lemma {:induction false} WrittenNext(b: Block, ks: seq<int>, ss: int, up: bool, done: seq<bool>, a: seq<int>,
    s: seq<int>, r: int, k: int, c: int, z: int)
    requires |done| == 256 && Next(b, ss, a, s, r, k, c) && AreRotations(b, s)
    ensures Written(b, ks, ss, up, done, s, z) ==> Written(b, ks, ss, up, done, s + [r], z)
    ensures 0 <= c < 256 && !done[c] && z == Place(ks, ss, up, c, |Induced(b, s, c)|) ==>
      Written(b, ks, ss, up, done, s + [r], z)
  {
    hide Induced, Start, Place;
    NextInduced(b, ss, a, s, r, k, c, c);
    if Written(b, ks, ss, up, done, s, z) {
      var t, i :| 0 <= t < 256 && 0 <= i < |Induced(b, s, t)| && !done[t] && Place(ks, ss, up, t, i) == z;
      NextInduced(b, ss, a, s, r, k, c, t);
    }
  }

  /** A rotation noted: one step of either scan. */
  lemma {:induction false} Noted(b: Block, ks: seq<int>, ss: int, up: bool, done: seq<bool>, a: seq<int>, g: seq<int>,
    f: seq<int>, cs: seq<int>, s: seq<int>, r: int, k: int, c: int)
    requires Scanning(b, ks, ss, up, done, a, g, f, cs, s) && Next(b, ss, a, s, r, k, c) && 0 <= c < 256 && !done[c]
    ensures |cs| == 256 && 0 <= cs[c] < |f|
    ensures Scanning(b, ks, ss, up, done, a, g, f[cs[c] := k], cs[c := if up then cs[c] + 1 else cs[c] - 1], s + [r])
  {
    hide Induced, Start, Scanned, Held, Next, Written, Size;
    NextPlace(b, ks, ss, up, a, s, r, k, c);
    var n := |Induced(b, s, c)|;
    assert cs[c] == Place(ks, ss, up, c, n);
    PlaceInBucket(ks, ss, up, c, n);
    IsNext(b, ss, up, a, s, r) by { NextIs(b, ss, a, s, r, k, c); }
    var f', cs', s' := f[cs[c] := k], cs[c := if up then cs[c] + 1 else cs[c] - 1], s + [r];
    forall i | 0 <= i < |a| ensures f'[ReadAt(ks, ss, up, i)] == a[i] { LeadApart(ks, ss, up, i, up, c, n); }
    forall t | 0 <= t < 256 && !done[t]
      ensures Held(b, ks, ss, up, f', s', t) && cs'[t] == Place(ks, ss, up, t, |Induced(b, s', t)|)
    {
      NextInduced(b, ss, a, s, r, k, c, t);
      HeldNext(b, ks, ss, up, a, f, s, r, k, c, t);
    }
    forall z | 0 <= z < |f| && !Written(b, ks, ss, up, done, s', z) ensures f'[z] == g[z] {
      WrittenNext(b, ks, ss, up, done, a, s, r, k, c, z);
    }
  }

  lemma {:induction false} NextIs(b: Block, ss: int, a: seq<int>, s: seq<int>, r: int, k: int, c: int)
    requires Next(b, ss, a, s, r, k, c)
    ensures AreRotations(b, s) && |s| < |ToScan(b, ss, a, s)| && r == ToScan(b, ss, a, s)[|s|]
  {
  }

  /** A rotation passed over: the one in front belongs to a finished bucket. */
  lemma {:induction false} PassedOver(b: Block, ks: seq<int>, ss: int, up: bool, done: seq<bool>, a: seq<int>,
    g: seq<int>, f: seq<int>, cs: seq<int>, s: seq<int>, r: int, k: int, c: int)
    requires Scanning(b, ks, ss, up, done, a, g, f, cs, s) && Next(b, ss, a, s, r, k, c) && 0 <= c < 256 && done[c]
    ensures Scanning(b, ks, ss, up, done, a, g, f, cs, s + [r])
  {
    hide Induced, Start, Scanned, Held, Next, Written, Size;
    NextInduced(b, ss, a, s, r, k, c, c);
    IsNext(b, ss, up, a, s, r) by { NextIs(b, ss, a, s, r, k, c); }
    forall t | 0 <= t < 256 && !done[t]
      ensures Held(b, ks, ss, up, f, s + [r], t) && cs[t] == Place(ks, ss, up, t, |Induced(b, s + [r], t)|)
    {
      NextInduced(b, ss, a, s, r, k, c, t);
      HeldStill(b, ks, ss, up, a, f, s, r, k, c, t);
    }
    forall z | 0 <= z < |f| && !Written(b, ks, ss, up, done, s + [r], z) ensures f[z] == g[z] {
      NextInduced(b, ss, a, s, r, k, c, c);
      WrittenNext(b, ks, ss, up, done, a, s, r, k, c, z);
    }
  }

  // ---- the scanning loops

  /** k = ptr[j] - 1, going round; the rotation k is noted unless its bucket is finished. */
  method Note(ptr: array<int>, arr2: array<int>, place: array<int>, bigDone: array<bool>, nblock: int, j: int, up: bool,
    ghost b: Block, ghost q0: int, ghost quad: seq<int>, ghost ks: seq<int>, ghost ss: int, ghost a: seq<int>,
    ghost g: seq<int>, ghost s: seq<int>)
    returns (ghost s': seq<int>)
    requires ptr != arr2 && ptr != place && arr2 != place && nblock == |b|
    requires Ready(b, arr2[..], q0, quad) && bigDone.Length == 256
    requires Scanning(b, ks, ss, up, bigDone[..], a, g, ptr[..], place[..], s) && j == ReadAt(ks, ss, up, |s|)
    requires |s| < |ToScan(b, ss, a, s)|
    modifies ptr, place
    ensures Scanning(b, ks, ss, up, bigDone[..], a, g, ptr[..], place[..], s') && |s'| == |s| + 1
  {
    hide Ready, Scanning, ToScan, Induced, Next, Start, Ch;
    ghost var f, cs, done := ptr[..], place[..], bigDone[..];
    NextRead(b, ks, ss, up, done, a, g, f, cs, s);
    ghost var r := ptr[j];
    StepIsNext(b, ks, ss, up, done, a, g, f, cs, s);
    var k := ptr[j] - 1;
    if k < 0 { k := k + nblock; }
    assert k == Before(r, |b|);
    ReadyAt(b, arr2[..], q0, quad, k);
    var c1 := BlockByte(arr2, k);
    BlockAt(b, k);
    s' := s + [r];
    if !bigDone[c1] {
      Noted(b, ks, ss, up, done, a, g, f, cs, s, r, k, c1);
      ptr[place[c1]] := k;
      place[c1] := if up then place[c1] + 1 else place[c1] - 1;
      assert ptr[..] == f[cs[c1] := k] && place[..] == cs[c1 := if up then cs[c1] + 1 else cs[c1] - 1];
    } else {
      PassedOver(b, ks, ss, up, done, a, g, f, cs, s, r, k, c1);
    }
  }

  lemma {:induction false} StepIsNext(b: Block, ks: seq<int>, ss: int, up: bool, done: seq<bool>, a: seq<int>,
    g: seq<int>, f: seq<int>, cs: seq<int>, s: seq<int>)
    requires Scanning(b, ks, ss, up, done, a, g, f, cs, s) && |s| < |ToScan(b, ss, a, s)|
    ensures var r := ToScan(b, ss, a, s)[|s|];
      0 <= r < |b| && 0 <= Before(r, |b|) < |b| && Next(b, ss, a, s, r, Before(r, |b|), b[Before(r, |b|)])
  {
    hide Induced, Start, Scanned, Held, Next, Written, Size;
    ScannedGood(b, ss, up, a, s);
    IsNext(b, ss, up, a, s, ToScan(b, ss, a, s)[|s|]);
  }

  lemma {:induction false} LeftToScan(b: Block, ks: seq<int>, ss: int, up: bool, done: seq<bool>, a: seq<int>,
    g: seq<int>, f: seq<int>, cs: seq<int>, s: seq<int>)
    requires Scanning(b, ks, ss, up, done, a, g, f, cs, s)
    ensures AreRotations(b, s) && |s| <= |ToScan(b, ss, a, s)| <= |a| + Size(ks, 257 * ss)
  {
    hide Induced, Start, Held, Written, Size;
    Fits(b, ks, ss, up, a, s, ss);
  }

  /**
   * The whole scan in one direction: for (j = first; j < copyStart[ss]; j++), or for (j = last; j > copyEnd[ss]; j--).
   */
  method ScanBucket(ptr: array<int>, arr2: array<int>, place: array<int>, bigDone: array<bool>, nblock: int, first: int,
    ss: int, up: bool, ghost b: Block, ghost q0: int, ghost quad: seq<int>, ghost ks: seq<int>, ghost a: seq<int>,
    ghost g: seq<int>)
    returns (ghost s: seq<int>)
    requires ptr != arr2 && ptr != place && arr2 != place && nblock == |b|
    requires Ready(b, arr2[..], q0, quad) && bigDone.Length == 256
    requires Scanning(b, ks, ss, up, bigDone[..], a, g, ptr[..], place[..], []) && first == ReadAt(ks, ss, up, 0)
    modifies ptr, place
    ensures Scanning(b, ks, ss, up, bigDone[..], a, g, ptr[..], place[..], s)
    ensures AreRotations(b, s) && |s| == |ToScan(b, ss, a, s)|
  {
    hide Ready, Scanning, ToScan, Induced, Start, Size, AreRotations;
    var j := first;
    s := [];
    MoreToRead(b, ks, ss, up, bigDone[..], a, g, ptr[..], place[..], s);
    LeftToScan(b, ks, ss, up, bigDone[..], a, g, ptr[..], place[..], s);
    while if up then j < place[ss] else j > place[ss]
      invariant 0 <= ss < place.Length && j == ReadAt(ks, ss, up, |s|)
      invariant Scanning(b, ks, ss, up, bigDone[..], a, g, ptr[..], place[..], s)
      invariant AreRotations(b, s) && |s| <= |ToScan(b, ss, a, s)| <= |a| + Size(ks, 257 * ss)
      invariant |s| < |ToScan(b, ss, a, s)| <==> if up then j < place[ss] else j > place[ss]
      decreases |a| + Size(ks, 257 * ss) - |s|
    {
      s := Note(ptr, arr2, place, bigDone, nblock, j, up, b, q0, quad, ks, ss, a, g, s);
      j := if up then j + 1 else j - 1;
      MoreToRead(b, ks, ss, up, bigDone[..], a, g, ptr[..], place[..], s);
      LeftToScan(b, ks, ss, up, bigDone[..], a, g, ptr[..], place[..], s);
    }
  }
}
