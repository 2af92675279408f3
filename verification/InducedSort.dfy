/**
 * Induced sorting: reading a sorted list of rotations and noting the rotation in front of each sorts those in front,
 * byte by byte, and completes the list itself.
 */
module InducedSort {
  import opened Rotations
  import opened InverseBwt
  import opened Counting

  /** In the direction of the scan: upwards, or downwards. */
  ghost predicate Ord(b: Block, up: bool, i: int, j: int) {
    if up then RotLe(b, i, j) else RotLe(b, j, i)
  }

  ghost predicate AreRotations(b: Block, s: seq<int>) {
    forall i | 0 <= i < |s| :: 0 <= s[i] < |b|
  }

  /** All different, and in the direction of the scan. */
  ghost predicate Chain(b: Block, up: bool, s: seq<int>) {
    forall x, y {:trigger s[x], s[y]} | 0 <= x < y < |s| :: s[x] != s[y] && Ord(b, up, s[x], s[y])
  }

  /** The rotations in front of those of s that start with the byte t, in the order of s. */
  ghost function Induced(b: Block, s: seq<int>, t: int): (r: seq<int>)
    requires AreRotations(b, s)
    ensures |r| <= |s|
  {
    if s == [] then []
    else
      var k := Before(s[|s| - 1], |b|);
      Induced(b, s[..|s| - 1], t) + if b[k] == t then [k] else []
  }

  lemma {:induction false} InducedMore(b: Block, s: seq<int>, r: int, t: int)
    requires AreRotations(b, s) && 0 <= r < |b|
    ensures AreRotations(b, s + [r]) && 0 <= Before(r, |b|) < |b|
    ensures Induced(b, s + [r], t) == Induced(b, s, t) + if b[Before(r, |b|)] == t then [Before(r, |b|)] else []
  {
    assert (s + [r])[..|s + [r]| - 1] == s;
  }

  /** The bytes of the rotation in front. */
  lemma {:induction false} BeforeCh(b: Block, r: int, k: int)
    requires 0 <= r < |b|
    ensures 0 <= Before(r, |b|) < |b| && Ch(b, Before(r, |b|), k) == Ch(b, r, k - 1)
    ensures b[Before(r, |b|)] == Ch(b, Before(r, |b|), 0)
  {
    ChPeriod(b, r - 1, k);
    ChInside(b, Before(r, |b|));
  }

  lemma {:induction false} ChInside(b: Block, i: int)
    requires 0 <= i < |b|
    ensures Ch(b, i, 0) == b[i]
  {
  }

  /** Each entry stands in front of an entry of s. */
  lemma {:induction false} InducedFrom(b: Block, s: seq<int>, t: int, i: int) returns (x: int)
    requires AreRotations(b, s) && 0 <= i < |Induced(b, s, t)|
    ensures 0 <= x < |s| && Induced(b, s, t)[i] == Before(s[x], |b|)
    ensures 0 <= Before(s[x], |b|) < |b| && b[Before(s[x], |b|)] == t
  {
    var n := |s| - 1;
    if i < |Induced(b, s[..n], t)| {
      x := InducedFrom(b, s[..n], t, i);
    } else {
      x := n;
    }
  }

  lemma {:induction false} InducedPair(b: Block, s: seq<int>, t: int, i: int, j: int) returns (x: int, y: int)
    requires AreRotations(b, s) && 0 <= i < j < |Induced(b, s, t)|
    ensures 0 <= x < y < |s| && Induced(b, s, t)[i] == Before(s[x], |b|) && Induced(b, s, t)[j] == Before(s[y], |b|)
    ensures 0 <= Before(s[x], |b|) < |b| && b[Before(s[x], |b|)] == b[Before(s[y], |b|)] == t
  {
    var n := |s| - 1;
    if j < |Induced(b, s[..n], t)| {
      x, y := InducedPair(b, s[..n], t, i, j);
    } else {
      x := InducedFrom(b, s[..n], t, i);
      y := n;
    }
  }

  /** Every entry of s has the rotation in front of it noted under its byte. */
  lemma {:induction false} InducedAll(b: Block, s: seq<int>, x: int)
    requires AreRotations(b, s) && 0 <= x < |s|
    ensures 0 <= Before(s[x], |b|) < |b| && Before(s[x], |b|) in Induced(b, s, b[Before(s[x], |b|)])
  {
    var n := |s| - 1;
    if x < n { InducedAll(b, s[..n], x); }
  }

  lemma {:induction false} OrdBefore(b: Block, up: bool, i: int, j: int)
    requires 0 <= i < |b| && 0 <= j < |b| && Ord(b, up, i, j) && b[Before(i, |b|)] == b[Before(j, |b|)]
    ensures Ord(b, up, Before(i, |b|), Before(j, |b|))
  {
    hide RotLe;
    BeforeCh(b, i, 0);
    BeforeCh(b, j, 0);
    if up { BeforeLe(b, i, j); } else { BeforeLe(b, j, i); }
  }

  /** Rotations in front of a sorted list, with the same byte, come out sorted. */
  lemma {:induction false} InducedChain(b: Block, up: bool, s: seq<int>, t: int)
    requires AreRotations(b, s) && Chain(b, up, s)
    ensures AreRotations(b, Induced(b, s, t)) && Chain(b, up, Induced(b, s, t))
  {
    hide Ord, Induced;
    var r := Induced(b, s, t);
    forall i | 0 <= i < |r| ensures 0 <= r[i] < |b| { var x := InducedFrom(b, s, t, i); }
    forall i, j | 0 <= i < j < |r| ensures r[i] != r[j] && Ord(b, up, r[i], r[j]) {
      var x, y := InducedPair(b, s, t, i, j);
      assert s[x] != s[y] && Ord(b, up, s[x], s[y]);
      OrdBefore(b, up, s[x], s[y]);
    }
  }

  // ---- which side of "c for ever" a rotation is on

  ghost predicate SideAt(b: Block, c: int, up: bool, r: int, m: nat) {
    (forall k | 0 <= k < m :: Ch(b, r, k) == c) && if up then Ch(b, r, m) < c else Ch(b, r, m) > c
  }

  /** After some bytes c the rotation goes on with a lesser byte (up), or with a greater one. */
  ghost predicate Side(b: Block, c: int, up: bool, r: int) {
    exists m: nat :: SideAt(b, c, up, r, m)
  }

  lemma {:induction false} SideBefore(b: Block, c: int, up: bool, r: int, m: nat)
    requires 0 <= r < |b| && SideAt(b, c, up, r, m) && b[Before(r, |b|)] == c
    ensures SideAt(b, c, up, Before(r, |b|), m + 1)
  {
    var p := Before(r, |b|);
    BeforeCh(b, r, m + 1);
    forall k | 0 <= k < m + 1 ensures Ch(b, p, k) == c {
      BeforeCh(b, r, k);
      if k > 0 { assert Ch(b, r, k - 1) == c; }
    }
  }

  lemma {:induction false} SidesDiffer(b: Block, c: int, r: int)
    ensures !(Side(b, c, true, r) && Side(b, c, false, r))
  {
  }

  lemma {:induction false} SidesOrdered(b: Block, c: int, r: int, q: int)
    requires Side(b, c, true, r) && Side(b, c, false, q)
    ensures RotLe(b, r, q)
  {
    var m: nat :| SideAt(b, c, true, r, m);
    var k: nat :| SideAt(b, c, false, q, k);
    var h := if m < k then m else k;
    assert h < m ==> Ch(b, r, h) == c;
    assert h < k ==> Ch(b, q, h) == c;
    assert Agree(b, r, q, h);
    assert LessAt(b, r, q, h);
    if h < |b| {
      assert Less(b, r, q, |b|);
    } else {
      assert Less(b, r, q, h + 1);
      LongOrder(b, r, q, h + 1);
    }
  }

  /** Unless the block has no other byte than c, every rotation is on one side. */
  lemma {:induction false} SomeSide(b: Block, c: int, r: int)
    ensures Side(b, c, true, r) || Side(b, c, false, r) || forall k: nat :: Ch(b, r, k) == c
  {
    if !(forall k: nat :: Ch(b, r, k) == c) {
      var k: nat :| Ch(b, r, k) != c;
      FirstOther(b, c, r, k);
    }
  }

  lemma {:induction false} FirstOther(b: Block, c: int, r: int, k: nat)
    requires Ch(b, r, k) != c
    ensures Side(b, c, true, r) || Side(b, c, false, r)
  {
    if j: nat :| j < k && Ch(b, r, j) != c {
      FirstOther(b, c, r, j);
    } else {
      assert SideAt(b, c, Ch(b, r, k) < c, r, k);
    }
  }

  // ---- the scan of one big bucket

  /** Sorted rotations that start with c, all on the side being scanned. */
  ghost predicate Good(b: Block, c: int, up: bool, w: seq<int>) {
    AreRotations(b, w) && Chain(b, up, w) && forall i | 0 <= i < |w| :: b[w[i]] == c && Side(b, c, up, w[i])
  }

  /** The small buckets the scan starts from: all rotations that start with c and go on with a byte on the side. */
  ghost predicate Lead(b: Block, c: int, up: bool, a: seq<int>) {
    && Good(b, c, up, a)
    && (forall i | 0 <= i < |a| :: if up then Ch(b, a[i], 1) < c else Ch(b, a[i], 1) > c)
    && (forall r | 0 <= r < |b| && b[r] == c && (if up then Ch(b, r, 1) < c else Ch(b, r, 1) > c) :: r in a)
  }

  /** What there is to scan, once s has been scanned. */
  ghost function ToScan(b: Block, c: int, a: seq<int>, s: seq<int>): seq<int>
    requires AreRotations(b, s)
  {
    a + Induced(b, s, c)
  }

  ghost predicate Scanned(b: Block, c: int, up: bool, a: seq<int>, s: seq<int>) {
    && AreRotations(b, s) && Lead(b, c, up, a) && Good(b, c, up, ToScan(b, c, a, s))
    && |s| <= |ToScan(b, c, a, s)| && s == ToScan(b, c, a, s)[..|s|]
  }

  lemma {:induction false} NothingScanned(b: Block, c: int, up: bool, a: seq<int>)
    requires Lead(b, c, up, a)
    ensures Scanned(b, c, up, a, [])
  {
    assert ToScan(b, c, a, []) == a;
  }

  /** A rotation with a second byte on the side comes before one with two bytes c. */
  lemma {:induction false} LeadFirst(b: Block, c: int, up: bool, r: int, q: int)
    requires 0 <= r < |b| && 0 <= q < |b| && b[r] == b[q] == c && Ch(b, q, 1) == c
    requires if up then Ch(b, r, 1) < c else Ch(b, r, 1) > c
    ensures r != q && Ord(b, up, r, q)
  {
    ChInside(b, r);
    ChInside(b, q);
    if up { SecondByte(b, r, q); } else { SecondByte(b, q, r); }
  }

  lemma {:induction false} SecondByte(b: Block, r: int, q: int)
    requires Ch(b, r, 0) == Ch(b, q, 0) && Ch(b, r, 1) < Ch(b, q, 1)
    ensures RotLe(b, r, q)
  {
    assert LessAt(b, r, q, 1);
    if |b| < 2 { LongOrder(b, r, q, 2); }
  }

  /** The rotation in front of the one scanned next, if it starts with c, follows all there is to scan. */
  lemma {:induction false} GoesLast(b: Block, c: int, up: bool, a: seq<int>, s: seq<int>, i: int)
    requires Scanned(b, c, up, a, s) && |s| < |ToScan(b, c, a, s)| && 0 <= i < |ToScan(b, c, a, s)|
    requires b[Before(ToScan(b, c, a, s)[|s|], |b|)] == c
    ensures var k := Before(ToScan(b, c, a, s)[|s|], |b|);
      ToScan(b, c, a, s)[i] != k && Ord(b, up, ToScan(b, c, a, s)[i], k)
  {
    hide Ord, Side, Induced;
    var w := ToScan(b, c, a, s);
    var r := w[|s|];
    var k := Before(r, |b|);
    BeforeCh(b, r, 1);
    ChInside(b, r);
    if i < |a| {
      assert w[i] == a[i];
      LeadFirst(b, c, up, w[i], k);
    } else {
      var x := InducedFrom(b, s, c, i - |a|);
      assert s[x] == w[x];
      assert w[x] != r && Ord(b, up, w[x], r);
      OrdBefore(b, up, s[x], r);
    }
  }

  /** One step of the scan. */
  lemma {:induction false} ScanStep(b: Block, c: int, up: bool, a: seq<int>, s: seq<int>, r: int)
    requires Scanned(b, c, up, a, s) && |s| < |ToScan(b, c, a, s)| && r == ToScan(b, c, a, s)[|s|]
    ensures Scanned(b, c, up, a, s + [r])
  {
    hide Ord, Side, Induced, Lead;
    var w := ToScan(b, c, a, s);
    InducedMore(b, s, r, c);
    var k, s' := Before(r, |b|), s + [r];
    var w' := ToScan(b, c, a, s');
    assert s' == w[..|s| + 1];
    if b[k] == c {
      assert w' == w + [k];
      SideOfBefore(b, c, up, r);
      forall i | 0 <= i < |w| ensures w[i] != k && Ord(b, up, w[i], k) { GoesLast(b, c, up, a, s, i); }
    } else {
      assert w' == w;
    }
  }

  lemma {:induction false} SideOfBefore(b: Block, c: int, up: bool, r: int)
    requires 0 <= r < |b| && Side(b, c, up, r) && b[Before(r, |b|)] == c
    ensures Side(b, c, up, Before(r, |b|))
  {
    var m: nat :| SideAt(b, c, up, r, m);
    SideBefore(b, c, up, r, m);
  }

  /** When nothing is left to scan, every rotation on the side has been scanned. */
  lemma {:induction false} ScanComplete(b: Block, c: int, up: bool, a: seq<int>, s: seq<int>, r: int, m: nat)
    requires Scanned(b, c, up, a, s) && |s| == |ToScan(b, c, a, s)|
    requires 0 <= r < |b| && b[r] == c && SideAt(b, c, up, r, m)
    ensures r in s
    decreases m
  {
    hide SideAt, Scanned, Induced, Ch;
    ScannedAll(b, c, up, a, s);
    var w := ToScan(b, c, a, s);
    if m <= 1 {
      FirstAfter(b, c, up, a, s, r, m);
      var i :| 0 <= i < |a| && a[i] == r;
      assert w[i] == r;
    } else {
      var q := if r == |b| - 1 then 0 else r + 1;
      AfterSide(b, c, up, r, q, m);
      ScanComplete(b, c, up, a, s, q, m - 1);
      var x :| 0 <= x < |s| && s[x] == q;
      InducedAll(b, s, x);
      var i :| 0 <= i < |Induced(b, s, c)| && Induced(b, s, c)[i] == r;
      assert w[|a| + i] == r;
    }
  }

  lemma {:induction false} ScannedAll(b: Block, c: int, up: bool, a: seq<int>, s: seq<int>)
    requires Scanned(b, c, up, a, s) && |s| == |ToScan(b, c, a, s)|
    ensures s == ToScan(b, c, a, s) && AreRotations(b, s) && AreRotations(b, a)
  {
  }

  lemma {:induction false} FirstAfter(b: Block, c: int, up: bool, a: seq<int>, s: seq<int>, r: int, m: nat)
    requires Scanned(b, c, up, a, s) && 0 <= r < |b| && b[r] == c && SideAt(b, c, up, r, m) && m <= 1
    ensures r in a
  {
    ChInside(b, r);
  }

  lemma {:induction false} AfterSide(b: Block, c: int, up: bool, r: int, q: int, m: nat)
    requires 0 <= r < |b| && q == (if r == |b| - 1 then 0 else r + 1) && m > 1 && SideAt(b, c, up, r, m)
    ensures 0 <= q < |b| && Before(q, |b|) == r && SideAt(b, c, up, q, m - 1) && b[q] == c
  {
    BeforeCh(b, q, m);
    forall k | 0 <= k < m - 1 ensures Ch(b, q, k) == c {
      BeforeCh(b, q, k + 1);
      assert Ch(b, r, k + 1) == c;
    }
    ChInside(b, q);
    assert Ch(b, q, 0) == c;
  }
}
