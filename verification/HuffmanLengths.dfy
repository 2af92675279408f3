/** BZ2_hbMakeCodeLengths: Huffman code lengths of bounded length, by building trees and flattening the weights. */
module HuffmanLengths {
  import opened Bits
  import opened Rotations
  import opened HuffmanCodes
  import opened HuffmanForest
  import opened HuffmanHeap
  import opened HuffmanDepths
  import opened HuffmanOptimal

  const MAX_NODES := 2 * MAX_ALPHA_SIZE

  // ---- the leaves' weights

  /** The frequencies add up to this much when 0 counts as 1. */
  function Total(freq: seq<int>, k: nat): int
    requires k <= |freq|
  {
    if k == 0 then 0 else Total(freq, k - 1) + if freq[k - 1] == 0 then 1 else freq[k - 1]
  }

  /** What the symbols weigh in the first round: as often as they come, or once. */
  function Weights(freq: seq<int>, n: nat): (r: seq<int>)
    requires n <= |freq|
    ensures |r| == n
  {
    seq(n, i requires 0 <= i < n => if freq[i] == 0 then 1 else freq[i])
  }

  /** What they weigh after t rounds: each time half as much, and one more. */
  function Halved(ws: seq<int>, t: nat): (r: seq<int>)
    ensures |r| == |ws|
  {
    if t == 0 then ws else seq(|ws|, i requires 0 <= i < |ws| => 1 + Halved(ws, t - 1)[i] / 2)
  }

  /** The leaves have these weights. */
  ghost predicate Hold(w: seq<int>, ws: seq<int>) {
    |ws| < |w| && forall i | 0 <= i < |ws| :: WeightOf(w[i + 1]) == ws[i]
  }

  /** A best code for these weights is longer than that. */
  ghost predicate BestIsTooLong(ws: seq<int>, maxLen: int) {
    exists len: seq<nat> {:trigger IsBest(len, ws)} :: IsBest(len, ws) && exists i | 0 <= i < |len| :: len[i] > maxLen
  }

  function LeafTotal(w: seq<int>, k: nat): int
    requires k < |w|
  {
    if k == 0 then 0 else LeafTotal(w, k - 1) + WeightOf(w[k])
  }

  /** The leaves have positive weights and depth 0. */
  ghost predicate AreLeaves(w: seq<int>, n: int) {
    0 <= n < |w| && forall x | 1 <= x <= n :: 256 <= w[x] && DepthOf(w[x]) == 0
  }

  lemma {:induction false} LeafTotalSame(w: seq<int>, v: seq<int>, k: nat)
    requires k < |w| && k < |v| && forall x | 1 <= x <= k :: w[x] == v[x]
    ensures LeafTotal(w, k) == LeafTotal(v, k)
  {
    if k > 0 { LeafTotalSame(w, v, k - 1); }
  }

  method InitWeights(weight: array<int>, freq: array<int>, alphaSize: int)
    requires weight != freq && 2 <= alphaSize <= freq.Length && weight.Length == MAX_NODES &&
      alphaSize <= MAX_ALPHA_SIZE
    requires forall i | 0 <= i < alphaSize :: 0 <= freq[i]
    modifies weight
    ensures AreLeaves(weight[..], alphaSize) && LeafTotal(weight[..], alphaSize) == Total(freq[..], alphaSize)
    ensures Hold(weight[..], Weights(freq[..], alphaSize))
  {
    ghost var f := freq[..];
    for i := 0 to alphaSize
      invariant AreLeaves(weight[..], i) && LeafTotal(weight[..], i) == Total(f, i)
      invariant forall k | 0 <= k < i :: WeightOf(weight[k + 1]) == Weights(f, alphaSize)[k]
    {
      ghost var before := weight[..];
      weight[i + 1] := (if freq[i] == 0 then 1 else freq[i]) * 256;
      LeafTotalSame(before, weight[..], i);
    }
  }

  /** The scaled-down weight of a leaf. */
  function Scaled(x: int): int {
    (1 + (x / 256) / 2) * 256
  }

  lemma {:induction false} ScaledWeight(x: int)
    requires 256 <= x && DepthOf(x) == 0
    ensures 256 <= Scaled(x) && DepthOf(Scaled(x)) == 0 && WeightOf(Scaled(x)) <= WeightOf(x)
    ensures WeightOf(Scaled(x)) < WeightOf(x) || WeightOf(x) <= 2
    ensures WeightOf(Scaled(x)) == 1 + WeightOf(x) / 2
  {
  }

  method Rescale(weight: array<int>, n: int)
    requires 0 <= n < weight.Length && AreLeaves(weight[..], n)
    modifies weight
    ensures AreLeaves(weight[..], n) && LeafTotal(weight[..], n) <= old(LeafTotal(weight[..], n))
    ensures old(LeafTotal(weight[..], n)) > 2 * n ==> LeafTotal(weight[..], n) < old(LeafTotal(weight[..], n))
    ensures forall x | 1 <= x <= n :: WeightOf(weight[x]) == 1 + WeightOf(old(weight[x])) / 2
  {
    hide WeightOf, DepthOf;
    ghost var w := weight[..];
    for i := 1 to n + 1
      invariant AreLeaves(weight[..], n) && LeafTotal(weight[..], i - 1) <= LeafTotal(w, i - 1)
      invariant forall x | i <= x <= n :: weight[x] == w[x]
      invariant forall x | 1 <= x < i :: WeightOf(weight[x]) == 1 + WeightOf(w[x]) / 2
      invariant LeafTotal(weight[..], i - 1) == LeafTotal(w, i - 1) ==> LeafTotal(w, i - 1) <= 2 * (i - 1)
    {
      ghost var before := weight[..];
      ScaledWeight(w[i]);
      var j := weight[i] / 256;
      j := 1 + (j / 2);
      weight[i] := j * 256;
      LeafTotalSame(before, weight[..], i - 1);
    }
  }

  /** The leaves weigh the same. */
  ghost predicate SameLeaves(w: seq<int>, v: seq<int>, n: int) {
    0 <= n < |w| == |v| && forall x | 1 <= x <= n :: w[x] == v[x]
  }

  lemma {:induction false} SameLeavesStill(u: seq<int>, w: seq<int>, v: seq<int>, n: int)
    requires SameLeaves(u, w, n) && SameLeaves(w, v, n)
    ensures SameLeaves(u, v, n)
  {
  }

  lemma {:induction false} LeavesSame(w: seq<int>, v: seq<int>, n: int)
    requires SameLeaves(w, v, n) && AreLeaves(w, n)
    ensures AreLeaves(v, n) && LeafTotal(w, n) == LeafTotal(v, n)
  {
    LeafTotalSame(w, v, n);
  }

  // ---- building the tree

  /** The heap holds exactly the roots of the forest. */
  ghost predicate Growing(h: seq<int>, w: seq<int>, par: seq<int>, kids: seq<(int, int)>, n: int, nHeap: int, m: int,
    bound: int, total: int) {
    && Ordered(h, w, nHeap) && 0 <= nHeap < |h|
    && Weighed(w, par, kids, n, m, bound)
    && Contents(h, nHeap) == multiset(Roots(par, m))
    && nHeap + m == 2 * n && par[m] == -1 && RootWeight(w, par, m) == total
  }

  lemma {:induction false} OrderedAfter(h: seq<int>, w: seq<int>, n: int, x: int, v: int)
    requires Ordered(h, w, n) && 1 <= x < |w| && x !in Contents(h, n)
    ensures Ordered(h, w[x := v], n)
  {
    forall i | 0 <= i <= n ensures h[i] != x {
      if i > 0 { assert h[i] == h[1..n + 1][i - 1]; }
    }
    forall i | 1 <= i <= n ensures Above(h, w, n, i / 2, i) { }
    forall i | 1 <= i <= n
      ensures AreNodes(h, w[x := v], n) && Above(h, w[x := v], n, i / 2, i)
    {
      assert Above(h, w, n, i / 2, i);
    }
  }

  /** Leaves in the heap, each its own tree. */
  method PlaceLeaves(heap: array<int>, weight: array<int>, parent: array<int>, alphaSize: int)
    requires heap != weight && heap != parent && weight != parent
    requires heap.Length == MAX_ALPHA_SIZE + 2 && weight.Length == parent.Length == MAX_NODES
    requires 2 <= alphaSize <= MAX_ALPHA_SIZE && AreLeaves(weight[..], alphaSize)
    modifies heap, weight, parent
    ensures Growing(heap[..], weight[..], parent[..], [], alphaSize, alphaSize, alphaSize, 0,
      old(LeafTotal(weight[..], alphaSize)))
    ensures SameLeaves(old(weight[..]), weight[..], alphaSize)
  {
    heap[0] := 0;
    weight[0] := 0;
    parent[0] := -2;
    ghost var w := weight[..];
    EmptyHeap(heap[..], w, parent[..]);
    for i := 1 to alphaSize + 1
      invariant AllRoots(heap[..], weight[..], parent[..], i - 1) && weight[..] == w
      modifies heap, parent
    {
      PlaceLeaf(heap, weight, parent, i);
    }
    LeavesWeighed(w, parent[..], alphaSize);
    LeafRootWeight(old(weight[..]), w, parent[..], alphaSize);
  }

  /** Nodes 1..n are in the heap, without parents. */
  ghost predicate AllRoots(h: seq<int>, w: seq<int>, par: seq<int>, n: int) {
    && 0 <= n < |par| && n < |h| && Ordered(h, w, n) && Contents(h, n) == multiset(Roots(par, n))
    && forall x | 1 <= x <= n :: par[x] == -1
  }

  method PlaceLeaf(heap: array<int>, weight: array<int>, parent: array<int>, i: int)
    requires heap != weight && heap != parent && weight != parent && 1 <= i < heap.Length && i < parent.Length &&
      i < weight.Length
    requires AllRoots(heap[..], weight[..], parent[..], i - 1) && 0 <= weight[i]
    modifies heap, parent
    ensures AllRoots(heap[..], weight[..], parent[..], i)
  {
    hide Ordered, Contents, Roots;
    ghost var par := parent[..];
    MoreRoots(par, i);
    parent[i] := -1;
    assert parent[..] == par[i := -1];
    Insert(heap, weight, i - 1, i);
  }

  lemma {:induction false} EmptyHeap(h: seq<int>, w: seq<int>, par: seq<int>)
    requires |h| > 0 && |w| > 0 && |par| > 0 && h[0] == 0 && w[0] == 0
    ensures Ordered(h, w, 0) && Contents(h, 0) == multiset(Roots(par, 0))
  {
    assert Roots(par, 0) == {};
  }

  lemma {:induction false} MoreRoots(par: seq<int>, i: int)
    requires 1 <= i < |par|
    ensures multiset(Roots(par[i := -1], i)) == multiset(Roots(par, i - 1)) + multiset{i}
  {
    assert Roots(par[i := -1], i) == Roots(par, i - 1) + {i};
  }

  lemma {:induction false} LeavesWeighed(w: seq<int>, par: seq<int>, n: int)
    requires AreLeaves(w, n) && 1 <= n < |par| && forall x | 1 <= x <= n :: par[x] == -1
    ensures Weighed(w, par, [], n, n, 0)
  {
    assert Fib(0) == 1;
    forall x | 1 <= x <= n ensures ParentOk(par, [], n, x) && HeavyEnough(w, n, x) { }
  }

  lemma {:induction false} LeafRootWeight(w: seq<int>, v: seq<int>, par: seq<int>, n: nat)
    requires n < |par| && n < |w| == |v| && forall x | 1 <= x <= n :: par[x] == -1 && w[x] == v[x]
    ensures RootWeight(v, par, n) == LeafTotal(w, n)
  {
    if n > 0 { LeafRootWeight(w, v, par, n - 1); }
  }

  /** The two lightest roots a and b are out of the heap. */
  ghost predicate TwoOut(h: seq<int>, w: seq<int>, par: seq<int>, kids: seq<(int, int)>, n: int, nHeap: int, m: int,
    bound: int, total: int, a: int, b: int) {
    && Weighed(w, par, kids, n, m, bound) && RootWeight(w, par, m) == total < MAX_WEIGHT && m + 1 < |w| && m + 1 < |par|
    && a in Roots(par, m) && b in Roots(par, m) && a != b && w[a] <= w[b]
    && (forall x | x in Roots(par, m) && x != a :: 0 <= x < |w| && w[b] <= w[x])
    && 0 <= nHeap < |h| && Ordered(h, w, nHeap) &&
        Contents(h, nHeap) == multiset(Roots(par, m)) - multiset{a} - multiset{b}
    && nHeap + 2 + m == 2 * n
  }

  /** The two lightest roots become kids of a new root. */
  method JoinLightest(heap: array<int>, weight: array<int>, parent: array<int>, nHeap: int, nNodes: int, ghost n: int,
    ghost kids: seq<(int, int)>, ghost bound: int, ghost total: int)
    returns (ghost l: seq<(int, int)>, ghost b: int)
    requires heap != weight && heap != parent && weight != parent
    requires heap.Length == MAX_ALPHA_SIZE + 2 && weight.Length == parent.Length == MAX_NODES &&
      2 <= n <= MAX_ALPHA_SIZE
    requires 2 <= nHeap && Growing(heap[..], weight[..], parent[..], kids, n, nHeap, nNodes, bound, total) &&
      total < MAX_WEIGHT
    modifies heap, weight, parent
    ensures nNodes + 1 < MAX_NODES && Growing(heap[..], weight[..], parent[..], l, n, nHeap - 1, nNodes + 1, b, total)
    ensures SameLeaves(old(weight[..]), weight[..], n)
  {
    ghost var r := Roots(parent[..], nNodes);
    hide Ordered, Contents, Weighed, RootWeight, Roots;
    var n1, n2 := TakeTwo(heap, weight, nHeap, r);
    assert TwoOut(heap[..], weight[..], parent[..], kids, n, nHeap - 2, nNodes, bound, total, n1, n2);
    hide Growing, TwoOut;
    l, b := JoinUnder(heap, weight, parent, nHeap - 2, nNodes, n1, n2, n, kids, bound, total);
  }

  method JoinUnder(heap: array<int>, weight: array<int>, parent: array<int>, nHeap: int, nNodes: int, n1: int, n2: int,
    ghost n: int, ghost kids: seq<(int, int)>, ghost bound: int, ghost total: int)
    returns (ghost l: seq<(int, int)>, ghost b: int)
    requires heap != weight && heap != parent && weight != parent && 1 <= n <= nNodes && nHeap + 1 < heap.Length
    requires TwoOut(heap[..], weight[..], parent[..], kids, n, nHeap, nNodes, bound, total, n1, n2)
    modifies heap, weight, parent
    ensures Growing(heap[..], weight[..], parent[..], l, n, nHeap + 1, nNodes + 1, b, total)
    ensures SameLeaves(old(weight[..]), weight[..], n)
  {
    ghost var w, par := weight[..], parent[..];
    JoinReady(w, par, kids, n, nNodes, bound, n1, n2);
    JoinDone(heap[..], w, par, kids, n, nHeap, nNodes, bound, total, n1, n2);
    JoinRoots(par, nNodes, n1, n2);
    hide Ordered, Contents, Weighed, RootWeight, Roots, AddWeights, TwoOut;
    var k := nNodes + 1;
    parent[n1], parent[n2] := k, k;
    weight[k] := AddWeights(weight[n1], weight[n2]);
    parent[k] := -1;
    assert weight[..] == w[k := AddWeights(w[n1], w[n2])] && parent[..] == JoinedParents(par, n1, n2, k);
    l, b := kids + [(n1, n2)], w[n2];
    Insert(heap, weight, nHeap, k);
  }

  lemma {:induction false} Distinct(r: set<int>, a: int, b: int)
    requires a in multiset(r) && b in multiset(r) - multiset{a}
    ensures a in r && b in r && a != b
  {
  }

  lemma {:induction false} Others(r: set<int>, a: int)
    ensures forall x | x in r && x != a :: x in multiset(r) - multiset{a}
  {
  }

  /** Takes the two lightest nodes out. */
  method TakeTwo(heap: array<int>, weight: array<int>, nHeap: int, ghost r: set<int>) returns (n1: int, n2: int)
    requires heap != weight && 2 <= nHeap && Ordered(heap[..], weight[..], nHeap) &&
      Contents(heap[..], nHeap) == multiset(r)
    modifies heap
    ensures n1 in r && n2 in r && n1 != n2 && (forall x | x in r :: 0 <= x < weight.Length)
    ensures weight[n1] <= weight[n2] && forall x | x in r && x != n1 :: weight[n2] <= weight[x]
    ensures Ordered(heap[..], weight[..], nHeap - 2)
    ensures Contents(heap[..], nHeap - 2) == multiset(r) - multiset{n1} - multiset{n2}
  {
    hide Ordered, Contents;
    n1 := RemoveLeast(heap, weight, nHeap);
    n2 := RemoveLeast(heap, weight, nHeap - 1);
    Distinct(r, n1, n2);
    Others(r, n1);
  }

  lemma {:induction false} JoinReady(w: seq<int>, par: seq<int>, kids: seq<(int, int)>, n: int, m: int, bound: int,
    a: int, b: int)
    requires Weighed(w, par, kids, n, m, bound) && m < |w| && m < |par| && a in Roots(par, m) && b in Roots(par, m) &&
      RootWeight(w, par, m) < MAX_WEIGHT
    ensures 1 <= a <= m && 1 <= b <= m && 0 < w[a] && 0 < w[b] && DepthOf(w[a]) < 33 && DepthOf(w[b]) < 33
  {
    assert HeavyEnough(w, n, a) && HeavyEnough(w, n, b);
    forall x | 1 <= x <= m ensures 0 <= w[x] { assert HeavyEnough(w, n, x); }
    RootWeightAtLeast(w, par, m);
    Shallow(w, n, a);
    Shallow(w, n, b);
  }

  lemma {:induction false} JoinDone(h: seq<int>, w: seq<int>, par: seq<int>, kids: seq<(int, int)>, n: int, nHeap: int,
    m: int, bound: int, total: int, a: int, b: int)
    requires TwoOut(h, w, par, kids, n, nHeap, m, bound, total, a, b)
    ensures 0 <= nHeap < |h| && m + 1 < |w| && m + 1 < |par| && 0 <= a < |w| && 0 <= b < |w| && a < |par| && b < |par|
    ensures 0 <= w[a] && 0 <= w[b]
    ensures var v, q := AddWeights(w[a], w[b]), JoinedParents(par, a, b, m + 1);
      && Ordered(h, w[m + 1 := v], nHeap)
      && Weighed(w[m + 1 := v], q, kids + [(a, b)], n, m + 1, w[b])
      && RootWeight(w[m + 1 := v], q, m + 1) == total
  {
    JoinReady(w, par, kids, n, m, bound, a, b);
    AddWeightsExact(w[a], w[b]);
    var v := AddWeights(w[a], w[b]);
    assert m + 1 !in multiset(Roots(par, m));
    hide Ordered, Contents, Weighed, RootWeight, Or, AddWeights, DepthOf, WeightOf;
    JoinRootWeight(w, par, m, a, b, v);
    JoinWeighed(w, par, kids, n, m, bound, a, b, v);
    OrderedAfter(h, w, nHeap, m + 1, v);
  }

  method BuildTree(heap: array<int>, weight: array<int>, parent: array<int>, alphaSize: int)
    returns (ghost m: int, ghost kids: seq<(int, int)>, ghost bound: int)
    requires heap != weight && heap != parent && weight != parent
    requires heap.Length == MAX_ALPHA_SIZE + 2 && weight.Length == parent.Length == MAX_NODES
    requires 2 <= alphaSize <= MAX_ALPHA_SIZE && AreLeaves(weight[..], alphaSize) &&
      LeafTotal(weight[..], alphaSize) < MAX_WEIGHT
    modifies heap, weight, parent
    ensures IsTree(parent[..], kids, alphaSize, m) && Weighed(weight[..], parent[..], kids, alphaSize, m, bound)
    ensures m == 2 * alphaSize - 1 && WeightOf(weight[m]) == old(LeafTotal(weight[..], alphaSize))
    ensures SameLeaves(old(weight[..]), weight[..], alphaSize)
  {
    hide Growing, RootWeight, LeafTotal, AreLeaves, SameLeaves;
    ghost var total := LeafTotal(weight[..], alphaSize);
    PlaceLeaves(heap, weight, parent, alphaSize);
    var nHeap, nNodes := alphaSize, alphaSize;
    kids, bound := [], 0;
    while nHeap > 1
      invariant 1 <= nHeap && nHeap + nNodes == 2 * alphaSize && nNodes < MAX_NODES
      invariant Growing(heap[..], weight[..], parent[..], kids, alphaSize, nHeap, nNodes, bound, total)
      invariant SameLeaves(old(weight[..]), weight[..], alphaSize)
    {
      ghost var w := weight[..];
      kids, bound := JoinLightest(heap, weight, parent, nHeap, nNodes, alphaSize, kids, bound, total);
      SameLeavesStill(old(weight[..]), w, weight[..], alphaSize);
      nHeap, nNodes := nHeap - 1, nNodes + 1;
    }
    m := nNodes;
    Grown(heap[..], weight[..], parent[..], kids, alphaSize, m, bound, total);
  }

  lemma {:induction false} Single(r: set<int>, top: int)
    requires multiset(r) == multiset{top}
    ensures r == {top}
  {
    assert top in multiset(r);
    forall x ensures x in r <==> x == top { assert x in r <==> x in multiset(r); }
  }

  /** A single root left makes a tree. */
  lemma {:induction false} Grown(h: seq<int>, w: seq<int>, par: seq<int>, kids: seq<(int, int)>, n: int, m: int,
    bound: int, total: int)
    requires Growing(h, w, par, kids, n, 1, m, bound, total) && 0 <= m < |w| && m < |par|
    ensures IsTree(par, kids, n, m) && Weighed(w, par, kids, n, m, bound) && total == WeightOf(w[m])
  {
    assert m in Roots(par, m);
    assert h[1..2] == [h[1]];
    assert multiset(Roots(par, m)) == multiset{h[1]};
    Single(Roots(par, m), h[1]);
    forall x | 1 <= x < m ensures par[x] != -1 { assert x !in Roots(par, m); }
    OnlyRoot(w, par, kids, n, m, m);
  }

  // ---- depths

  predicate Deep(par: seq<int>, maxLen: int, x: int) {
    Depth(par, x) > maxLen
  }

  /** Writes the leaves' depths. */
  method MeasureDepths(len: array<int>, parent: array<int>, alphaSize: int, maxLen: int, ghost kids: seq<(int, int)>,
    ghost m: int)
    returns (tooLong: bool)
    requires len != parent && 2 <= alphaSize <= len.Length && IsTree(parent[..], kids, alphaSize, m)
    modifies len
    ensures forall i | 0 <= i < alphaSize :: len[i] == Depth(parent[..], i + 1)
    ensures tooLong <==> exists x | 1 <= x <= alphaSize :: Deep(parent[..], maxLen, x)
  {
    tooLong := false;
    ghost var par := parent[..];
    hide Depth;
    for i := 1 to alphaSize + 1
      invariant parent[..] == par
      invariant forall x | 0 <= x < i - 1 :: len[x] == Depth(par, x + 1)
      invariant tooLong <==> exists x | 1 <= x < i :: Deep(par, maxLen, x)
    {
      var j := CountUp(parent, i, kids, alphaSize, m);
      len[i - 1] := j;
      assert Deep(par, maxLen, i) <==> j > maxLen;
      if j > maxLen { tooLong := true; }
    }
  }

  method CountUp(parent: array<int>, i: int, ghost kids: seq<(int, int)>, ghost n: int, ghost m: int) returns (j: int)
    requires IsTree(parent[..], kids, n, m) && 1 <= i <= m
    ensures j == Depth(parent[..], i)
  {
    j := 0;
    var k := i;
    assert ParentOk(parent[..], kids, n, k);
    while parent[k] >= 0
      invariant 1 <= k <= m && j + Depth(parent[..], k) == Depth(parent[..], i)
      invariant ParentOk(parent[..], kids, n, k)
      decreases m - k
    {
      k := parent[k];
      j := j + 1;
      assert ParentOk(parent[..], kids, n, k);
    }
  }

  // ---- all together

  lemma {:induction false} LeafTotalPositive(w: seq<int>, k: nat)
    requires AreLeaves(w, k)
    ensures LeafTotal(w, k) >= 0
  {
    if k > 0 { LeafTotalPositive(w, k - 1); }
  }

  /** No node is deeper than the deepest leaf. */
  lemma {:induction false} DepthBelow(par: seq<int>, kids: seq<(int, int)>, n: int, m: int, maxLen: nat, x: int)
    requires Linked(par, kids, n, m) && 1 <= x <= m && forall i | 1 <= i <= n :: Depth(par, i) <= maxLen
    ensures Depth(par, x) <= maxLen
  {
    if x > n {
      assert KidsOk(par, kids, n, x);
      var a := kids[x - n - 1].0;
      DepthBelow(par, kids, n, m, maxLen, a);
      assert Depth(par, a) == 1 + Depth(par, x);
    }
  }

  /** Depths within the limit are the lengths of a complete code. */
  lemma {:induction false} DepthsComplete(par: seq<int>, kids: seq<(int, int)>, n: int, m: int, maxLen: nat,
    len: seq<Byte>)
    requires IsTree(par, kids, n, m) && n == |len| && n < m
    requires forall i | 0 <= i < n :: len[i] == Depth(par, i + 1) && len[i] as int <= maxLen
    ensures forall i | 0 <= i < n :: 1 <= len[i]
    ensures forall d: nat | maxLen <= d :: Kraft(len, d, n) == Pow2(d)
  {
    forall i | 0 <= i < n ensures 1 <= len[i] {
      assert ParentOk(par, kids, n, i + 1);
    }
    forall i | 1 <= i <= n ensures Depth(par, i) <= maxLen { assert len[i - 1] == Depth(par, i); }
    forall d: nat | maxLen <= d ensures Kraft(len, d, n) == Pow2(d) {
      forall x | 1 <= x <= m ensures Depth(par, x) <= d { DepthBelow(par, kids, n, m, maxLen, x); }
      KraftOfTree(par, kids, n, m, d, len);
    }
  }

  function AsBytes(len: seq<int>): (r: seq<Byte>)
    requires forall i | 0 <= i < |len| :: 0 <= len[i] < 256
    ensures |r| == |len| && forall i | 0 <= i < |len| :: r[i] as int == len[i]
  {
    seq(|len|, i requires 0 <= i < |len| => len[i] as Byte)
  }

  lemma {:induction false} TooLongTooHeavy(w: seq<int>, par: seq<int>, kids: seq<(int, int)>, n: int, m: int,
    bound: int, maxLen: nat, i: int)
    requires Weighed(w, par, kids, n, m, bound) && IsTree(par, kids, n, m) && 1 <= i <= n && Depth(par, i) > maxLen
    ensures Fib(maxLen + 1) <= WeightOf(w[m])
  {
    DeepIsHeavy(w, par, kids, n, m, bound, i);
    FibMono(maxLen + 1, Depth(par, i));
  }

  lemma {:induction false} HoldHalved(w: seq<int>, v: seq<int>, ws: seq<int>, t: nat)
    requires Hold(w, Halved(ws, t)) && |v| == |w|
    requires forall x | 1 <= x <= |ws| :: WeightOf(v[x]) == 1 + WeightOf(w[x]) / 2
    ensures Hold(v, Halved(ws, t + 1))
  {
    hide WeightOf;
  }

  lemma {:induction false} HoldSame(w: seq<int>, v: seq<int>, ws: seq<int>)
    requires Hold(w, ws) && SameLeaves(w, v, |ws|)
    ensures Hold(v, ws)
  {
  }

  /**
   * No code has a shorter text of the symbols, each as often as freq says but once at least. If that is too long for
   * maxLen the weights are halved, again and again, and lengths are best for what they come to.
   */
  method MakeCodeLengths(len: array<int>, freq: array<int>, alphaSize: int, maxLen: int)
    returns (ghost lengths: seq<Byte>, ghost rounds: nat)
    requires len != freq && 2 <= alphaSize <= MAX_ALPHA_SIZE && alphaSize <= len.Length && alphaSize <= freq.Length
    requires forall i | 0 <= i < alphaSize :: 0 <= freq[i]
    requires Total(freq[..], alphaSize) < MAX_WEIGHT
    requires 0 <= maxLen <= 255 && 2 * alphaSize < Fib(maxLen + 1)
    modifies len
    ensures |lengths| == alphaSize &&
      forall i | 0 <= i < alphaSize :: len[i] == lengths[i] as int && 1 <= lengths[i] as int <= maxLen
    ensures forall d: nat | maxLen <= d :: Kraft(lengths, d, alphaSize) == Pow2(d)
    ensures var ws := Weights(freq[..], alphaSize);
      IsBest(lengths, Halved(ws, rounds)) && forall t | 0 <= t < rounds :: BestIsTooLong(Halved(ws, t), maxLen)
    ensures Total(freq[..], alphaSize) < Fib(maxLen + 1) ==> rounds == 0
  {
    var heap := new int[MAX_ALPHA_SIZE + 2];
    var weight := new int[MAX_NODES];
    var parent := new int[MAX_NODES];
    InitWeights(weight, freq, alphaSize);
    hide AreLeaves, LeafTotal, IsTree, Weighed, Kraft, Pow2, Fib, Depth, Hold, Halved, IsBest, BestIsTooLong, WeightOf;
    ghost var ws := Weights(freq[..], alphaSize);
    rounds := 0;
    assert Halved(ws, 0) == ws by { NotHalved(ws); }
    while true
      invariant AreLeaves(weight[..], alphaSize) && LeafTotal(weight[..], alphaSize) < MAX_WEIGHT
      invariant Hold(weight[..], Halved(ws, rounds)) && weight.Length == MAX_NODES
      invariant forall t | 0 <= t < rounds :: BestIsTooLong(Halved(ws, t), maxLen)
      invariant if rounds == 0 then LeafTotal(weight[..], alphaSize) == Total(freq[..], alphaSize)
        else Total(freq[..], alphaSize) >= Fib(maxLen + 1)
      modifies len, heap, weight, parent
      decreases LeafTotal(weight[..], alphaSize)
    {
      LeafTotalPositive(weight[..], alphaSize);
      ghost var total := LeafTotal(weight[..], alphaSize);
      var tooLong;
      tooLong, lengths := TryLengths(heap, weight, parent, len, alphaSize, maxLen, Halved(ws, rounds));
      if !tooLong { break; }
      ghost var w := weight[..];
      Rescale(weight, alphaSize);
      HoldHalved(w, weight[..], ws, rounds);
      rounds := rounds + 1;
    }
  }

  lemma {:induction false} NotHalved(ws: seq<int>)
    ensures Halved(ws, 0) == ws
  {
  }

  /** Builds one tree and measures it. */
  method TryLengths(heap: array<int>, weight: array<int>, parent: array<int>, len: array<int>, alphaSize: int,
    maxLen: int, ghost ws: seq<int>)
    returns (tooLong: bool, ghost lengths: seq<Byte>)
    requires heap != weight && heap != parent && weight != parent && len != heap && len != weight && len != parent
    requires heap.Length == MAX_ALPHA_SIZE + 2 && weight.Length == parent.Length == MAX_NODES && alphaSize <= len.Length
    requires 2 <= alphaSize <= MAX_ALPHA_SIZE && AreLeaves(weight[..], alphaSize) &&
      LeafTotal(weight[..], alphaSize) < MAX_WEIGHT
    requires 0 <= maxLen <= 255 && |ws| == alphaSize && Hold(weight[..], ws)
    modifies heap, weight, parent, len
    ensures Hold(weight[..], ws) && (tooLong ==> BestIsTooLong(ws, maxLen)) && (!tooLong ==> IsBest(lengths, ws))
    ensures AreLeaves(weight[..], alphaSize) &&
      LeafTotal(weight[..], alphaSize) == old(LeafTotal(weight[..], alphaSize))
    ensures tooLong ==> Fib(maxLen + 1) <= LeafTotal(weight[..], alphaSize)
    ensures !tooLong ==>
      |lengths| == alphaSize &&
      forall i | 0 <= i < alphaSize :: len[i] == lengths[i] as int && 1 <= lengths[i] as int <= maxLen
    ensures !tooLong ==> forall d: nat | maxLen <= d :: Kraft(lengths, d, alphaSize) == Pow2(d)
  {
    ghost var w := weight[..];
    ghost var m, kids, bound := BuildTree(heap, weight, parent, alphaSize);
    LeavesSame(w, weight[..], alphaSize);
    HoldSame(w, weight[..], ws);
    tooLong := MeasureDepths(len, parent, alphaSize, maxLen, kids, m);
    lengths := [];
    hide LeafTotal, IsTree, Weighed, Kraft, Pow2, Fib, Depth, IsBest, WeightOf;
    ghost var depths := LeafDepths(weight[..], parent[..], kids, alphaSize, m, bound, ws);
    if tooLong {
      ghost var x :| 1 <= x <= alphaSize && Deep(parent[..], maxLen, x);
      TooLongTooHeavy(weight[..], parent[..], kids, alphaSize, m, bound, maxLen, x);
      assert depths[x - 1] > maxLen;
    } else {
      assert forall i | 0 <= i < alphaSize :: len[i] <= maxLen by {
        forall i | 0 <= i < alphaSize ensures len[i] <= maxLen { assert !Deep(parent[..], maxLen, i + 1); }
      }
      lengths := AsBytes(len[..alphaSize]);
      DepthsComplete(parent[..], kids, alphaSize, m, maxLen, lengths);
      assert lengths == depths;
    }
  }

  /** The leaves' depths are best lengths. */
  lemma {:induction false} LeafDepths(w: seq<int>, par: seq<int>, kids: seq<(int, int)>, n: int, m: int, bound: int,
    ws: seq<int>)
    returns (depths: seq<nat>)
    requires Weighed(w, par, kids, n, m, bound) && IsTree(par, kids, n, m) && |ws| == n && Hold(w, ws)
    ensures |depths| == n && (forall i | 0 <= i < n :: depths[i] == Depth(par, i + 1)) && IsBest(depths, ws)
  {
    hide Weighed, IsTree, IsBest, WeightOf, Depth;
    depths := seq(n, i requires 0 <= i < n => Depth(par, i + 1));
    WeighedSizes(w, par, kids, n, m, bound);
    forall x | 1 <= x <= m ensures Depth(par, x) <= |par| { }
    TreeIsBest(w, par, kids, n, m, bound, ws, depths, |par|);
  }
}
