/** The heap of Huffman tree nodes, least weight at the top. */
module HuffmanHeap {

  /** Heap entries 0..n are nodes with a weight; entry 0 is a sentinel of weight 0. */
  ghost predicate AreNodes(h: seq<int>, w: seq<int>, n: int) {
    && 0 <= n < |h| && |w| > 0 && h[0] == 0 && w[0] == 0
    && forall i | 0 <= i <= n :: 0 <= h[i] < |w| && 0 <= w[h[i]]
  }

  ghost predicate Above(h: seq<int>, w: seq<int>, n: int, p: int, i: int)
    requires AreNodes(h, w, n) && 0 <= p <= n && 0 <= i <= n
  {
    w[h[p]] <= w[h[i]]
  }

  ghost predicate Ordered(h: seq<int>, w: seq<int>, n: int) {
    AreNodes(h, w, n) && forall i | 1 <= i <= n :: Above(h, w, n, i / 2, i)
  }

  /** Ordered but for entry z, which may be too light for its place. */
  ghost predicate OrderedBut(h: seq<int>, w: seq<int>, n: int, z: int) {
    && AreNodes(h, w, n) && 1 <= z <= n
    && (forall i | 1 <= i <= n && i != z :: Above(h, w, n, i / 2, i))
    && (forall i | 1 <= i <= n && i / 2 == z :: Above(h, w, n, z / 2, i))
  }

  /** Ordered but for entry z, which may be too heavy for its place. */
  ghost predicate OrderedUnder(h: seq<int>, w: seq<int>, n: int, z: int) {
    && AreNodes(h, w, n) && 1 <= z && z <= n + 1
    && (forall i | 1 <= i <= n && i / 2 != z :: Above(h, w, n, i / 2, i))
    && (forall i | 1 <= i <= n && i / 2 == z :: Above(h, w, n, z / 2, i))
  }

  function Contents(h: seq<int>, n: int): multiset<int>
    requires 0 <= n < |h|
  {
    multiset(h[1..n + 1])
  }

  function Swap(h: seq<int>, i: int, j: int): seq<int>
    requires 0 <= i < |h| && 0 <= j < |h|
  {
    h[i := h[j]][j := h[i]]
  }

  lemma {:induction false} SwapContents(h: seq<int>, n: int, i: int, j: int)
    requires 1 <= i <= n < |h| && 1 <= j <= n && i != j
    ensures Contents(Swap(h, i, j), n) == Contents(h, n)
  {
    var s := h[1..n + 1];
    var t := s[i - 1 := s[j - 1]];
    assert Swap(h, i, j)[1..n + 1] == t[j - 1 := s[i - 1]];
  }

  lemma {:induction false} UpStep(h: seq<int>, w: seq<int>, n: int, z: int)
    requires OrderedBut(h, w, n, z) && w[h[z]] < w[h[z / 2]]
    ensures 1 <= z / 2 && OrderedBut(Swap(h, z, z / 2), w, n, z / 2) && Contents(Swap(h, z, z / 2), n) == Contents(h, n)
  {
    var p := z / 2;
    var g := Swap(h, z, p);
    SwapContents(h, n, z, p);
    assert Above(h, w, n, p / 2, p);
    forall i | 1 <= i <= n && i != p ensures Above(g, w, n, i / 2, i) {
      if i != z { assert Above(h, w, n, i / 2, i); }
      if i / 2 == z { assert Above(h, w, n, z / 2, i); }
    }
    forall i | 1 <= i <= n && i / 2 == p ensures Above(g, w, n, p / 2, i) {
      if i != z { assert Above(h, w, n, i / 2, i); }
    }
  }

  lemma {:induction false} UpEnd(h: seq<int>, w: seq<int>, n: int, z: int)
    requires OrderedBut(h, w, n, z) && w[h[z / 2]] <= w[h[z]]
    ensures Ordered(h, w, n)
  {
  }

  lemma {:induction false} ReadUp(h: seq<int>, w: seq<int>, n: int, z: int)
    requires OrderedBut(h, w, n, z)
    ensures 1 <= z <= n < |h| && 0 <= h[z] < |w| && 0 <= h[z / 2] < |w|
  {
  }

  /** One level up. */
  method RiseOne(heap: array<int>, weight: array<int>, nHeap: int, zz: int, tmp: int, ghost h: seq<int>)
    returns (yy: int, ghost g: seq<int>)
    requires heap != weight && 1 <= zz < heap.Length && h == heap[..][zz := tmp] && OrderedBut(h, weight[..], nHeap, zz)
    requires 0 <= tmp < weight.Length && 0 <= heap[zz / 2] < weight.Length && weight[tmp] < weight[heap[zz / 2]]
    modifies heap
    ensures 1 <= yy < zz && g == heap[..][yy := tmp] && OrderedBut(g, weight[..], nHeap, yy)
    ensures Contents(g, nHeap) == Contents(h, nHeap)
  {
    ghost var w := weight[..];
    assert heap[zz / 2] == h[zz / 2];
    UpStep(h, w, nHeap, zz);
    g := Swap(h, zz, zz / 2);
    yy := zz / 2;
    heap[zz] := heap[yy];
    assert g == heap[..][yy := tmp];
  }

  method UpHeap(heap: array<int>, weight: array<int>, nHeap: int)
    requires heap != weight && OrderedBut(heap[..], weight[..], nHeap, nHeap)
    modifies heap
    ensures Ordered(heap[..], weight[..], nHeap) && Contents(heap[..], nHeap) == old(Contents(heap[..], nHeap))
  {
    var zz, tmp := nHeap, heap[nHeap];
    ghost var h := heap[..];
    ReadUp(h, weight[..], nHeap, zz);
    hide OrderedBut, Ordered, Contents;
    while weight[tmp] < weight[heap[zz / 2]]
      invariant 1 <= zz <= nHeap < heap.Length && h == heap[..][zz := tmp] && OrderedBut(h, weight[..], nHeap, zz)
      invariant 0 <= heap[zz / 2] < weight.Length && 0 <= tmp < weight.Length
      invariant Contents(h, nHeap) == old(Contents(heap[..], nHeap))
      decreases zz
    {
      zz, h := RiseOne(heap, weight, nHeap, zz, tmp, h);
      ReadUp(h, weight[..], nHeap, zz);
    }
    UpEnd(h, weight[..], nHeap, zz);
    heap[zz] := tmp;
    assert heap[..] == h;
  }

  /** y is the lighter child of z. */
  ghost predicate LighterChild(h: seq<int>, w: seq<int>, n: int, z: int, y: int) {
    && AreNodes(h, w, n) && 1 <= z <= n && 2 * z <= y <= 2 * z + 1 && y <= n
    && w[h[y]] <= w[h[2 * z]] && (2 * z + 1 <= n ==> w[h[y]] <= w[h[2 * z + 1]])
  }

  lemma {:induction false} DownStep(h: seq<int>, w: seq<int>, n: int, z: int, y: int)
    requires OrderedUnder(h, w, n, z) && LighterChild(h, w, n, z, y) && w[h[y]] <= w[h[z]]
    ensures OrderedUnder(Swap(h, z, y), w, n, y) && Contents(Swap(h, z, y), n) == Contents(h, n)
  {
    var g := Swap(h, z, y);
    SwapContents(h, n, z, y);
    assert Above(h, w, n, z / 2, y);
    forall i | 1 <= i <= n && i / 2 != y ensures Above(g, w, n, i / 2, i) {
      if i / 2 == z {
        assert i == 2 * z || i == 2 * z + 1;
      } else {
        assert Above(h, w, n, i / 2, i);
      }
    }
    forall i | 1 <= i <= n && i / 2 == y ensures Above(g, w, n, y / 2, i) {
      assert Above(h, w, n, i / 2, i);
    }
  }

  lemma {:induction false} DownEnd(h: seq<int>, w: seq<int>, n: int, z: int, y: int)
    requires OrderedUnder(h, w, n, z)
    requires 2 * z > n || (LighterChild(h, w, n, z, y) && w[h[z]] <= w[h[y]])
    ensures Ordered(h, w, n)
  {
    forall i | 1 <= i <= n ensures Above(h, w, n, i / 2, i) {
      if i / 2 == z {
        assert i == 2 * z || i == 2 * z + 1;
      }
    }
  }

  lemma {:induction false} ReadDown(h: seq<int>, w: seq<int>, n: int, z: int)
    requires OrderedUnder(h, w, n, z)
    ensures AreNodes(h, w, n) && 1 <= z && forall i | 0 <= i <= n :: 0 <= h[i] < |w|
  {
  }

  /** One level down: either tmp fits in place zz, or its lighter child comes up. */
  method SinkOne(heap: array<int>, weight: array<int>, nHeap: int, zz: int, tmp: int, ghost h: seq<int>)
    returns (yy: int, ghost g: seq<int>)
    requires heap != weight && 1 <= zz < heap.Length && h == heap[..][zz := tmp] &&
      OrderedUnder(h, weight[..], nHeap, zz)
    modifies heap
    ensures yy == 0 ==> heap[..] == old(heap[..]) && g == h && Ordered(h, weight[..], nHeap)
    ensures yy != 0 ==> zz < yy <= nHeap && yy < heap.Length && g == heap[..][yy := tmp]
    ensures yy != 0 ==> OrderedUnder(g, weight[..], nHeap, yy) && Contents(g, nHeap) == Contents(h, nHeap)
  {
    ghost var w := weight[..];
    ReadDown(h, w, nHeap, zz);
    hide OrderedUnder, Ordered, Contents;
    g := h;
    yy := zz * 2;
    if yy > nHeap {
      DownEnd(h, w, nHeap, zz, yy);
      return 0, h;
    }
    assert h[zz] == tmp && h[yy] == heap[yy] && (yy < nHeap ==> h[yy + 1] == heap[yy + 1]);
    if yy < nHeap && weight[heap[yy + 1]] < weight[heap[yy]] {
      yy := yy + 1;
    }
    assert LighterChild(h, w, nHeap, zz, yy);
    if weight[tmp] < weight[heap[yy]] {
      DownEnd(h, w, nHeap, zz, yy);
      return 0, h;
    }
    DownStep(h, w, nHeap, zz, yy);
    g := Swap(h, zz, yy);
    heap[zz] := heap[yy];
    assert g == heap[..][yy := tmp];
  }

  method DownHeap(heap: array<int>, weight: array<int>, nHeap: int)
    requires heap != weight && OrderedUnder(heap[..], weight[..], nHeap, 1) && nHeap + 1 < heap.Length
    modifies heap
    ensures Ordered(heap[..], weight[..], nHeap) && Contents(heap[..], nHeap) == old(Contents(heap[..], nHeap))
  {
    var zz, tmp := 1, heap[1];
    ghost var h := heap[..];
    ReadDown(h, weight[..], nHeap, zz);
    hide OrderedUnder, Ordered, Contents;
    while true
      invariant 1 <= zz < heap.Length && h == heap[..][zz := tmp] && OrderedUnder(h, weight[..], nHeap, zz)
      invariant Contents(h, nHeap) == old(Contents(heap[..], nHeap))
      decreases nHeap + 1 - zz
    {
      var yy;
      yy, h := SinkOne(heap, weight, nHeap, zz, tmp, h);
      if yy == 0 { break; }
      zz := yy;
    }
    heap[zz] := tmp;
    assert heap[..] == h;
  }

  lemma {:induction false} TopIsLeast(h: seq<int>, w: seq<int>, n: int, i: int)
    requires Ordered(h, w, n) && 1 <= i <= n
    ensures w[h[1]] <= w[h[i]]
  {
    if i > 1 {
      TopIsLeast(h, w, n, i / 2);
      assert Above(h, w, n, i / 2, i);
    }
  }

  lemma {:induction false} InsertLast(h: seq<int>, w: seq<int>, n: int, x: int)
    requires Ordered(h, w, n) && n + 1 < |h| && 0 <= x < |w| && 0 <= w[x]
    ensures OrderedBut(h[n + 1 := x], w, n + 1, n + 1)
    ensures Contents(h[n + 1 := x], n + 1) == Contents(h, n) + multiset{x}
  {
    var g := h[n + 1 := x];
    assert g[1..n + 2] == h[1..n + 1] + [x];
    forall i | 1 <= i <= n ensures Above(g, w, n + 1, i / 2, i) { assert Above(h, w, n, i / 2, i); }
  }

  method Insert(heap: array<int>, weight: array<int>, nHeap: int, x: int)
    requires heap != weight && Ordered(heap[..], weight[..], nHeap) && nHeap + 1 < heap.Length
    requires 0 <= x < weight.Length && 0 <= weight[x]
    modifies heap
    ensures Ordered(heap[..], weight[..], nHeap + 1)
    ensures Contents(heap[..], nHeap + 1) == old(Contents(heap[..], nHeap)) + multiset{x}
  {
    ghost var h := heap[..];
    InsertLast(h, weight[..], nHeap, x);
    heap[nHeap + 1] := x;
    hide Ordered, OrderedBut, Contents;
    assert heap[..] == h[nHeap + 1 := x];
    UpHeap(heap, weight, nHeap + 1);
  }

  lemma {:induction false} NodesFit(h: seq<int>, w: seq<int>, n: int)
    requires Ordered(h, w, n)
    ensures 0 <= n < |h|
  {
  }

  lemma {:induction false} LastToTop(h: seq<int>, w: seq<int>, n: int)
    requires Ordered(h, w, n) && 1 <= n
    ensures OrderedUnder(h[1 := h[n]], w, n - 1, 1)
  {
    var g := h[1 := h[n]];
    forall i | 1 <= i <= n - 1 && i / 2 != 1 ensures Above(g, w, n - 1, i / 2, i) {
      if i > 1 { assert Above(h, w, n, i / 2, i); }
    }
    forall i | 1 <= i <= n - 1 && i / 2 == 1 ensures Above(g, w, n - 1, 0, i) {
    }
  }

  lemma {:induction false} WithoutTop(h: seq<int>, n: int)
    requires 1 <= n < |h|
    ensures Contents(h[1 := h[n]], n - 1) == Contents(h, n) - multiset{h[1]} && h[1] in Contents(h, n)
  {
    var s := h[1..n + 1];
    assert s == [h[1]] + h[2..n + 1];
    if n > 1 {
      assert h[2..n + 1] == h[2..n] + [h[n]];
      assert h[1 := h[n]][1..n] == [h[n]] + h[2..n];
    }
  }

  lemma {:induction false} TopLeast(h: seq<int>, w: seq<int>, n: int)
    requires Ordered(h, w, n) && 1 <= n
    ensures 0 <= h[1] < |w|
    ensures forall x | x in Contents(h, n) :: 0 <= x < |w| && w[h[1]] <= w[x]
  {
    forall x | x in Contents(h, n) ensures 0 <= x < |w| && w[h[1]] <= w[x] {
      var s := h[1..n + 1];
      var i :| 0 <= i < |s| && s[i] == x;
      TopIsLeast(h, w, n, i + 1);
    }
  }

  /** Takes the least node out. */
  method RemoveLeast(heap: array<int>, weight: array<int>, nHeap: int) returns (x: int)
    requires heap != weight && 1 <= nHeap && Ordered(heap[..], weight[..], nHeap)
    modifies heap
    ensures Ordered(heap[..], weight[..], nHeap - 1)
    ensures x in old(Contents(heap[..], nHeap)) &&
      Contents(heap[..], nHeap - 1) == old(Contents(heap[..], nHeap)) - multiset{x}
    ensures forall y | y in old(Contents(heap[..], nHeap)) ::
      0 <= y < weight.Length && 0 <= x < weight.Length && weight[x] <= weight[y]
  {
    hide Ordered, OrderedUnder, Contents;
    ghost var h := heap[..];
    NodesFit(h, weight[..], nHeap);
    LastToTop(h, weight[..], nHeap);
    WithoutTop(h, nHeap);
    TopLeast(h, weight[..], nHeap);
    x := heap[1];
    heap[1] := heap[nHeap];
    assert heap[..] == h[1 := h[nHeap]];
    DownHeap(heap, weight, nHeap - 1);
  }
}
