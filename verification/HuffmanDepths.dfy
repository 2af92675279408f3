/**
 * Depths in a finished Huffman tree: Kraft's sum over the leaves is exactly 1, and depths are bounded by the weights.
 */
module HuffmanDepths {
  import opened Bits
  import opened Rotations
  import opened Counting
  import opened HuffmanCodes
  import opened HuffmanForest

  /** How many parents x has above it. */
  function Depth(par: seq<int>, x: int): (r: nat)
    ensures 0 <= x < |par| ==> r <= |par| - x
    decreases |par| - x
  {
    if 0 <= x < |par| && x < par[x] < |par| then 1 + Depth(par, par[x]) else 0
  }

  /** The forest is a single tree, whose root is its last node. */
  ghost predicate IsTree(par: seq<int>, kids: seq<(int, int)>, n: int, m: int) {
    Linked(par, kids, n, m) && par[m] == -1 && forall x | 1 <= x < m :: par[x] != -1
  }

  /** The part of the code space a node at x's depth takes up, in units of the deepest level d. */
  function Share(par: seq<int>, d: nat, x: int): nat {
    if Depth(par, x) <= d then Pow2(d - Depth(par, x)) else 0
  }

  /** The shares of those of the nodes 1..x that are k or whose parents are behind k. */
  function Front(par: seq<int>, d: nat, k: int, x: nat): nat
    requires x < |par|
  {
    if x == 0 then 0 else Front(par, d, k, x - 1) + if par[x] == -1 || par[x] > k then Share(par, d, x) else 0
  }

  lemma {:induction false} KidsShare(par: seq<int>, kids: seq<(int, int)>, n: int, m: int, d: nat, k: int)
    requires Linked(par, kids, n, m) && n < k <= m && forall x | 1 <= x <= m :: Depth(par, x) <= d
    ensures Share(par, d, kids[k - n - 1].0) + Share(par, d, kids[k - n - 1].1) == Share(par, d, k)
  {
    assert KidsOk(par, kids, n, k);
    var a, b := kids[k - n - 1].0, kids[k - n - 1].1;
    assert Depth(par, a) == 1 + Depth(par, k) && Depth(par, b) == 1 + Depth(par, k);
    assert Depth(par, a) <= d;
    assert Pow2(d - Depth(par, k)) == 2 * Pow2(d - Depth(par, k) - 1);
  }

  /** Replacing node k by its kids changes the front by their shares. */
  lemma {:induction false} FrontWithKids(par: seq<int>, kids: seq<(int, int)>, n: int, m: int, d: nat, k: int, x: nat)
    requires Linked(par, kids, n, m) && n < k <= m && x < k
    ensures var a, b := kids[k - n - 1].0, kids[k - n - 1].1;
      Front(par, d, k - 1, x) == Front(par, d, k, x) + (if a <= x then Share(par, d, a) else 0) +
        (if b <= x then Share(par, d, b) else 0)
  {
    assert KidsOk(par, kids, n, k);
    hide Share;
    if x > 0 {
      FrontWithKids(par, kids, n, m, d, k, x - 1);
      assert ParentOk(par, kids, n, x);
    }
  }

  lemma {:induction false} FrontKept(par: seq<int>, kids: seq<(int, int)>, n: int, m: int, d: nat, k: int)
    requires IsTree(par, kids, n, m) && n <= k <= m && forall x | 1 <= x <= m :: Depth(par, x) <= d
    ensures Front(par, d, k, k) == Front(par, d, n, n)
    decreases k
  {
    if k > n {
      FrontKept(par, kids, n, m, d, k - 1);
      FrontWithKids(par, kids, n, m, d, k, k - 1);
      KidsShare(par, kids, n, m, d, k);
      assert KidsOk(par, kids, n, k) && ParentOk(par, kids, n, k);
    }
  }

  lemma {:induction false} FrontOfTree(par: seq<int>, kids: seq<(int, int)>, n: int, m: int, d: nat, x: nat)
    requires IsTree(par, kids, n, m) && x < m
    ensures Front(par, d, m, x) == 0
  {
    if x > 0 {
      FrontOfTree(par, kids, n, m, d, x - 1);
      assert ParentOk(par, kids, n, x);
    }
  }

  /** The sum of 2 to the d - len[i] for the first k lengths. */
  function Kraft(len: seq<nat>, d: nat, k: nat): nat
    requires k <= |len|
  {
    if k == 0 then 0 else Kraft(len, d, k - 1) + if len[k - 1] <= d then Pow2(d - len[k - 1]) else 0
  }

  lemma {:induction false} LeafFront(par: seq<int>, kids: seq<(int, int)>, n: int, m: int, d: nat, len: seq<Byte>,
    k: nat)
    requires Linked(par, kids, n, m) && k <= n == |len| && forall i | 0 <= i < n :: len[i] == Depth(par, i + 1)
    ensures Front(par, d, n, k) == Kraft(len, d, k)
  {
    if k > 0 {
      LeafFront(par, kids, n, m, d, len, k - 1);
      assert ParentOk(par, kids, n, k);
    }
  }

  /** Kraft's sum of the leaves' depths is exactly 1: the code is complete. */
  lemma {:induction false} KraftOfTree(par: seq<int>, kids: seq<(int, int)>, n: int, m: int, d: nat, len: seq<Byte>)
    requires IsTree(par, kids, n, m) && forall x | 1 <= x <= m :: Depth(par, x) <= d
    requires n == |len| && forall i | 0 <= i < n :: len[i] == Depth(par, i + 1)
    ensures Kraft(len, d, n) == Pow2(d)
  {
    LeafFront(par, kids, n, m, d, len, n);
    FrontKept(par, kids, n, m, d, m);
    FrontOfTree(par, kids, n, m, d, m - 1);
    assert Depth(par, m) == 0;
  }

  /** What First counts: all codes shorter than n, each with its extensions to length n. */
  lemma {:induction false} FirstIsKraft(len: seq<Byte>, n: nat)
    requires forall i | 0 <= i < |len| :: 1 <= len[i]
    ensures First(len, n) == KraftBelow(len, n, |len|)
  {
    if n == 0 {
      KraftNone(len, |len|);
    } else {
      FirstIsKraft(len, n - 1);
      KraftDoubles(len, n, |len|);
    }
  }

  /**
   * What the codes in front of symbol i's take of the code space, in units of its own: those shorter, or not longer
   * and of a smaller symbol.
   */
  function InFront(len: seq<Byte>, i: nat, k: nat): nat
    requires i < |len| && k <= |len|
  {
    if k == 0 then 0
    else
      var j := k - 1;
      InFront(len, i, j) +
        if len[j] < len[i] then Pow2(len[i] - len[j]) else if len[j] == len[i] && j < i then 1 else 0
  }

  lemma {:induction false} InFrontParts(len: seq<Byte>, i: nat, k: nat)
    requires i < |len| && k <= |len|
    ensures InFront(len, i, k) == KraftBelow(len, len[i], k) + Count(len, len[i], if k < i then k else i)
  {
    if k > 0 { InFrontParts(len, i, k - 1); }
  }

  /** The code of a symbol begins where those in front of it leave off: that makes it canonical. */
  lemma {:induction false} CodeIsPlace(len: seq<Byte>, i: nat)
    requires i < |len| && forall j | 0 <= j < |len| :: 1 <= len[j]
    ensures Code(len, i) == InFront(len, i, |len|)
  {
    FirstIsKraft(len, len[i]);
    InFrontParts(len, i, |len|);
  }

  function KraftBelow(len: seq<Byte>, d: nat, k: nat): nat
    requires k <= |len|
  {
    if k == 0 then 0 else KraftBelow(len, d, k - 1) + if (len[k - 1] as int) < d then Pow2(d - len[k - 1]) else 0
  }

  lemma {:induction false} KraftNone(len: seq<Byte>, k: nat)
    requires k <= |len|
    ensures KraftBelow(len, 0, k) == 0
  {
    if k > 0 { KraftNone(len, k - 1); }
  }

  lemma {:induction false} KraftDoubles(len: seq<Byte>, d: nat, k: nat)
    requires k <= |len| && 0 < d
    ensures KraftBelow(len, d, k) == 2 * (KraftBelow(len, d - 1, k) + Count(len, d - 1, k))
  {
    if k > 0 {
      KraftDoubles(len, d, k - 1);
      if len[k - 1] as int < d { assert Pow2(d - len[k - 1]) == 2 * Pow2(d - len[k - 1] - 1); }
      assert Pow2(1) == 2;
    }
  }

  lemma {:induction false} KraftAll(len: seq<Byte>, d: nat, k: nat)
    requires k <= |len| && forall i | 0 <= i < |len| :: len[i] as int < d
    ensures KraftBelow(len, d, k) == Kraft(len, d, k)
  {
    if k > 0 { KraftAll(len, d, k - 1); }
  }

  /** A complete code leaves room for all codes, and wastes none. */
  lemma {:induction false} CompleteHasRoom(len: seq<Byte>)
    requires IsLengths(len) && Kraft(len, LONGEST_CODE + 1, |len|) == Pow2(LONGEST_CODE + 1)
    ensures First(len, LONGEST_CODE + 1) == Pow2(LONGEST_CODE + 1) && HasRoom(len)
  {
    FirstIsKraft(len, LONGEST_CODE + 1);
    KraftAll(len, LONGEST_CODE + 1, |len|);
  }

  // ---- depths and weights

  /** A node's depth below the root, plus its own subtree's depth, is at most the depth of the whole tree. */
  lemma {:induction false} DepthsAdd(w: seq<int>, par: seq<int>, kids: seq<(int, int)>, n: int, m: int, bound: int,
    x: int)
    requires Weighed(w, par, kids, n, m, bound) && IsTree(par, kids, n, m) && 1 <= x <= m
    ensures Depth(par, x) + DepthOf(w[x]) <= DepthOf(w[m])
    decreases m - x
  {
    if x < m {
      assert ParentOk(par, kids, n, x);
      var k := par[x];
      DepthsAdd(w, par, kids, n, m, bound, k);
      assert Joined(w, kids, n, k);
    }
  }

  /** A leaf deeper than maxLen shows that the total weight is at least Fib(maxLen + 1). */
  lemma {:induction false} DeepIsHeavy(w: seq<int>, par: seq<int>, kids: seq<(int, int)>, n: int, m: int, bound: int,
    x: int)
    requires Weighed(w, par, kids, n, m, bound) && IsTree(par, kids, n, m) && 1 <= x <= m
    ensures Fib(Depth(par, x)) <= WeightOf(w[m])
  {
    DepthsAdd(w, par, kids, n, m, bound, x);
    assert HeavyEnough(w, n, m);
    FibMono(Depth(par, x), DepthOf(w[m]));
  }

  lemma {:induction false} OnlyRoot(w: seq<int>, par: seq<int>, kids: seq<(int, int)>, n: int, m: int, x: nat)
    requires IsTree(par, kids, n, m) && m < |w| && x <= m
    ensures RootWeight(w, par, x) == if x == m then WeightOf(w[m]) else 0
  {
    if x > 0 { OnlyRoot(w, par, kids, n, m, x - 1); }
  }
}
