/** The forest of Huffman nodes under construction: its links, weights and depths. */
module HuffmanForest {
  import opened Bits

  // ---- packed weights: the weight times 256, plus the depth of the subtree

  function WeightOf(x: int): int { x / 256 }

  function DepthOf(x: int): nat { x % 256 }

  function AddWeights(x: nat, y: nat): nat {
    Or((x - x % 256) + (y - y % 256), 1 + if DepthOf(x) > DepthOf(y) then DepthOf(x) else DepthOf(y))
  }

  /** As long as the depth fits in its byte, weights add up and depths count levels. */
  lemma {:induction false} AddWeightsExact(x: nat, y: nat)
    requires DepthOf(x) < 255 && DepthOf(y) < 255
    ensures WeightOf(AddWeights(x, y)) == WeightOf(x) + WeightOf(y)
    ensures DepthOf(AddWeights(x, y)) == 1 + if DepthOf(x) > DepthOf(y) then DepthOf(x) else DepthOf(y)
  {
    var d := 1 + if DepthOf(x) > DepthOf(y) then DepthOf(x) else DepthOf(y);
    hide Or;
    Unpacked(x, y, d);
  }

  lemma {:induction false} Unpacked(x: nat, y: nat, d: nat)
    requires d < 256
    ensures var s := (x - x % 256) + (y - y % 256);
      WeightOf(Or(s, d)) == WeightOf(x) + WeightOf(y) && DepthOf(Or(s, d)) == d
  {
    var s := (x - x % 256) + (y - y % 256);
    assert s == 256 * (x / 256 + y / 256);
    assert Pow2(8) == 256 by { Pow2Values(); }
    hide Or, Pow2;
    OrIsSum(d, s, 8);
  }

  // ---- links

  /** Node k, the join of two nodes numbered lower. */
  ghost predicate KidsOk(par: seq<int>, kids: seq<(int, int)>, n: int, k: int)
    requires n < k <= n + |kids| && n >= 0
  {
    var a, b := kids[k - n - 1].0, kids[k - n - 1].1;
    1 <= a < k && 1 <= b < k && a != b && k < |par| && par[a] == k && par[b] == k
  }

  ghost predicate ParentOk(par: seq<int>, kids: seq<(int, int)>, n: int, x: int)
    requires 0 <= x < |par| && n >= 0
  {
    par[x] == -1 ||
      (n < par[x] <= n + |kids| && x < par[x] && (kids[par[x] - n - 1].0 == x || kids[par[x] - n - 1].1 == x))
  }

  /** Nodes 1..n are leaves, nodes n + 1..m were made by joining two roots each; roots have parent -1. */
  ghost predicate Linked(par: seq<int>, kids: seq<(int, int)>, n: int, m: int) {
    && 1 <= n <= m < |par| && |kids| == m - n
    && (forall k | n < k <= m :: KidsOk(par, kids, n, k))
    && (forall x | 1 <= x <= m :: ParentOk(par, kids, n, x))
  }

  ghost function Roots(par: seq<int>, m: int): set<int>
    requires m < |par|
  {
    set x | 1 <= x <= m && par[x] == -1
  }

  /** The parents after joining roots a and b under the new node k. */
  function JoinedParents(par: seq<int>, a: int, b: int, k: int): seq<int>
    requires 0 <= a < |par| && 0 <= b < |par| && 0 <= k < |par|
  {
    par[a := k][b := k][k := -1]
  }

  lemma {:induction false} JoinLinks(par: seq<int>, kids: seq<(int, int)>, n: int, m: int, a: int, b: int)
    requires Linked(par, kids, n, m) && m + 1 < |par| && a in Roots(par, m) && b in Roots(par, m) && a != b
    ensures Linked(JoinedParents(par, a, b, m + 1), kids + [(a, b)], n, m + 1)
  {
    var q := JoinedParents(par, a, b, m + 1);
    var l := kids + [(a, b)];
    forall k | n < k <= m + 1 ensures KidsOk(q, l, n, k) {
      if k <= m { assert KidsOk(par, kids, n, k); }
    }
    forall x | 1 <= x <= m + 1 ensures ParentOk(q, l, n, x) {
      if x <= m { assert ParentOk(par, kids, n, x); }
    }
  }

  lemma {:induction false} JoinRoots(par: seq<int>, m: int, a: int, b: int)
    requires 0 <= m && m + 1 < |par| && a in Roots(par, m) && b in Roots(par, m) && a != b
    ensures multiset(Roots(JoinedParents(par, a, b, m + 1), m + 1)) == multiset(Roots(par, m)) - multiset{a} -
      multiset{b} + multiset{m + 1}
  {
    var q := JoinedParents(par, a, b, m + 1);
    assert Roots(q, m + 1) == Roots(par, m) - {a, b} + {m + 1};
    assert multiset(Roots(par, m) - {a, b}) == multiset(Roots(par, m)) - multiset{a} - multiset{b};
  }

  // ---- weights

  /** The least weight of a subtree of depth h. */
  function Fib(h: nat): (r: nat)
    ensures r >= 1
  {
    if h == 0 then 1 else if h == 1 then 2 else Fib(h - 1) + Fib(h - 2)
  }

  lemma {:induction false} FibMono(g: nat, h: nat)
    requires g <= h
    ensures Fib(g) <= Fib(h)
    decreases h
  {
    if g < h { FibMono(g, h - 1); }
  }

  lemma {:induction false} FibValues()
    ensures Fib(18) == 6765 && Fib(33) == 9227465
  {
    assert Fib(6) == 21 && Fib(7) == 34;
    assert Fib(10) == 144 && Fib(11) == 233;
    assert Fib(14) == 987 && Fib(15) == 1597;
    assert Fib(18) == 6765 && Fib(19) == 10946;
    assert Fib(22) == 46368 && Fib(23) == 75025;
    assert Fib(26) == 317811 && Fib(27) == 514229;
    assert Fib(30) == 2178309 && Fib(31) == 3524578;
  }

  /** Node k weighs what its kids weigh and is one level deeper. */
  ghost predicate Joined(w: seq<int>, kids: seq<(int, int)>, n: int, k: int)
    requires 0 <= n < k <= n + |kids|
  {
    var a, b := kids[k - n - 1].0, kids[k - n - 1].1;
    && 0 <= a < |w| && 0 <= b < |w| && 0 <= k < |w|
    && WeightOf(w[k]) == WeightOf(w[a]) + WeightOf(w[b])
    && DepthOf(w[k]) == 1 + if DepthOf(w[a]) > DepthOf(w[b]) then DepthOf(w[a]) else DepthOf(w[b])
  }

  ghost predicate HeavyEnough(w: seq<int>, n: int, x: int)
    requires 0 <= x < |w|
  {
    1 <= w[x] && Fib(DepthOf(w[x])) <= WeightOf(w[x]) && (x <= n ==> DepthOf(w[x]) == 0)
  }

  /** When node k was made its kids were the two lightest roots. */
  ghost predicate LightestKids(w: seq<int>, par: seq<int>, kids: seq<(int, int)>, n: int, k: int)
    requires 0 <= n < k <= n + |kids| && k <= |w| && k <= |par|
  {
    var a, b := kids[k - n - 1].0, kids[k - n - 1].1;
    && 0 <= a < |w| && 0 <= b < |w| && w[a] <= w[b]
    && forall x | 1 <= x < k && (par[x] == -1 || par[x] >= k) && x != a && x != b :: w[b] <= w[x]
  }

  /** Weights and depths are those of the forest, and no root is lighter than bound, no other node heavier. */
  ghost predicate Weighed(w: seq<int>, par: seq<int>, kids: seq<(int, int)>, n: int, m: int, bound: int) {
    && Linked(par, kids, n, m) && m < |w|
    && (forall k | n < k <= m :: Joined(w, kids, n, k))
    && (forall k | n < k <= m :: LightestKids(w, par, kids, n, k))
    && (forall x | 1 <= x <= m :: HeavyEnough(w, n, x))
    && (forall x | 1 <= x <= m :: if par[x] == -1 then bound <= w[x] else w[x] <= bound)
  }

  /** The total weight of the roots. */
  function RootWeight(w: seq<int>, par: seq<int>, m: nat): int
    requires m < |w| && m < |par|
  {
    if m == 0 then 0 else RootWeight(w, par, m - 1) + if par[m] == -1 then WeightOf(w[m]) else 0
  }

  lemma {:induction false} RootWeightSame(w: seq<int>, par: seq<int>, v: seq<int>, q: seq<int>, m: nat)
    requires m < |w| && m < |par| && m < |v| && m < |q|
    requires forall x | 1 <= x <= m :: w[x] == v[x] && par[x] == q[x]
    ensures RootWeight(w, par, m) == RootWeight(v, q, m)
  {
    if m > 0 { RootWeightSame(w, par, v, q, m - 1); }
  }

  lemma {:induction false} RootWeightWithout(w: seq<int>, par: seq<int>, m: nat, a: int, k: int)
    requires m < |w| && m < |par| && 1 <= a <= m && par[a] == -1 && k != -1
    ensures RootWeight(w, par[a := k], m) == RootWeight(w, par, m) - WeightOf(w[a])
  {
    if a < m {
      RootWeightWithout(w, par, m - 1, a, k);
    } else {
      RootWeightSame(w, par, w, par[a := k], m - 1);
    }
  }

  lemma {:induction false} RootWeightAtLeast(w: seq<int>, par: seq<int>, m: nat)
    requires m < |w| && m < |par| && forall x | 1 <= x <= m :: 0 <= w[x]
    ensures RootWeight(w, par, m) >= 0
    ensures forall x | 1 <= x <= m && par[x] == -1 :: WeightOf(w[x]) <= RootWeight(w, par, m)
  {
    if m > 0 { RootWeightAtLeast(w, par, m - 1); }
  }

  lemma {:induction false} JoinRootWeight(w: seq<int>, par: seq<int>, m: nat, a: int, b: int, v: int)
    requires m + 1 < |w| && m + 1 < |par| && a in Roots(par, m) && b in Roots(par, m) && a != b
    requires WeightOf(v) == WeightOf(w[a]) + WeightOf(w[b])
    ensures RootWeight(w[m + 1 := v], JoinedParents(par, a, b, m + 1), m + 1) == RootWeight(w, par, m)
  {
    RootWeightWithout(w, par, m, a, m + 1);
    RootWeightWithout(w, par[a := m + 1], m, b, m + 1);
    RootWeightSame(w, par[a := m + 1][b := m + 1], w[m + 1 := v], JoinedParents(par, a, b, m + 1), m);
  }

  const MAX_WEIGHT := 0x80_0000

  /** Subtrees below the weight limit are shallow: their depth stays far from overflowing its byte. */
  lemma {:induction false} Shallow(w: seq<int>, n: int, x: int)
    requires 0 <= x < |w| && HeavyEnough(w, n, x) && WeightOf(w[x]) < MAX_WEIGHT
    ensures DepthOf(w[x]) < 33
  {
    FibValues();
    if DepthOf(w[x]) >= 33 { FibMono(33, DepthOf(w[x])); }
  }

  /** Joining the two lightest roots: the new subtree is heavy enough for its depth. */
  lemma {:induction false} JoinHeavy(w: seq<int>, par: seq<int>, kids: seq<(int, int)>, n: int, m: int, bound: int,
    c: int, d: int)
    requires Weighed(w, par, kids, n, m, bound) && c in Roots(par, m) && d in Roots(par, m)
    requires DepthOf(w[c]) >= DepthOf(w[d])
    ensures Fib(1 + DepthOf(w[c])) <= WeightOf(w[c]) + WeightOf(w[d])
  {
    hide LightestKids;
    assert HeavyEnough(w, n, c) && HeavyEnough(w, n, d);
    var h := DepthOf(w[c]);
    if h == 0 {
      assert Fib(0) == 1 && Fib(1) == 2;
      FibMono(0, DepthOf(w[d]));
    } else {
      assert Joined(w, kids, n, c) && KidsOk(par, kids, n, c);
      var e := if DepthOf(w[kids[c - n - 1].0]) > DepthOf(w[kids[c - n - 1].1]) then kids[c - n - 1].0
        else kids[c - n - 1].1;
      assert HeavyEnough(w, n, e) && w[e] <= bound <= w[d];
      WeightOrder(w[e], w[d]);
      assert DepthOf(w[e]) == h - 1;
    }
  }

  lemma {:induction false} WeightOrder(x: int, y: int)
    requires x <= y
    ensures WeightOf(x) <= WeightOf(y)
  {
  }

  lemma {:induction false} JoinWeighed(w: seq<int>, par: seq<int>, kids: seq<(int, int)>, n: int, m: int, bound: int,
    a: int, b: int, v: nat)
    requires Weighed(w, par, kids, n, m, bound) && m + 1 < |w| && m + 1 < |par|
    requires a in Roots(par, m) && b in Roots(par, m) && a != b && w[a] <= w[b]
    requires forall x | x in Roots(par, m) && x != a :: w[b] <= w[x]
    requires WeightOf(v) == WeightOf(w[a]) + WeightOf(w[b])
    requires DepthOf(v) == 1 + if DepthOf(w[a]) > DepthOf(w[b]) then DepthOf(w[a]) else DepthOf(w[b])
    ensures Weighed(w[m + 1 := v], JoinedParents(par, a, b, m + 1), kids + [(a, b)], n, m + 1, w[b])
  {
    hide WeightOf, DepthOf, Fib, LightestKids;
    JoinLinks(par, kids, n, m, a, b);
    var u, q, l := w[m + 1 := v], JoinedParents(par, a, b, m + 1), kids + [(a, b)];
    assert HeavyEnough(w, n, a) && HeavyEnough(w, n, b);
    JoinHeavier(w, n, a, b, v);
    forall x | 1 <= x <= m + 1 ensures HeavyEnough(u, n, x) {
      if x <= m {
        assert HeavyEnough(w, n, x);
      } else if DepthOf(w[a]) > DepthOf(w[b]) {
        JoinHeavy(w, par, kids, n, m, bound, a, b);
      } else {
        JoinHeavy(w, par, kids, n, m, bound, b, a);
      }
    }
    forall k | n < k <= m + 1 ensures Joined(u, l, n, k) {
      if k <= m { assert Joined(w, kids, n, k) && KidsOk(par, kids, n, k); }
    }
    JoinLightestKids(w, par, kids, n, m, bound, a, b, v);
    forall x | 1 <= x <= m + 1 ensures if q[x] == -1 then w[b] <= u[x] else u[x] <= w[b] {
      if x <= m && x != a && x != b && par[x] == -1 { assert x in Roots(par, m); }
    }
  }

  lemma {:induction false} JoinLightestKids(w: seq<int>, par: seq<int>, kids: seq<(int, int)>, n: int, m: int,
    bound: int, a: int, b: int, v: nat)
    requires Weighed(w, par, kids, n, m, bound) && m + 1 < |w| && m + 1 < |par|
    requires a in Roots(par, m) && b in Roots(par, m) && a != b && w[a] <= w[b]
    requires forall x | x in Roots(par, m) && x != a :: w[b] <= w[x]
    ensures var u, q, l := w[m + 1 := v], JoinedParents(par, a, b, m + 1), kids + [(a, b)];
      forall k | n < k <= m + 1 :: LightestKids(u, q, l, n, k)
  {
    var u, q, l := w[m + 1 := v], JoinedParents(par, a, b, m + 1), kids + [(a, b)];
    forall k | n < k <= m + 1 ensures LightestKids(u, q, l, n, k) {
      if k <= m {
        assert LightestKids(w, par, kids, n, k) && KidsOk(par, kids, n, k);
      } else {
        forall x | 1 <= x < k && (q[x] == -1 || q[x] >= k) && x != a && x != b ensures u[b] <= u[x] {
          assert ParentOk(par, kids, n, x);
          assert x in Roots(par, m);
        }
      }
    }
  }

  lemma {:induction false} JoinHeavier(w: seq<int>, n: int, a: int, b: int, v: int)
    requires 0 <= a < |w| && 0 <= b < |w| && HeavyEnough(w, n, a) && HeavyEnough(w, n, b)
    requires WeightOf(v) == WeightOf(w[a]) + WeightOf(w[b])
    ensures 1 <= v && w[b] <= v
  {
  }
}
