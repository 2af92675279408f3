/**
 * Huffman's trees are best: joining the two lightest trees again and again gives lengths whose weighted sum no other
 * code's is below.
 */
module HuffmanOptimal {
  import opened Bits
  import opened HuffmanForest
  import opened HuffmanDepths

  // ---- sums

  function Sum(s: seq<int>): int {
    if s == [] then 0 else Sum(s[..|s| - 1]) + s[|s| - 1]
  }

  lemma {:induction false} SumUpdate(s: seq<int>, i: nat, v: int)
    requires i < |s|
    ensures Sum(s[i := v]) == Sum(s) - s[i] + v
  {
    var n := |s| - 1;
    if i < n {
      SumUpdate(s[..n], i, v);
      assert s[i := v][..n] == s[..n][i := v];
    } else {
      assert s[i := v][..n] == s[..n];
    }
  }

  lemma {:induction false} SumEven(s: seq<int>)
    requires forall i | 0 <= i < |s| :: s[i] % 2 == 0
    ensures Sum(s) % 2 == 0
  {
    if s != [] { SumEven(s[..|s| - 1]); }
  }

  lemma {:induction false} SumDouble(s: seq<int>, r: seq<int>)
    requires |s| == |r| && forall i | 0 <= i < |s| :: s[i] == 2 * r[i]
    ensures Sum(s) == 2 * Sum(r)
  {
    if s != [] { SumDouble(s[..|s| - 1], r[..|r| - 1]); }
  }

  lemma {:induction false} SumPositive(s: seq<int>)
    requires forall i | 0 <= i < |s| :: s[i] >= 0
    ensures Sum(s) >= 0
  {
    if s != [] { SumPositive(s[..|s| - 1]); }
  }

  // ---- trees with lengths

  /** The trees there are, what they weigh, and lengths for them. */
  datatype Trees = Trees(act: seq<bool>, w: seq<int>, len: seq<int>)

  ghost predicate AreTrees(t: Trees, d: nat) {
    && |t.act| == |t.w| == |t.len|
    && forall x | 0 <= x < |t.act| && t.act[x] :: 0 <= t.w[x] && 0 <= t.len[x] <= d
  }

  /** What a tree contributes to the weighted sum of lengths. */
  ghost function Costs(t: Trees): (r: seq<int>)
    requires |t.act| == |t.w| == |t.len|
    ensures |r| == |t.act|
  {
    seq(|t.act|, x requires 0 <= x < |t.act| => if t.act[x] then t.w[x] * t.len[x] else 0)
  }

  /** The part of the code space that a length takes up. */
  function Part(d: nat, len: int): int {
    if 0 <= len <= d then Pow2(d - len) else 0
  }

  ghost function Parts(t: Trees, d: nat): (r: seq<int>)
    requires |t.act| == |t.w| == |t.len|
    ensures |r| == |t.act|
  {
    seq(|t.act|, x requires 0 <= x < |t.act| => if t.act[x] then Part(d, t.len[x]) else 0)
  }

  /** There are codes of these lengths. */
  ghost predicate Fit(t: Trees, d: nat) {
    AreTrees(t, d) && Sum(Parts(t, d)) <= Pow2(d)
  }

  ghost function Cost(t: Trees): int
    requires |t.act| == |t.w| == |t.len|
  {
    Sum(Costs(t))
  }

  lemma {:induction false} LengthChanged(t: Trees, d: nat, x: nat, v: int)
    requires AreTrees(t, d) && x < |t.act| && t.act[x] && 0 <= v <= d
    ensures var u := t.(len := t.len[x := v]);
      && AreTrees(u, d) && Cost(u) == Cost(t) - t.w[x] * t.len[x] + t.w[x] * v
      && Sum(Parts(u, d)) == Sum(Parts(t, d)) - Part(d, t.len[x]) + Part(d, v)
  {
    var u := t.(len := t.len[x := v]);
    hide Sum, Part;
    SumUpdate(Costs(t), x, t.w[x] * v);
    SumUpdate(Parts(t, d), x, Part(d, v));
    assert Costs(u) == Costs(t)[x := t.w[x] * v];
    assert Parts(u, d) == Parts(t, d)[x := Part(d, v)];
  }

  /** A tree leaves, or one comes in. */
  lemma {:induction false} TreeChanged(t: Trees, d: nat, x: nat, on: bool, w: int, v: int)
    requires AreTrees(t, d) && x < |t.act| && t.act[x] != on && 0 <= w && 0 <= v <= d
    ensures var u := Trees(t.act[x := on], t.w[x := w], t.len[x := v]);
      && AreTrees(u, d)
      && Cost(u) == Cost(t) + (if on then w * v else -t.w[x] * t.len[x])
      && Sum(Parts(u, d)) == Sum(Parts(t, d)) + (if on then Part(d, v) else -Part(d, t.len[x]))
  {
    var u := Trees(t.act[x := on], t.w[x := w], t.len[x := v]);
    hide Sum, Part;
    var c, p := if on then w * v else 0, if on then Part(d, v) else 0;
    SumUpdate(Costs(t), x, c);
    SumUpdate(Parts(t, d), x, p);
    assert Costs(u) == Costs(t)[x := c];
    assert Parts(u, d) == Parts(t, d)[x := p];
  }

  /** Two trees exchange their lengths. */
  function Exchanged(t: Trees, x: nat, y: nat): Trees
    requires x < |t.len| && y < |t.len|
  {
    t.(len := t.len[x := t.len[y]][y := t.len[x]])
  }

  /** The longer length to the lighter tree: that makes the sum no larger. */
  lemma {:induction false} ExchangeHelps(t: Trees, d: nat, x: nat, y: nat)
    requires Fit(t, d) && x < |t.act| && y < |t.act| && t.act[x] && t.act[y]
    requires t.w[x] <= t.w[y] && t.len[x] <= t.len[y]
    ensures Fit(Exchanged(t, x, y), d) && Cost(Exchanged(t, x, y)) <= Cost(t)
  {
    if x == y {
      assert Exchanged(t, x, y) == t;
    } else {
      var u := t.(len := t.len[x := t.len[y]]);
      LengthChanged(t, d, x, t.len[y]);
      LengthChanged(u, d, y, t.len[x]);
      assert Exchanged(t, x, y) == u.(len := u.len[y := t.len[x]]);
      Rearranged(t.w[x], t.w[y], t.len[x], t.len[y]);
    }
  }

  lemma {:induction false} Rearranged(v: int, w: int, a: int, b: int)
    requires v <= w && a <= b
    ensures v * b + w * a <= v * a + w * b
  {
    assert (w - v) * (b - a) >= 0;
  }

  // ---- the greatest length

  /** All lengths are below d. */
  ghost predicate Below(t: Trees, d: nat)
    requires |t.act| == |t.len|
  {
    forall x | 0 <= x < |t.act| && t.act[x] :: t.len[x] < d
  }

  /** With a unit of half the size all counts double. */
  lemma {:induction false} HalfUnits(t: Trees, d: nat)
    requires |t.act| == |t.w| == |t.len| && 0 < d && Below(t, d)
    ensures Fit(t, d) <==> Fit(t, d - 1)
  {
    if AreTrees(t, d - 1) {
      forall i | 0 <= i < |t.act| ensures Parts(t, d)[i] == 2 * Parts(t, d - 1)[i] {
        if t.act[i] { assert Pow2(d - t.len[i]) == 2 * Pow2(d - 1 - t.len[i]); }
      }
      SumDouble(Parts(t, d), Parts(t, d - 1));
    }
  }

  /** A single tree of the greatest length can have a shorter one: without its one unit the count is even. */
  lemma {:induction false} Shorten(t: Trees, d: nat, x: nat)
    requires Fit(t, d) && 0 < d && x < |t.act| && t.act[x] && t.len[x] == d
    requires forall y | 0 <= y < |t.act| && t.act[y] && y != x :: t.len[y] < d
    ensures var u := t.(len := t.len[x := d - 1]);
      Below(u, d) && Fit(u, d) && Cost(u) <= Cost(t)
  {
    LengthChanged(t, d, x, d - 1);
    assert Part(d, d) == 1 && Part(d, d - 1) == 2;
    OthersEven(t, d, x);
    assert Pow2(d) % 2 == 0;
    assert t.w[x] * (d - 1) == t.w[x] * d - t.w[x];
  }

  lemma {:induction false} OthersEven(t: Trees, d: nat, x: nat)
    requires AreTrees(t, d) && 0 < d && x < |t.act| && t.act[x] && t.len[x] == d
    requires forall y | 0 <= y < |t.act| && t.act[y] && y != x :: t.len[y] < d
    ensures Sum(Parts(t, d)) % 2 == 1
  {
    var others := Parts(t, d)[x := 0];
    assert Parts(t, d)[x] == Pow2(0) == 1;
    SumUpdate(Parts(t, d), x, 0);
    forall i | 0 <= i < |others| ensures others[i] % 2 == 0 {
      if t.act[i] && i != x { assert others[i] == Pow2(d - t.len[i]) == 2 * Pow2(d - t.len[i] - 1); }
    }
    hide Parts;
    SumEven(others);
  }

  // ---- joining

  /** Trees a and b are the two lightest. */
  ghost predicate Lightest(t: Trees, a: int, b: int)
    requires |t.act| == |t.w|
  {
    && 0 <= a < |t.act| && 0 <= b < |t.act| && a != b && t.act[a] && t.act[b] && t.w[a] <= t.w[b]
    && forall x | 0 <= x < |t.act| && t.act[x] && x != a && x != b :: t.w[b] <= t.w[x]
  }

  /** Trees a and b with a new root k. */
  function JoinedTrees(t: Trees, a: nat, b: nat, k: nat, len: int): Trees
    requires |t.act| == |t.w| == |t.len| && a < |t.act| && b < |t.act| && k < |t.act|
  {
    Trees(t.act[a := false][b := false][k := true], t.w[k := t.w[a] + t.w[b]], t.len[k := len])
  }

  /** Two trees of the same length make one of a length shorter by one. */
  lemma {:induction false} JoinEqual(t: Trees, d: nat, a: nat, b: nat, k: nat)
    requires AreTrees(t, d) && a < |t.act| && b < |t.act| && a != b && t.act[a] && t.act[b]
    requires k < |t.act| && !t.act[k] && 0 < t.len[a] == t.len[b]
    ensures var u := JoinedTrees(t, a, b, k, t.len[a] - 1);
      AreTrees(u, d) && Sum(Parts(u, d)) == Sum(Parts(t, d)) && Cost(u) == Cost(t) - t.w[a] - t.w[b]
  {
    hide Sum, Part, Costs, Parts;
    var l, w := t.len[a], t.w[a] + t.w[b];
    var u1 := Trees(t.act[a := false], t.w[a := t.w[a]], t.len[a := l]);
    TreeChanged(t, d, a, false, t.w[a], l);
    var u2 := Trees(u1.act[b := false], u1.w[b := t.w[b]], u1.len[b := l]);
    TreeChanged(u1, d, b, false, t.w[b], l);
    TreeChanged(u2, d, k, true, w, l - 1);
    assert JoinedTrees(t, a, b, k, l - 1) == Trees(u2.act[k := true], u2.w[k := w], u2.len[k := l - 1]);
    Halves(d, l);
    ShorterCost(t.w[a], t.w[b], l);
  }

  lemma {:induction false} Halves(d: nat, l: nat)
    requires 0 < l <= d
    ensures Part(d, l - 1) == 2 * Part(d, l)
  {
  }

  lemma {:induction false} ShorterCost(v: int, w: int, l: int)
    ensures (v + w) * (l - 1) == v * l + w * l - (v + w)
  {
  }

  /** With two lengths that are the greatest, the two lightest trees can have these. */
  lemma {:induction false} ToLightest(t: Trees, d: nat, a: nat, b: nat, x: nat, y: nat) returns (u: Trees)
    requires Fit(t, d) && Lightest(t, a, b) && x < |t.act| && y < |t.act| && x != y && t.act[x] && t.act[y]
    requires t.len[x] == t.len[y] == d
    ensures u.act == t.act && u.w == t.w && Fit(u, d) && Cost(u) <= Cost(t) && |u.len| == |t.len|
    ensures u.len[a] == u.len[b] == d
  {
    hide Fit, Cost;
    var y0 := y;
    var x0 := x;
    LengthsBelow(t, d);
    if x == b || y == a { x0, y0 := y, x; }
    OfLightest(t, a, b, x0);
    ExchangeHelps(t, d, a, x0);
    u := Exchanged(t, a, x0);
    LengthsBelow(u, d);
    if y0 != b {
      OfLightest(t, a, b, y0);
      ExchangeHelps(u, d, b, y0);
      u := Exchanged(u, b, y0);
    }
  }

  lemma {:induction false} LengthsBelow(t: Trees, d: nat)
    requires Fit(t, d)
    ensures AreTrees(t, d)
  {
  }

  lemma {:induction false} OfLightest(t: Trees, a: nat, b: nat, x: nat)
    requires |t.act| == |t.w| && Lightest(t, a, b) && x < |t.act| && t.act[x]
    ensures t.w[a] <= t.w[x] && (x != a ==> t.w[b] <= t.w[x])
  {
  }

  /**
   * Whatever the lengths are, joining the two lightest trees leaves lengths for the rest whose sum is less by the
   * weight of the new tree at least.
   */
  lemma {:induction false} JoinLightest(t: Trees, d: nat, a: nat, b: nat, k: nat) returns (l: seq<int>)
    requires Fit(t, d) && Lightest(t, a, b) && k < |t.act| && !t.act[k]
    ensures |l| == |t.act|
    ensures var u := JoinedTrees(t, a, b, k, 0).(len := l);
      Fit(u, d) && Cost(u) <= Cost(t) - t.w[a] - t.w[b]
    decreases d
  {
    hide Sum, Part, Costs, Parts, Fit, Cost;
    LengthsBelow(t, d);
    if d == 0 {
      TwoAreTooMany(t, a, b);
    } else if x: nat :| x < |t.act| && t.act[x] && t.len[x] == d {
      if y: nat :| y < |t.act| && t.act[y] && t.len[y] == d && y != x {
        var u := ToLightest(t, d, a, b, x, y);
        LengthsBelow(u, d);
        JoinEqual(u, d, a, b, k);
        SameParts(u, JoinedTrees(u, a, b, k, d - 1), d);
        l := JoinedTrees(u, a, b, k, d - 1).len;
        assert JoinedTrees(u, a, b, k, d - 1) == JoinedTrees(t, a, b, k, 0).(len := l);
      } else {
        Shorten(t, d, x);
        l := JoinShorter(t.(len := t.len[x := d - 1]), d, a, b, k);
      }
    } else {
      l := JoinShorter(t, d, a, b, k);
    }
  }

  lemma {:induction false} SameParts(t: Trees, u: Trees, d: nat)
    requires Fit(t, d) && AreTrees(u, d) && Sum(Parts(u, d)) == Sum(Parts(t, d))
    ensures Fit(u, d)
  {
  }

  lemma {:induction false} JoinShorter(t: Trees, d: nat, a: nat, b: nat, k: nat) returns (l: seq<int>)
    requires 0 < d && Fit(t, d) && Below(t, d) && Lightest(t, a, b) && k < |t.act| && !t.act[k]
    ensures |l| == |t.act|
    ensures var u := JoinedTrees(t, a, b, k, 0).(len := l);
      Fit(u, d) && Cost(u) <= Cost(t) - t.w[a] - t.w[b]
    decreases d, 0
  {
    hide Sum, Part, Costs, Parts, Fit, Cost;
    LengthsBelow(t, d);
    HalfUnits(t, d);
    l := JoinLightest(t, d - 1, a, b, k);
    LengthsBelow(JoinedTrees(t, a, b, k, 0).(len := l), d - 1);
    HalfUnits(JoinedTrees(t, a, b, k, 0).(len := l), d);
  }

  lemma {:induction false} TwoAreTooMany(t: Trees, a: nat, b: nat)
    requires AreTrees(t, 0) && a < |t.act| && b < |t.act| && a != b && t.act[a] && t.act[b]
    ensures !Fit(t, 0)
  {
    var p := Parts(t, 0);
    assert p[a] == 1 && p[b] == 1;
    SumUpdate(p, a, 0);
    SumUpdate(p[a := 0], b, 0);
    SumPositive(p[a := 0][b := 0]);
  }

  // ---- the trees of a forest

  /** The roots there were when node k had just been made, with lengths for them. */
  ghost function Grove(w: seq<int>, par: seq<int>, m: nat, k: nat, len: seq<int>): (t: Trees)
    requires m < |w| && m < |par| && |len| == m + 1
    ensures |t.act| == |t.w| == m + 1 && t.len == len
    ensures forall x | 0 <= x <= m :: t.w[x] == WeightOf(w[x])
    ensures forall x | 0 <= x <= m :: t.act[x] <==> 1 <= x <= k && (par[x] == -1 || par[x] > k)
  {
    Trees(seq(m + 1, x requires 0 <= x < m + 1 => 1 <= x <= k && (par[x] == -1 || par[x] > k)),
      seq(m + 1, x requires 0 <= x < m + 1 => WeightOf(w[x])), len)
  }

  /** What the nodes made behind node k weigh together. */
  ghost function Inner(w: seq<int>, k: nat, m: nat): int
    requires m < |w|
    decreases m - k
  {
    if k >= m then 0 else WeightOf(w[k + 1]) + Inner(w, k + 1, m)
  }

  /** Making node k joins its kids. */
  lemma {:induction false} GroveJoins(w: seq<int>, par: seq<int>, kids: seq<(int, int)>, n: int, m: int, bound: int,
    k: int, len: seq<int>, l: int)
    requires Weighed(w, par, kids, n, m, bound) && n < k <= m && |len| == m + 1
    ensures var a, b, t := kids[k - n - 1].0, kids[k - n - 1].1, Grove(w, par, m, k - 1, len);
      && Lightest(t, a, b) && 0 <= a && 0 <= b && !t.act[k]
      && JoinedTrees(t, a, b, k, l) == Grove(w, par, m, k, len[k := l])
      && t.w[a] + t.w[b] == WeightOf(w[k])
  {
    hide HeavyEnough, DepthOf, WeightOf;
    var a, b, t := kids[k - n - 1].0, kids[k - n - 1].1, Grove(w, par, m, k - 1, len);
    assert KidsOk(par, kids, n, k) && HuffmanForest.Joined(w, kids, n, k) && LightestKids(w, par, kids, n, k);
    assert ParentOk(par, kids, n, k);
    var u, v := JoinedTrees(t, a, b, k, l), Grove(w, par, m, k, len[k := l]);
    forall x | 0 <= x <= m ensures u.act[x] == v.act[x] && u.w[x] == v.w[x] {
      if 1 <= x { assert ParentOk(par, kids, n, x); }
    }
    forall x | 0 <= x <= m && t.act[x] && x != a && x != b ensures t.w[b] <= t.w[x] { WeightOrder(w[b], w[x]); }
    WeightOrder(w[a], w[b]);
    assert u.act == v.act && u.w == v.w;
  }

  /** No lengths for the roots cost less than what the nodes still to be made weigh. */
  lemma {:induction false} LowerBound(w: seq<int>, par: seq<int>, kids: seq<(int, int)>, n: int, m: int, bound: int,
    k: nat, len: seq<int>, d: nat)
    requires Weighed(w, par, kids, n, m, bound) && n <= k <= m && |len| == m + 1 && Fit(Grove(w, par, m, k, len), d)
    ensures Inner(w, k, m) <= Cost(Grove(w, par, m, k, len))
    decreases m - k
  {
    hide Weighed, Fit, Sum, Grove, JoinedTrees, WeightOf;
    WeighedSizes(w, par, kids, n, m, bound);
    var t := Grove(w, par, m, k, len);
    if k == m {
      LengthsBelow(t, d);
      CostPositive(t, d);
    } else {
      LinkedKids(w, par, kids, n, m, bound, k + 1);
      var a, b := kids[k - n].0, kids[k - n].1;
      GroveJoins(w, par, kids, n, m, bound, k + 1, len, 0);
      var l := JoinLightest(t, d, a, b, k + 1);
      assert Grove(w, par, m, k + 1, len[k + 1 := 0]).(len := l) == Grove(w, par, m, k + 1, l) by {
        SameGrove(w, par, m, k + 1, len[k + 1 := 0], l);
      }
      LowerBound(w, par, kids, n, m, bound, k + 1, l, d);
    }
  }

  lemma {:induction false} SameGrove(w: seq<int>, par: seq<int>, m: nat, k: nat, len: seq<int>, l: seq<int>)
    requires m < |w| && m < |par| && |len| == |l| == m + 1
    ensures Grove(w, par, m, k, len).(len := l) == Grove(w, par, m, k, l)
  {
  }

  lemma {:induction false} LinkedKids(w: seq<int>, par: seq<int>, kids: seq<(int, int)>, n: int, m: int, bound: int,
    k: nat)
    requires Weighed(w, par, kids, n, m, bound) && n < k <= m
    ensures 1 <= n && |kids| == m - n && m < |w| && m < |par|
    ensures var a, b := kids[k - n - 1].0, kids[k - n - 1].1; 1 <= a < k && 1 <= b < k && par[a] == par[b] == k
  {
    assert KidsOk(par, kids, n, k);
  }

  lemma {:induction false} CostPositive(t: Trees, d: nat)
    requires AreTrees(t, d)
    ensures Cost(t) >= 0
  {
    SumPositive(Costs(t));
  }

  /** The depths of all nodes. */
  ghost function Depths(par: seq<int>, m: nat): (r: seq<int>)
    ensures |r| == m + 1 && forall x | 0 <= x <= m :: r[x] == Depth(par, x)
  {
    seq(m + 1, x requires 0 <= x < m + 1 => Depth(par, x))
  }

  /** Depths in the finished tree cost just that. */
  lemma {:induction false} TreeCost(w: seq<int>, par: seq<int>, kids: seq<(int, int)>, n: int, m: int, bound: int,
    k: nat, d: nat)
    requires Weighed(w, par, kids, n, m, bound) && IsTree(par, kids, n, m) && n <= k <= m
    requires forall x | 1 <= x <= m :: Depth(par, x) <= d
    ensures Cost(Grove(w, par, m, k, Depths(par, m))) == Inner(w, k, m)
    decreases m - k
  {
    hide Weighed, IsTree, Sum, Grove, JoinedTrees, WeightOf, Depth, Cost;
    WeighedSizes(w, par, kids, n, m, bound);
    var len := Depths(par, m);
    var t := Grove(w, par, m, k, len);
    if k == m {
      OnlyRootCosts(w, par, kids, n, m, len);
    } else {
      LinkedKids(w, par, kids, n, m, bound, k + 1);
      var a, b := kids[k - n].0, kids[k - n].1;
      KidDepths(w, par, kids, n, m, bound, k + 1);
      GroveIsTrees(w, par, kids, n, m, bound, k, d);
      GroveJoins(w, par, kids, n, m, bound, k + 1, len, len[k + 1]);
      assert len[k + 1 := len[k + 1]] == len;
      JoinEqual(t, d, a, b, k + 1);
      TreeCost(w, par, kids, n, m, bound, k + 1, d);
    }
  }

  lemma {:induction false} KidDepths(w: seq<int>, par: seq<int>, kids: seq<(int, int)>, n: int, m: int, bound: int,
    k: nat)
    requires Weighed(w, par, kids, n, m, bound) && n < k <= m
    ensures var a, b := kids[k - n - 1].0, kids[k - n - 1].1;
      a != b && Depth(par, a) == 1 + Depth(par, k) && Depth(par, b) == 1 + Depth(par, k)
  {
    assert KidsOk(par, kids, n, k);
  }

  lemma {:induction false} GroveIsTrees(w: seq<int>, par: seq<int>, kids: seq<(int, int)>, n: int, m: int, bound: int,
    k: nat, d: nat)
    requires Weighed(w, par, kids, n, m, bound) && k <= m && forall x | 1 <= x <= m :: Depth(par, x) <= d
    ensures AreTrees(Grove(w, par, m, k, Depths(par, m)), d)
  {
    hide Depth;
    forall x | 1 <= x <= m ensures WeightOf(w[x]) >= 0 { assert HeavyEnough(w, n, x); }
  }

  lemma {:induction false} OnlyRootCosts(w: seq<int>, par: seq<int>, kids: seq<(int, int)>, n: int, m: int,
    len: seq<int>)
    requires IsTree(par, kids, n, m) && m < |w| && len == Depths(par, m)
    ensures Cost(Grove(w, par, m, m, len)) == 0
  {
    var t := Grove(w, par, m, m, len);
    assert Depth(par, m) == 0;
    forall x | 0 <= x <= m ensures Costs(t)[x] == 0 {
      if 1 <= x <= m { assert ParentOk(par, kids, n, x); }
    }
    SumZero(Costs(t));
  }

  lemma {:induction false} SumZero(s: seq<int>)
    requires forall i | 0 <= i < |s| :: s[i] == 0
    ensures Sum(s) == 0
  {
    if s != [] { SumZero(s[..|s| - 1]); }
  }

  // ---- codes

  /** There are codes of these lengths, none of them longer than d. */
  ghost predicate HasCodes(len: seq<nat>, d: nat) {
    (forall i | 0 <= i < |len| :: len[i] <= d) && Kraft(len, d, |len|) <= Pow2(d)
  }

  /** How long a text is in which symbol i comes w[i] times. */
  function Weighted(w: seq<int>, len: seq<nat>): int
    requires |w| == |len|
  {
    Sum(seq(|w|, i requires 0 <= i < |w| => w[i] * len[i]))
  }

  /** No code makes that text shorter. */
  ghost predicate IsBest(len: seq<nat>, w: seq<int>) {
    |len| == |w| &&
    forall other: seq<nat>, d: nat {:trigger HasCodes(other, d)} | |other| == |w| && HasCodes(other, d) ::
      Weighted(w, len) <= Weighted(w, other)
  }

  /** r stands in s behind the first place, and all else in s is zero. */
  ghost predicate Shifted(s: seq<int>, r: seq<int>) {
    |s| > |r| && s[0] == 0 && (forall i | 0 <= i < |r| :: s[i + 1] == r[i]) && forall i | |r| < i < |s| :: s[i] == 0
  }

  lemma {:induction false} ShiftedSum(s: seq<int>, r: seq<int>)
    requires Shifted(s, r)
    ensures Sum(s) == Sum(r)
    decreases |s|
  {
    var n := |s| - 1;
    if |r| < n {
      ShiftedSum(s[..n], r);
    } else if r == [] {
      assert s[..n] == [];
    } else {
      assert s[n] == r[n - 1];
      ShiftedSum(s[..n], r[..n - 1]);
    }
  }

  /** The lengths of the leaves, as lengths of nodes. */
  ghost function OfLeaves(len: seq<nat>, m: nat): (r: seq<int>)
    ensures |r| == m + 1
  {
    seq(m + 1, x requires 0 <= x < m + 1 => if 1 <= x <= |len| then len[x - 1] else 0)
  }

  ghost function PartsOf(len: seq<nat>, d: nat): (r: seq<int>)
    ensures |r| == |len|
  {
    seq(|len|, i requires 0 <= i < |len| => Part(d, len[i]))
  }

  lemma {:induction false} KraftIsSum(len: seq<nat>, d: nat, k: nat)
    requires k <= |len|
    ensures Kraft(len, d, k) == Sum(PartsOf(len, d)[..k])
  {
    if k > 0 {
      KraftIsSum(len, d, k - 1);
      var s := PartsOf(len, d)[..k];
      assert s[..k - 1] == PartsOf(len, d)[..k - 1];
    }
  }

  /** Before anything is joined, the trees are the leaves. */
  lemma {:induction false} LeavesFit(w: seq<int>, par: seq<int>, kids: seq<(int, int)>, n: int, m: int, bound: int,
    len: seq<nat>, d: nat)
    requires Weighed(w, par, kids, n, m, bound) && |len| == n && HasCodes(len, d)
    ensures Fit(Grove(w, par, m, n, OfLeaves(len, m)), d)
  {
    var t := Grove(w, par, m, n, OfLeaves(len, m));
    LeavesAct(w, par, kids, n, m, bound, OfLeaves(len, m));
    hide Weighed, Part, Sum;
    assert PartsOf(len, d)[..n] == PartsOf(len, d);
    KraftIsSum(len, d, n);
    assert Shifted(Parts(t, d), PartsOf(len, d));
    ShiftedSum(Parts(t, d), PartsOf(len, d));
  }

  lemma {:induction false} LeavesAct(w: seq<int>, par: seq<int>, kids: seq<(int, int)>, n: int, m: int, bound: int,
    len: seq<int>)
    requires Weighed(w, par, kids, n, m, bound) && |len| == m + 1
    ensures forall x | 0 <= x <= m :: Grove(w, par, m, n, len).act[x] <==> 1 <= x <= n
    ensures forall x | 1 <= x <= n :: WeightOf(w[x]) >= 0
  {
    forall x | 0 <= x <= m ensures Grove(w, par, m, n, len).act[x] <==> 1 <= x <= n {
      if 1 <= x <= n { assert ParentOk(par, kids, n, x); }
    }
    forall x | 1 <= x <= n ensures WeightOf(w[x]) >= 0 { assert HeavyEnough(w, n, x); }
  }

  lemma {:induction false} LeavesCost(w: seq<int>, par: seq<int>, kids: seq<(int, int)>, n: int, m: int, bound: int,
    weights: seq<int>, len: seq<nat>, l: seq<int>)
    requires Weighed(w, par, kids, n, m, bound) && |len| == |weights| == n && |l| == m + 1
    requires forall i | 0 <= i < n :: weights[i] == WeightOf(w[i + 1]) && l[i + 1] == len[i]
    ensures Cost(Grove(w, par, m, n, l)) == Weighted(weights, len)
  {
    var t := Grove(w, par, m, n, l);
    LeavesAct(w, par, kids, n, m, bound, l);
    hide Weighed, Sum, WeightOf;
    var r := seq(n, i requires 0 <= i < n => weights[i] * len[i]);
    assert r == seq(|weights|, i requires 0 <= i < |weights| => weights[i] * len[i]);
    assert Shifted(Costs(t), r);
    ShiftedSum(Costs(t), r);
  }

  /** The depths of the leaves of a tree that was made by joining the lightest are best. */
  lemma {:induction false} TreeIsBest(w: seq<int>, par: seq<int>, kids: seq<(int, int)>, n: int, m: int, bound: int,
    weights: seq<int>, len: seq<nat>, d: nat)
    requires Weighed(w, par, kids, n, m, bound) && IsTree(par, kids, n, m) && |len| == |weights| == n
    requires forall i | 0 <= i < n :: weights[i] == WeightOf(w[i + 1]) && len[i] == Depth(par, i + 1)
    requires forall x | 1 <= x <= m :: Depth(par, x) <= d
    ensures IsBest(len, weights)
  {
    hide Weighed, IsTree, Sum, Grove, WeightOf, Depth, Cost, Weighted, HasCodes;
    WeighedSizes(w, par, kids, n, m, bound);
    TreeCost(w, par, kids, n, m, bound, n, d);
    LeavesCost(w, par, kids, n, m, bound, weights, len, Depths(par, m));
    forall other: seq<nat>, e: nat | |other| == n && HasCodes(other, e)
      ensures Weighted(weights, len) <= Weighted(weights, other)
    {
      LeavesFit(w, par, kids, n, m, bound, other, e);
      LowerBound(w, par, kids, n, m, bound, n, OfLeaves(other, m), e);
      LeavesCost(w, par, kids, n, m, bound, weights, other, OfLeaves(other, m));
    }
  }

  lemma {:induction false} WeighedSizes(w: seq<int>, par: seq<int>, kids: seq<(int, int)>, n: int, m: int, bound: int)
    requires Weighed(w, par, kids, n, m, bound)
    ensures 1 <= n <= m < |par| && m < |w|
  {
  }

  /** With best lengths, a heavier symbol does not have a longer code. */
  lemma {:induction false} HeavierShorter(len: seq<nat>, w: seq<int>, d: nat, i: nat, j: nat)
    requires IsBest(len, w) && HasCodes(len, d) && i < |len| && j < |len| && w[i] > w[j]
    ensures len[i] <= len[j]
  {
    if i != j {
      var other := len[i := len[j]][j := len[i]];
      ExchangedCodes(len, d, i, j);
      ExchangedWeight(len, w, i, j);
      if len[i] > len[j] {
        StrictlyLess(w[i], w[j], len[i], len[j]);
        assert false;
      }
    }
  }

  lemma {:induction false} StrictlyLess(v: int, w: int, a: int, b: int)
    requires v > w && a > b
    ensures v * b + w * a < v * a + w * b
  {
    assert (v - w) * (a - b) > 0;
  }

  lemma {:induction false} ExchangedCodes(len: seq<nat>, d: nat, i: nat, j: nat)
    requires HasCodes(len, d) && i < |len| && j < |len| && i != j
    ensures HasCodes(len[i := len[j]][j := len[i]], d)
  {
    var other := len[i := len[j]][j := len[i]];
    var s := PartsOf(len, d);
    KraftIsSum(len, d, |len|);
    KraftIsSum(other, d, |len|);
    hide Sum, Part;
    assert s[..|len|] == s && PartsOf(other, d)[..|len|] == PartsOf(other, d) == s[i := s[j]][j := s[i]];
    SumUpdate(s, i, s[j]);
    SumUpdate(s[i := s[j]], j, s[i]);
  }

  lemma {:induction false} ExchangedWeight(len: seq<nat>, w: seq<int>, i: nat, j: nat)
    requires |len| == |w| && i < |len| && j < |len| && i != j
    ensures Weighted(w, len[i := len[j]][j := len[i]]) ==
      Weighted(w, len) - w[i] * len[i] - w[j] * len[j] + w[i] * len[j] + w[j] * len[i]
  {
    var other := len[i := len[j]][j := len[i]];
    var s, r := seq(|w|, x requires 0 <= x < |w| => w[x] * len[x]),
      seq(|w|, x requires 0 <= x < |w| => w[x] * other[x]);
    hide Sum;
    SumUpdate(s, i, w[i] * len[j]);
    SumUpdate(s[i := w[i] * len[j]], j, w[j] * len[i]);
    assert r == s[i := w[i] * len[j]][j := w[j] * len[i]];
  }
}
