/** The order in which the main sorter takes the 256 big buckets: the least full first. */
module RunningOrder {
  import opened Rotations

  /** How full big bucket c is. */
  function BigFreq(t: seq<int>, c: int): int {
    if 0 <= c < 256 && |t| >= 65537 then t[256 * (c + 1)] - t[256 * c] else 0
  }

  /** The first i entries are ordered by how full their buckets are. */
  ghost predicate FullerLater(t: seq<int>, o: seq<int>, i: int)
    requires i <= |o|
  {
    forall x, y {:trigger BigFreq(t, o[x]), BigFreq(t, o[y])} | 0 <= x < y < i :: BigFreq(t, o[x]) <= BigFreq(t, o[y])
  }

  /** With stride 1: entry i has come down to j past fuller ones. */
  ghost predicate Sinking(t: seq<int>, o0: seq<int>, o: seq<int>, i: int, j: int, h: int) {
    && 0 <= j <= i < 256 == |o0| == |o| && IsPerm(o, 256)
    && (h == 1 ==>
      && o[j] == o0[i]
      && (forall x | j < x <= i :: o[x] == o0[x - 1] && BigFreq(t, o0[i]) < BigFreq(t, o[x]))
      && (forall x | 0 <= x < j :: o[x] == o0[x]))
  }

  lemma {:induction false} SinkOn(t: seq<int>, o0: seq<int>, o: seq<int>, i: int, j: int, h: int)
    requires Sinking(t, o0, o, i, j, h) && 1 <= h <= j && BigFreq(t, o[j - h]) > BigFreq(t, o[j])
    ensures Sinking(t, o0, o[j := o[j - h]][j - h := o[j]], i, j - h, h)
  {
  }

  lemma {:induction false} Sunk(t: seq<int>, o0: seq<int>, o: seq<int>, i: int, j: int)
    requires Sinking(t, o0, o, i, j, 1) && FullerLater(t, o0, i) && (j > 0 ==> BigFreq(t, o[j - 1]) <= BigFreq(t, o[j]))
    ensures FullerLater(t, o, i + 1)
  {
    hide BigFreq;
    forall x, y | 0 <= x < y < i + 1 ensures BigFreq(t, o[x]) <= BigFreq(t, o[y]) {
      if y < j || x > j {
        assert o[x] == o0[if x < j then x else x - 1] && o[y] == o0[if y < j then y else y - 1];
      } else if x < j < y {
        assert o[x] == o0[x] && o[y] == o0[y - 1];
      } else if y == j {
        assert o[x] == o0[x] && o[j - 1] == o0[j - 1];
      }
    }
  }

  /** Inserts entry i with stride h. */
  method Insert(order: array<int>, ftab: array<int>, i: int, h: int)
    requires order != ftab && order.Length == 256 && ftab.Length >= 65537 && 1 <= h <= i < 256 && IsPerm(order[..], 256)
    modifies order
    ensures IsPerm(order[..], 256)
    ensures h == 1 && FullerLater(ftab[..], old(order[..]), i) ==> FullerLater(ftab[..], order[..], i + 1)
  {
    hide FullerLater;
    ghost var t, o0 := ftab[..], order[..];
    ghost var o := o0;
    var vv := order[i];
    var j := i;
    var more := true;
    while more
      invariant Sinking(t, o0, o, i, j, h) && o[j] == vv && (more ==> h <= j)
      invariant forall x | 0 <= x < 256 && x != j :: order[x] == o[x]
      invariant !more ==> j < h || BigFreq(t, o[j - h]) <= BigFreq(t, vv)
      decreases more, j
    {
      hide IsPerm, Sinking;
      InRange(t, o0, o, i, j, h);
      var u := order[j - h];
      if ftab[256 * (u + 1)] - ftab[256 * u] > ftab[256 * (vv + 1)] - ftab[256 * vv] {
        SinkOn(t, o0, o, i, j, h);
        InRange(t, o0, o[j := o[j - h]][j - h := o[j]], i, j - h, h);
        order[j] := u;
        o := o[j := u][j - h := vv];
        j := j - h;
        if j <= h - 1 { more := false; }
      } else {
        more := false;
      }
    }
    order[j] := vv;
    assert order[..] == o;
    if h == 1 && FullerLater(t, o0, i) { Sunk(t, o0, o, i, j); }
  }

  lemma {:induction false} InRange(t: seq<int>, o0: seq<int>, o: seq<int>, i: int, j: int, h: int)
    requires Sinking(t, o0, o, i, j, h)
    ensures 0 <= j <= i < |o| == |o0| == 256 && forall x | 0 <= x < 256 :: 0 <= o[x] < 256
  {
  }

  /** Shell sort of the bucket numbers. */
  method SortBuckets(ftab: array<int>) returns (order: array<int>)
    requires ftab.Length >= 65537
    ensures fresh(order) && order.Length == 256 && IsPerm(order[..], 256) && FullerLater(ftab[..], order[..], 256)
  {
    hide BigFreq;
    order := new int[256](i => i);
    var h := 1;
    h := 3 * h + 1;
    while h <= 256
      invariant h == 4 || h == 13 || h == 40 || h == 121 || h == 364
      decreases 257 - h
    {
      h := 3 * h + 1;
    }
    while true
      invariant (h == 4 || h == 13 || h == 40 || h == 121 || h == 364) && IsPerm(order[..], 256)
      decreases h
    {
      h := h / 3;
      var i := h;
      while i <= 255
        invariant IsPerm(order[..], 256) && h <= i
        invariant h == 1 ==> i <= 256 && FullerLater(ftab[..], order[..], i)
        decreases 256 - i
      {
        hide IsPerm, FullerLater;
        Insert(order, ftab, i, h);
        i := i + 1;
      }
      if h == 1 { break; }
    }
  }
}
