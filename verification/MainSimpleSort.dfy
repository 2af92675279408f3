/** The main sorter's shell sort of a range of rotations that agree on their first d bytes. */
module MainSimpleSort {
  import opened Rotations
  import opened FallbackQSort
  import opened Overlay
  import opened MainCompare

  /** Positions lo..hi hold rotations in order. */
  ghost predicate InOrder(b: Block, f: seq<int>, lo: int, hi: int) {
    0 <= lo <= hi + 1 <= |f| && forall x, y {:trigger RotLe(b, f[x], f[y])} | lo <= x < y <= hi :: RotLe(b, f[x], f[y])
  }

  /** Positions lo..hi hold rotations that agree on d bytes. */
  ghost predicate Alike(b: Block, f: seq<int>, lo: int, hi: int, d: nat) {
    && 0 <= lo <= hi + 1 <= |f|
    && (forall x | lo <= x <= hi :: 0 <= f[x] < |b|)
    && (forall x, y {:trigger Agree(b, f[x], f[y], d)} | lo <= x <= hi && lo <= y <= hi :: Agree(b, f[x], f[y], d))
  }

  lemma {:induction false} AlikeStill(b: Block, f: seq<int>, g: seq<int>, lo: int, hi: int, d: nat)
    requires Alike(b, f, lo, hi, d) && Rearranged(f, g, lo, hi)
    ensures Alike(b, g, lo, hi, d)
  {
    hide Rearranged, Agree;
    SameSize(f, g, lo, hi);
    forall x | lo <= x <= hi ensures 0 <= g[x] < |b| {
      var z := RearrangedFrom(f, g, lo, hi, x);
    }
    forall x, y | lo <= x <= hi && lo <= y <= hi ensures Agree(b, g[x], g[y], d) {
      var x0 := RearrangedFrom(f, g, lo, hi, x);
      var y0 := RearrangedFrom(f, g, lo, hi, y);
      assert Agree(b, f[x0], f[y0], d);
    }
  }

  lemma {:induction false} SameSize(f: seq<int>, g: seq<int>, lo: int, hi: int)
    requires Rearranged(f, g, lo, hi)
    ensures |f| == |g|
  {
  }

  /** The answer to a comparison d bytes on is the answer for rotations that agree on d bytes. */
  lemma {:induction false} AnswersBefore(b: Block, i: int, j: int, d: nat, gt: bool)
    requires Agree(b, i, j, d) && Answers(b, i + d, j + d, gt)
    ensures Answers(b, i, j, gt)
  {
    hide RotLe;
    FollowedFrom(b, i, j, d);
    if gt { TailDecides(b, j, i, j + d, i + d, d); } else { TailDecides(b, i, j, i + d, j + d, d); }
  }

  lemma {:induction false} FollowedFrom(b: Block, i: int, j: int, d: nat)
    requires Agree(b, i, j, d)
    ensures Followed(b, i, j, i + d, j + d, d) && Followed(b, j, i, j + d, i + d, d)
  {
  }

  /** The increments, Knuth's. */
  function Incs(): (r: seq<int>)
    ensures |r| == 14 && r[0] == 1 && r[13] == 2391484 && forall i | 0 <= i < 14 :: r[i] >= 1
  {
    [1, 4, 13, 40, 121, 364, 1093, 3280, 9841, 29524, 88573, 265720, 797161, 2391484]
  }

  /**
   * With stride 1: v, from position i, has come down to j, and what it passed, all not below v, is one place further
   * up.
   */
  ghost predicate Sinking(b: Block, f0: seq<int>, g: seq<int>, lo: int, i: int, j: int, h: int) {
    && lo <= j <= i < |g| == |f0| && 0 <= lo
    && (h == 1 ==>
      && g[j] == f0[i]
      && (forall x | j < x <= i :: g[x] == f0[x - 1] && RotLe(b, f0[i], f0[x - 1]))
      && (forall x | lo <= x < j :: g[x] == f0[x]))
  }

  lemma {:induction false} Unsunk(b: Block, f0: seq<int>, lo: int, i: int, h: int, hi: int)
    requires 0 <= lo <= i <= hi < |f0|
    ensures Sinking(b, f0, f0, lo, i, i, h) && Rearranged(f0, f0, lo, hi)
  {
  }

  lemma {:induction false} SinkOn(b: Block, f0: seq<int>, g: seq<int>, lo: int, i: int, j: int, h: int)
    requires Sinking(b, f0, g, lo, i, j, h) && h >= 1 && lo + h <= j
    requires RotLe(b, g[j], g[j - h])
    ensures Sinking(b, f0, g[j := g[j - h]][j - h := g[j]], lo, i, j - h, h)
  {
    hide RotLe;
  }

  lemma {:induction false} Sunk(b: Block, f0: seq<int>, g: seq<int>, lo: int, i: int, j: int)
    requires Sinking(b, f0, g, lo, i, j, 1) && InOrder(b, f0, lo, i - 1)
    requires j - 1 >= lo ==> RotLe(b, g[j - 1], g[j])
    ensures InOrder(b, g, lo, i)
  {
    hide RotLe;
    forall x, y | lo <= x < y <= i ensures RotLe(b, g[x], g[y]) {
      if y < j || x > j {
        assert RotLe(b, f0[if x < j then x else x - 1], f0[if y < j then y else y - 1]);
      } else if x < j < y {
        assert RotLe(b, f0[x], f0[y - 1]) || x == y - 1;
      } else if y == j && x < j - 1 {
        assert RotLe(b, f0[x], f0[j - 1]);
        RotLeTrans(b, f0[x], f0[j - 1], f0[i]);
      }
    }
  }

  lemma {:induction false} RotLeTrans(b: Block, i: int, j: int, l: int)
    requires RotLe(b, i, j) && RotLe(b, j, l)
    ensures RotLe(b, i, l)
  {
    LessEqTrans(b, i, j, l, |b|);
  }

  /** One insertion with stride h: ptr[i] moves down past the rotations not below it. */
  method ShiftDown(ptr: array<int>, arr2: array<int>, q0: int, nblock: int, lo: int, i: int, hi: int, h: int, d: int,
    budget0: int, ghost b: Block, ghost quad: seq<int>)
    returns (budget: int)
    requires ptr != arr2 && Ready(b, arr2[..], q0, quad) && nblock == |b| > N_OVERSHOOT
    requires 0 <= lo && 1 <= h && lo + h <= i <= hi < ptr.Length && 0 <= d <= 15 && Alike(b, ptr[..], lo, hi, d)
    modifies ptr
    ensures Rearranged(old(ptr[..]), ptr[..], lo, hi) && budget <= budget0
    ensures h == 1 && InOrder(b, old(ptr[..]), lo, i - 1) ==> InOrder(b, ptr[..], lo, i)
  {
    hide Ready, Alike, Rearranged, Sinking, InOrder, Answers, Agree;
    ghost var f0 := ptr[..];
    ghost var g := f0;
    Unsunk(b, f0, lo, i, h, hi);
    var v := ptr[i];
    var j := i;
    budget := budget0;
    var more := true;
    ghost var settled := false;
    while more
      invariant lo <= j <= i && |g| == ptr.Length && budget <= budget0
      invariant more ==> lo + h <= j
      invariant Rearranged(f0, g, lo, hi) && Sinking(b, f0, g, lo, i, j, h)
      invariant g[j] == v && forall x | 0 <= x < ptr.Length && x != j :: ptr[x] == g[x]
      invariant !more ==> j < lo + h || RotLe(b, g[j - h], g[j])
      decreases more, j
    {
      AlikeStill(b, f0, g, lo, hi, d);
      AlikePair(b, g, lo, hi, d, j - h, j);
      var gt;
      gt, budget := MainGtU(arr2, q0, ptr[j - h] + d, v + d, nblock, budget, b, quad);
      AnswersBefore(b, ptr[j - h], v, d, gt);
      Answered(b, ptr[j - h], v, gt);
      if gt {
        SinkOn(b, f0, g, lo, i, j, h);
        MoveDown(f0, g, j, h, lo, hi);
        ptr[j] := ptr[j - h];
        g := g[j := g[j - h]][j - h := v];
        j := j - h;
        if j <= lo + h - 1 { more := false; }
      } else {
        more := false;
      }
    }
    ptr[j] := v;
    assert ptr[..] == g;
    if h == 1 && InOrder(b, f0, lo, i - 1) {
      Sunk(b, f0, g, lo, i, j);
    }
  }

  lemma {:induction false} AlikePair(b: Block, f: seq<int>, lo: int, hi: int, d: nat, x: int, y: int)
    requires Alike(b, f, lo, hi, d) && lo <= x <= hi && lo <= y <= hi
    ensures 0 <= f[x] < |b| && 0 <= f[y] < |b| && Agree(b, f[x], f[y], d)
  {
  }

  lemma {:induction false} Answered(b: Block, i: int, j: int, gt: bool)
    requires Answers(b, i, j, gt)
    ensures (gt ==> RotLe(b, j, i)) && (!gt ==> RotLe(b, i, j))
  {
  }

  lemma {:induction false} MoveDown(f0: seq<int>, g: seq<int>, j: int, h: int, lo: int, hi: int)
    requires h >= 1 && 0 <= lo <= j - h && j <= hi < |g| && Rearranged(f0, g, lo, hi)
    ensures Rearranged(f0, g[j := g[j - h]][j - h := g[j]], lo, hi)
  {
  }

  lemma {:induction false} OrderedAlone(b: Block, f: seq<int>, lo: int, hi: int)
    requires 0 <= lo <= hi + 1 <= |f| && hi <= lo
    ensures InOrder(b, f, lo, hi)
  {
  }

  /** One pass with stride h; true when it ran out of budget. */
  method ShellPass(ptr: array<int>, arr2: array<int>, q0: int, nblock: int, lo: int, hi: int, h: int, d: int,
    budget0: int, ghost b: Block, ghost quad: seq<int>)
    returns (stop: bool, budget: int)
    requires ptr != arr2 && Ready(b, arr2[..], q0, quad) && nblock == |b| > N_OVERSHOOT
    requires 0 <= lo <= hi < ptr.Length && 1 <= h && 0 <= d <= 15 && Alike(b, ptr[..], lo, hi, d)
    modifies ptr
    ensures Rearranged(old(ptr[..]), ptr[..], lo, hi) && budget <= budget0 && (stop ==> budget < 0)
    ensures !stop && h == 1 ==> InOrder(b, ptr[..], lo, hi)
  {
    hide Ready, Alike, Rearranged, InOrder;
    ghost var f0 := ptr[..];
    var i := lo + h;
    budget, stop := budget0, false;
    Unmoved(f0, lo, hi);
    OrderedAlone(b, f0, lo, lo);
    while i <= hi && !stop
      invariant lo + h <= i && (stop ==> budget < 0) && budget <= budget0
      invariant Rearranged(f0, ptr[..], lo, hi)
      invariant h == 1 ==> i <= hi + 1 && InOrder(b, ptr[..], lo, i - 1)
      decreases hi - i
    {
      ghost var first := i;
      var copy := 0;
      while copy < 3 && i <= hi
        invariant copy <= 3 && i == first + copy && (copy > 0 || i <= hi) && budget <= budget0
        invariant Rearranged(f0, ptr[..], lo, hi)
        invariant h == 1 ==> i <= hi + 1 && InOrder(b, ptr[..], lo, i - 1)
        decreases hi - i
      {
        ghost var g := ptr[..];
        AlikeStill(b, f0, g, lo, hi, d);
        budget := ShiftDown(ptr, arr2, q0, nblock, lo, i, hi, h, d, budget, b, quad);
        RearrangedTrans(f0, g, ptr[..], lo, hi);
        i := i + 1;
        copy := copy + 1;
      }
      stop := copy == 3 && budget < 0;
    }
  }

  lemma {:induction false} Unmoved(f: seq<int>, lo: int, hi: int)
    ensures Rearranged(f, f, lo, hi)
  {
  }

  /** mainSimpleSort */
  method MainSimpleSort(ptr: array<int>, arr2: array<int>, q0: int, nblock: int, lo: int, hi: int, d: int, budget0: int,
    ghost b: Block, ghost quad: seq<int>)
    returns (budget: int)
    requires ptr != arr2 && Ready(b, arr2[..], q0, quad) && N_OVERSHOOT < nblock == |b| <= 2391484
    requires 0 <= d <= 15 && Alike(b, ptr[..], lo, hi, d) && hi - lo + 1 <= nblock
    modifies ptr
    ensures Rearranged(old(ptr[..]), ptr[..], lo, hi) && budget <= budget0
    ensures budget >= 0 ==> InOrder(b, ptr[..], lo, hi)
  {
    hide Ready, Alike, Rearranged, InOrder;
    ghost var f0 := ptr[..];
    Unmoved(f0, lo, hi);
    AlikeRange(b, f0, lo, hi, d);
    budget := budget0;
    var bigN := hi - lo + 1;
    if bigN < 2 {
      OrderedAlone(b, f0, lo, hi);
      return;
    }
    var hp := 0;
    while Incs()[hp] < bigN
      invariant 0 <= hp <= 13 && (hp == 0 ==> Incs()[hp] < bigN)
      decreases 13 - hp
    {
      hp := hp + 1;
    }
    hp := hp - 1;
    var stop := false;
    while hp >= 0 && !stop
      invariant -1 <= hp <= 13 && (stop ==> budget < 0) && budget <= budget0
      invariant Rearranged(f0, ptr[..], lo, hi)
      invariant hp == -1 && !stop ==> InOrder(b, ptr[..], lo, hi)
      decreases hp
    {
      ghost var g := ptr[..];
      AlikeStill(b, f0, g, lo, hi, d);
      stop, budget := ShellPass(ptr, arr2, q0, nblock, lo, hi, Incs()[hp], d, budget, b, quad);
      RearrangedTrans(f0, g, ptr[..], lo, hi);
      hp := hp - 1;
    }
  }

  lemma {:induction false} AlikeRange(b: Block, f: seq<int>, lo: int, hi: int, d: nat)
    requires Alike(b, f, lo, hi, d)
    ensures 0 <= lo <= hi + 1 <= |f|
  {
  }
}
