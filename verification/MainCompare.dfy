/** The main sorter's comparison of two rotations: bytes first, then bytes and cached ranks. */
module MainCompare {
  import opened Bits
  import opened Rotations
  import opened ByteView
  import opened Overlay

  /** The block with its first bytes again after its end. */
  function Extended(b: Block): (r: seq<Byte>)
    requires |b| > N_OVERSHOOT
    ensures |r| == |b| + N_OVERSHOOT
  {
    b + b[..N_OVERSHOOT]
  }

  /**
   * What the cached ranks mean: among rotations with the same first byte a smaller rank never belongs to a greater
   * rotation.
   */
  ghost predicate QuadrantsOk(b: Block, quad: seq<int>) {
    && |quad| == |b| + N_OVERSHOOT && |b| > N_OVERSHOOT
    && (forall i | 0 <= i < N_OVERSHOOT :: quad[|b| + i] == quad[i])
    && (forall i, j | 0 <= i < |b| && 0 <= j < |b| && b[i] == b[j] && quad[i] < quad[j] :: RotLe(b, i, j))
  }

  /** arr2 holds the block and its ranks. */
  ghost predicate Ready(b: Block, w: seq<int>, q0: int, quad: seq<int>) {
    QuadrantsOk(b, quad) && Shows(w, q0, Extended(b), quad)
  }

  /** The indices i and j name the same rotation. */
  ghost predicate Same(b: Block, i: int, j: int) {
    forall k: nat :: Ch(b, i, k) == Ch(b, j, k)
  }

  /** The rotations s1 and s2 agree on m bytes, and i1 and i2 are where they go on. */
  ghost predicate Followed(b: Block, s1: int, s2: int, i1: int, i2: int, m: nat) {
    Agree(b, s1, s2, m) && Same(b, i1, s1 + m) && Same(b, i2, s2 + m)
  }

  function Inside(i: int, n: int): int {
    if i >= n then i - n else i
  }

  lemma {:induction false} SameInside(b: Block, i: int)
    ensures Same(b, i, Inside(i, |b|)) && Same(b, Inside(i, |b|), i)
  {
    forall k: nat ensures Ch(b, i, k) == Ch(b, Inside(i, |b|), k) {
      ChPeriod(b, i, k);
    }
  }

  lemma {:induction false} ExtendedAt(b: Block, i: int)
    requires |b| > N_OVERSHOOT && 0 <= i < |b| + N_OVERSHOOT
    ensures Extended(b)[i] == Ch(b, i, 0) == b[Inside(i, |b|)] && 0 <= Inside(i, |b|) < |b|
  {
    DivModUnique(i, |b|, if i >= |b| then 1 else 0, Inside(i, |b|));
  }

  lemma {:induction false} SameLe(b: Block, i: int, j: int, i': int, j': int)
    requires Same(b, i, i') && Same(b, j, j') && RotLe(b, i, j)
    ensures RotLe(b, i', j')
  {
    SameRotations(b, i, j, i', j', |b|);
  }

  lemma {:induction false} Begun(b: Block, s1: int, s2: int)
    ensures Followed(b, s1, s2, s1, s2, 0)
  {
  }

  lemma {:induction false} SameStep(b: Block, i: int, j: int)
    requires Same(b, i, j)
    ensures Same(b, i + 1, j + 1)
  {
    var i', j' := i + 1, j + 1;
    forall k: nat ensures Ch(b, i', k) == Ch(b, j', k) {
      assert Ch(b, i, k + 1) == Ch(b, j, k + 1);
    }
  }

  lemma {:induction false} FollowOn(b: Block, s1: int, s2: int, i1: int, i2: int, m: nat)
    requires Followed(b, s1, s2, i1, i2, m) && Ch(b, i1, 0) == Ch(b, i2, 0)
    ensures Followed(b, s1, s2, i1 + 1, i2 + 1, m + 1)
  {
    assert Ch(b, s1 + m, 0) == Ch(b, s1, m) && Ch(b, s2 + m, 0) == Ch(b, s2, m);
    SameStep(b, i1, s1 + m);
    SameStep(b, i2, s2 + m);
  }

  lemma {:induction false} FollowInside(b: Block, s1: int, s2: int, i1: int, i2: int, m: nat)
    requires Followed(b, s1, s2, i1, i2, m)
    ensures Followed(b, s1, s2, Inside(i1, |b|), Inside(i2, |b|), m)
  {
    SameInside(b, i1);
    SameInside(b, i2);
  }

  /** Rotations that agree at first are in the order of what follows. */
  lemma {:induction false} TailDecides(b: Block, s1: int, s2: int, i1: int, i2: int, m: nat)
    requires Followed(b, s1, s2, i1, i2, m) && RotLe(b, i1, i2)
    ensures RotLe(b, s1, s2)
  {
    SameLe(b, i1, i2, s1 + m, s2 + m);
    SplitLess(b, s1, s2, m, |b|);
    SplitAgree(b, s1, s2, m, |b|);
    LongOrder(b, s1, s2, m + |b|);
  }

  lemma {:induction false} ByteDecides(b: Block, s1: int, s2: int, i1: int, i2: int, m: nat)
    requires Followed(b, s1, s2, i1, i2, m) && Ch(b, i1, 0) < Ch(b, i2, 0)
    ensures RotLe(b, s1, s2)
  {
    assert LessAt(b, i1, i2, 0);
    TailDecides(b, s1, s2, i1, i2, m);
  }

  lemma {:induction false} FollowedBack(b: Block, s1: int, s2: int, i1: int, i2: int, m: nat)
    requires Followed(b, s1, s2, i1, i2, m)
    ensures Followed(b, s2, s1, i2, i1, m)
  {
  }

  lemma {:induction false} AllFollowed(b: Block, s1: int, s2: int, i1: int, i2: int, m: nat)
    requires Followed(b, s1, s2, i1, i2, m) && m >= |b|
    ensures RotLe(b, s1, s2)
  {
    LongOrder(b, s1, s2, m);
  }

  /** A smaller rank after agreeing bytes. */
  lemma {:induction false} RankDecides(b: Block, quad: seq<int>, s1: int, s2: int, i1: int, i2: int, m: nat)
    requires QuadrantsOk(b, quad) && Followed(b, s1, s2, i1, i2, m) && Ch(b, i1, 0) == Ch(b, i2, 0)
    requires 0 <= i1 < |quad| && 0 <= i2 < |quad| && quad[i1] < quad[i2]
    ensures RotLe(b, s1, s2)
  {
    hide RotLe;
    ExtendedAt(b, i1);
    ExtendedAt(b, i2);
    var j1, j2 := Inside(i1, |b|), Inside(i2, |b|);
    assert quad[i1] == quad[j1] && quad[i2] == quad[j2];
    SameInside(b, i1);
    SameInside(b, i2);
    SameLe(b, j1, j2, i1, i2);
    TailDecides(b, s1, s2, i1, i2, m);
  }

  // ---- mainGtU

  /** The rotations compare like the answer: greater or equal, or less or equal. */
  ghost predicate Answers(b: Block, s1: int, s2: int, gt: bool) {
    (gt ==> RotLe(b, s2, s1)) && (!gt ==> RotLe(b, s1, s2))
  }

  lemma {:induction false} BytesAnswer(b: Block, s1: int, s2: int, i1: int, i2: int, m: nat)
    requires Followed(b, s1, s2, i1, i2, m) && Ch(b, i1, 0) != Ch(b, i2, 0)
    ensures Answers(b, s1, s2, Ch(b, i1, 0) > Ch(b, i2, 0))
  {
    hide RotLe, Followed;
    FollowedBack(b, s1, s2, i1, i2, m);
    if Ch(b, i1, 0) > Ch(b, i2, 0) { ByteDecides(b, s2, s1, i2, i1, m); } else { ByteDecides(b, s1, s2, i1, i2, m); }
  }

  lemma {:induction false} RanksAnswer(b: Block, quad: seq<int>, s1: int, s2: int, i1: int, i2: int, m: nat)
    requires QuadrantsOk(b, quad) && Followed(b, s1, s2, i1, i2, m) && Ch(b, i1, 0) == Ch(b, i2, 0)
    requires 0 <= i1 < |quad| && 0 <= i2 < |quad| && quad[i1] != quad[i2]
    ensures Answers(b, s1, s2, quad[i1] > quad[i2])
  {
    hide RotLe, Followed, QuadrantsOk;
    FollowedBack(b, s1, s2, i1, i2, m);
    if quad[i1] > quad[i2] { RankDecides(b, quad, s2, s1, i2, i1, m); } else {
      RankDecides(b, quad, s1, s2, i1, i2, m);
    }
  }

  /** What the words hold at position i. */
  lemma {:induction false} ReadyAt(b: Block, w: seq<int>, q0: int, quad: seq<int>, i: int)
    requires Ready(b, w, q0, quad) && 0 <= i < |b| + N_OVERSHOOT
    ensures i < 4 * |w| && ByteAt(w, i) == Ch(b, i, 0)
    ensures 0 <= q0 && q0 + 2 * i + 1 < 4 * |w| && |quad| == |b| + N_OVERSHOOT && QuadAt(w, q0, i) == quad[i]
  {
    ExtendedAt(b, i);
  }

  lemma {:induction false} ReadyRanks(b: Block, w: seq<int>, q0: int, quad: seq<int>)
    requires Ready(b, w, q0, quad)
    ensures QuadrantsOk(b, quad)
  {
  }

  /** One round of the comparison on bytes alone. */
  method CompareBytes(arr2: array<int>, i1: int, i2: int, ghost b: Block, ghost q0: int, ghost quad: seq<int>,
    ghost s1: int, ghost s2: int, ghost m: nat)
    returns (decided: bool, gt: bool)
    requires Ready(b, arr2[..], q0, quad) && 0 <= i1 < |b| + N_OVERSHOOT && 0 <= i2 < |b| + N_OVERSHOOT
    requires Followed(b, s1, s2, i1, i2, m)
    ensures decided ==> Answers(b, s1, s2, gt)
    ensures !decided ==> Ch(b, i1, 0) == Ch(b, i2, 0) && Followed(b, s1, s2, i1 + 1, i2 + 1, m + 1)
  {
    hide *;
    ReadyAt(b, arr2[..], q0, quad, i1);
    ReadyAt(b, arr2[..], q0, quad, i2);
    var c1, c2 := BlockByte(arr2, i1), BlockByte(arr2, i2);
    decided, gt := c1 != c2, c1 > c2;
    if decided { BytesAnswer(b, s1, s2, i1, i2, m); } else { FollowOn(b, s1, s2, i1, i2, m); }
  }

  /** One round on a byte and a rank. */
  method CompareRanked(arr2: array<int>, q0: int, i1: int, i2: int, ghost b: Block, ghost quad: seq<int>, ghost s1: int,
    ghost s2: int, ghost m: nat)
    returns (decided: bool, gt: bool)
    requires Ready(b, arr2[..], q0, quad) && 0 <= i1 < |b| + N_OVERSHOOT && 0 <= i2 < |b| + N_OVERSHOOT
    requires Followed(b, s1, s2, i1, i2, m)
    ensures decided ==> Answers(b, s1, s2, gt)
    ensures !decided ==> Followed(b, s1, s2, i1 + 1, i2 + 1, m + 1)
  {
    hide *;
    decided, gt := CompareBytes(arr2, i1, i2, b, q0, quad, s1, s2, m);
    if !decided {
      ReadyAt(b, arr2[..], q0, quad, i1);
      ReadyAt(b, arr2[..], q0, quad, i2);
      ReadyRanks(b, arr2[..], q0, quad);
      var r1, r2 := Quadrant(arr2, q0, i1), Quadrant(arr2, q0, i2);
      decided, gt := r1 != r2, r1 > r2;
      if decided { RanksAnswer(b, quad, s1, s2, i1, i2, m); }
    }
  }

  /**
   * mainGtU on rotations up to 15 places past the end: never reads past the overshoot, and answers as the rotations
   * compare.
   */
  method MainGtU(arr2: array<int>, q0: int, s1: int, s2: int, nblock: int, budget0: int, ghost b: Block,
    ghost quad: seq<int>)
    returns (gt: bool, budget: int)
    requires Ready(b, arr2[..], q0, quad) && nblock == |b| && |b| > N_OVERSHOOT
    requires 0 <= s1 < nblock + 15 && 0 <= s2 < nblock + 15
    ensures Answers(b, s1, s2, gt) && budget <= budget0
  {
    hide Ready, Answers, Followed;
    var i1, i2, decided := s1, s2, false;
    budget := budget0;
    Begun(b, s1, s2);
    for m := 0 to 12
      invariant i1 == s1 + m && i2 == s2 + m && Followed(b, s1, s2, i1, i2, m)
    {
      decided, gt := CompareBytes(arr2, i1, i2, b, q0, quad, s1, s2, m);
      if decided { return; }
      i1, i2 := i1 + 1, i2 + 1;
    }
    var k := nblock + 8;
    ghost var m := 12;
    while true
      invariant 0 <= i1 < nblock + 27 && 0 <= i2 < nblock + 27 && Followed(b, s1, s2, i1, i2, m)
      invariant k >= 0 && m == 12 + (nblock + 8 - k) && budget <= budget0
      decreases k
    {
      ghost var j1, j2 := i1, i2;
      for t := 0 to 8
        invariant i1 == j1 + t && i2 == j2 + t && Followed(b, s1, s2, i1, i2, m + t)
      {
        decided, gt := CompareRanked(arr2, q0, i1, i2, b, quad, s1, s2, m + t);
        if decided { return; }
        i1, i2 := i1 + 1, i2 + 1;
      }
      m := m + 8;
      FollowInside(b, s1, s2, i1, i2, m);
      if i1 >= nblock { i1 := i1 - nblock; }
      if i2 >= nblock { i2 := i2 - nblock; }
      k := k - 8;
      budget := budget - 1;
      if k < 0 { break; }
    }
    gt := false;
    AllFollowed(b, s1, s2, i1, i2, m);
    EqualAnswer(b, s1, s2);
  }

  lemma {:induction false} EqualAnswer(b: Block, s1: int, s2: int)
    requires RotLe(b, s1, s2)
    ensures Answers(b, s1, s2, false)
  {
  }
}
