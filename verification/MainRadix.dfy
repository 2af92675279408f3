/** The two-byte radix sort that starts the main sorter, and the buckets it leaves. */
module MainRadix {
  import opened Bits
  import opened Rotations
  import opened InverseBwt
  import opened Counting
  import opened ByteView
  import opened Overlay
  import opened MainCompare

  /** The first two bytes of rotation i, as one number. */
  function KeyOf(b: Block, i: int): (r: int)
    ensures 0 <= r < 65536 && r / 256 == Ch(b, i, 0) && r % 256 == Ch(b, i, 1)
  {
    256 * Ch(b, i, 0) + Ch(b, i, 1)
  }

  function Keys(b: Block): (r: seq<int>)
    ensures |r| == |b| && forall i | 0 <= i < |b| :: r[i] == KeyOf(b, i)
  {
    seq(|b|, i requires 0 <= i < |b| => KeyOf(b, i))
  }

  /** Where bucket c starts, among the keys ks. */
  function Start(ks: seq<int>, c: int): (r: nat)
    ensures r <= |ks|
  {
    Below(ks, c, |ks|)
  }

  ghost predicate AreKeys(ks: seq<int>) {
    forall i | 0 <= i < |ks| :: 0 <= ks[i] < 65536
  }

  lemma {:induction false} KeysAreKeys(b: Block)
    ensures AreKeys(Keys(b))
  {
  }

  lemma {:induction false} StartEnds(ks: seq<int>)
    requires AreKeys(ks)
    ensures Start(ks, 0) == 0 && Start(ks, 65536) == Start(ks, 65537) == |ks|
  {
    EndsTo(ks, |ks|);
  }

  lemma {:induction false} EndsTo(ks: seq<int>, m: nat)
    requires AreKeys(ks) && m <= |ks|
    ensures Below(ks, 0, m) == 0 && Below(ks, 65536, m) == Below(ks, 65537, m) == m
  {
    if m > 0 { EndsTo(ks, m - 1); }
  }

  lemma {:induction false} StartMono(ks: seq<int>, c: int, d: int)
    requires c <= d
    ensures Start(ks, c) <= Start(ks, d)
  {
    BelowMono(ks, c, d, |ks|);
  }

  /** The pair of bytes one place further in front: c, and the first byte of the pair j. */
  function Roll(j: int, c: Byte): int
    requires 0 <= j < 65536
  {
    Or(j / 256, c * 256)
  }

  lemma {:induction false} RollIs(j: int, c: Byte)
    requires 0 <= j < 65536
    ensures Roll(j, c) == 256 * c + j / 256
  {
    Pow2Values();
    ModOfMultiple(256, c);
    OrIsSum(j / 256, c * 256, 8);
    OrCommutes(j / 256, c * 256);
  }

  /** Taking the byte in front of position i + 1 into the rolling key gives the key of position i. */
  lemma {:induction false} RollsOn(b: Block, i: int, j: int)
    requires 0 <= j < 65536 && j / 256 == Ch(b, i, 1)
    ensures Roll(j, Ch(b, i, 0)) == KeyOf(b, i)
    ensures KeyOf(b, i) / 256 == Ch(b, i - 1, 1)
  {
    RollIs(j, Ch(b, i, 0));
  }

  /** The key before the first step: the block's first byte follows its last. */
  lemma {:induction false} RollStarts(b: Block)
    ensures var j := b[0] as int * 256; 0 <= j < 65536 && j / 256 == Ch(b, |b| - 1, 1)
  {
    DivModUnique(|b| - 1 + 1, |b|, 1, 0);
  }

  lemma {:induction false} BlockAt(b: Block, i: int)
    requires 0 <= i < |b|
    ensures b[i] == Ch(b, i, 0)
  {
    DivModUnique(i, |b|, 0, i);
  }

  // ---- counting the pairs of bytes

  /** How many of the positions from i on have key c. */
  function After(ks: seq<int>, c: int, i: nat): int
    requires i <= |ks|
  {
    Count(ks, c, |ks|) - Count(ks, c, i)
  }

  ghost predicate Counted(t: seq<int>, ks: seq<int>, i: nat)
    requires i <= |ks|
  {
    |t| >= 65537 && forall c | 0 <= c <= 65536 :: t[c] == After(ks, c, i)
  }

  lemma {:induction false} CountedNext(t: seq<int>, ks: seq<int>, i: nat)
    requires i < |ks| && AreKeys(ks) && Counted(t, ks, i + 1)
    ensures Counted(t[ks[i] := t[ks[i]] + 1], ks, i)
  {
  }

  lemma {:induction false} CountedNone(t: seq<int>, ks: seq<int>)
    requires |t| >= 65537 && forall c | 0 <= c <= 65536 :: t[c] == 0
    ensures Counted(t, ks, |ks|)
  {
  }

  /** The block as it is in memory while the quadrants are cleared from the top down to i. */
  ghost predicate Clearing(b: Block, w: seq<int>, q0: int, blk: seq<Byte>, quad: seq<int>, i: int) {
    && Shows(w, q0, blk, quad) && |blk| == |b| + N_OVERSHOOT && 0 <= i <= |b|
    && (forall k | 0 <= k < |b| :: blk[k] == b[k])
    && (forall k | i <= k < |b| :: quad[k] == 0)
  }

  lemma {:induction false} ClearingAt(b: Block, w: seq<int>, q0: int, blk: seq<Byte>, quad: seq<int>, i: int)
    requires Clearing(b, w, q0, blk, quad, i) && i > 0
    ensures i - 1 < 4 * |w| && ByteAt(w, i - 1) == b[i - 1] && Shows(w, q0, blk, quad) && |blk| == |b| + N_OVERSHOOT
  {
  }

  lemma {:induction false} ClearingNext(b: Block, w: seq<int>, w': seq<int>, q0: int, blk: seq<Byte>, quad: seq<int>,
    i: int)
    requires Clearing(b, w, q0, blk, quad, i) && i > 0 && |blk| == |quad| && Shows(w', q0, blk, quad[i - 1 := 0])
    ensures Clearing(b, w', q0, blk, quad[i - 1 := 0], i - 1)
  {
  }

  /** One step of the first scan, at position i. */
  method CountOne(arr2: array<int>, q0: int, ftab: array<int>, j: int, i: int, ghost b: Block, ghost ks: seq<int>,
    ghost blk: seq<Byte>, ghost quad: seq<int>)
    returns (j': int, ghost quad': seq<int>)
    requires arr2 != ftab && 0 <= i < |b| && ks == Keys(b)
    requires Clearing(b, arr2[..], q0, blk, quad, i + 1) && Counted(ftab[..], ks, i + 1)
    requires 0 <= j < 65536 && j / 256 == Ch(b, i, 1)
    modifies arr2, ftab
    ensures Clearing(b, arr2[..], q0, blk, quad', i) && Counted(ftab[..], ks, i)
    ensures 0 <= j' < 65536 && j' / 256 == Ch(b, i - 1, 1)
  {
    hide Clearing, Counted, Shows, KeyOf, Keys, Ch, Roll;
    ghost var w := arr2[..];
    ClearingAt(b, w, q0, blk, quad, i + 1);
    ShownSize(w, q0, blk, quad);
    SetQuadrant(arr2, q0, i, 0, blk, quad);
    ClearingNext(b, w, arr2[..], q0, blk, quad, i + 1);
    quad' := quad[i := 0];
    ShownByte(arr2[..], q0, blk, quad', i);
    ClearingByte(b, w, q0, blk, quad, i);
    BlockAt(b, i);
    RollsOn(b, i, j);
    j' := Roll(j, BlockByte(arr2, i));
    KeysAreKeys(b);
    KeysAt(b, i);
    ghost var t := ftab[..];
    CountedSize(t, ks, i + 1);
    CountedNext(t, ks, i);
    ftab[j'] := ftab[j'] + 1;
    assert ftab[..] == t[j' := t[j'] + 1];
  }

  lemma {:induction false} KeysAt(b: Block, i: int)
    requires 0 <= i < |b|
    ensures |Keys(b)| == |b| && Keys(b)[i] == KeyOf(b, i) && 0 <= KeyOf(b, i) < 65536
  {
  }

  lemma {:induction false} CountedSize(t: seq<int>, ks: seq<int>, i: nat)
    requires i <= |ks| && Counted(t, ks, i)
    ensures |t| >= 65537
  {
  }

  lemma {:induction false} ShownSize(w: seq<int>, q0: int, blk: seq<Byte>, quad: seq<int>)
    requires Shows(w, q0, blk, quad)
    ensures |blk| == |quad| <= 4 * |w|
  {
  }

  lemma {:induction false} ShownByte(w: seq<int>, q0: int, blk: seq<Byte>, quad: seq<int>, k: int)
    requires Shows(w, q0, blk, quad) && 0 <= k < |blk|
    ensures k < 4 * |w| && ByteAt(w, k) == blk[k]
  {
  }

  lemma {:induction false} ClearingByte(b: Block, w: seq<int>, q0: int, blk: seq<Byte>, quad: seq<int>, k: int)
    requires Clearing(b, w, q0, blk, quad, k + 1) && 0 <= k < |b|
    ensures k < |blk| && blk[k] == b[k]
  {
  }

  method ClearTable(ftab: array<int>)
    requires ftab.Length >= 65537
    modifies ftab
    ensures forall c | 0 <= c <= 65536 :: ftab[c] == 0
  {
    for i := 65537 downto 0
      invariant forall c | i <= c <= 65536 :: ftab[c] == 0
    {
      ftab[i] := 0;
    }
  }

  /**
   * The first scan: clears the quadrants and counts the pairs of bytes, from the last position to the first, four at a
   * time.
   */
  method CountPairs(arr2: array<int>, q0: int, ftab: array<int>, nblock: int, ghost b: Block, ghost ks: seq<int>,
    ghost blk: seq<Byte>, ghost quad0: seq<int>)
    returns (ghost quad: seq<int>)
    requires arr2 != ftab && nblock == |b| && ks == Keys(b) && ftab.Length >= 65537
    requires Clearing(b, arr2[..], q0, blk, quad0, nblock)
    modifies arr2, ftab
    ensures Clearing(b, arr2[..], q0, blk, quad, 0) && Counted(ftab[..], ks, 0)
  {
    hide Clearing, Counted, Shows, KeyOf, Keys, Ch;
    ClearTable(ftab);
    KeysSize(b);
    CountedNone(ftab[..], ks);
    quad := quad0;
    ClearingAt(b, arr2[..], q0, blk, quad, nblock);
    BlockStart(b, arr2[..], q0, blk, quad);
    var j := BlockByte(arr2, 0) * 256;
    RollStarts(b);
    var i := nblock - 1;
    while i >= 3
      invariant -1 <= i < nblock
      invariant Clearing(b, arr2[..], q0, blk, quad, i + 1) && Counted(ftab[..], ks, i + 1)
      invariant 0 <= j < 65536 && j / 256 == Ch(b, i, 1)
    {
      j, quad := CountOne(arr2, q0, ftab, j, i, b, ks, blk, quad);
      j, quad := CountOne(arr2, q0, ftab, j, i - 1, b, ks, blk, quad);
      j, quad := CountOne(arr2, q0, ftab, j, i - 2, b, ks, blk, quad);
      j, quad := CountOne(arr2, q0, ftab, j, i - 3, b, ks, blk, quad);
      i := i - 4;
    }
    while i >= 0
      invariant -1 <= i < nblock
      invariant Clearing(b, arr2[..], q0, blk, quad, i + 1) && Counted(ftab[..], ks, i + 1)
      invariant 0 <= j < 65536 && j / 256 == Ch(b, i, 1)
    {
      j, quad := CountOne(arr2, q0, ftab, j, i, b, ks, blk, quad);
      i := i - 1;
    }
  }

  lemma {:induction false} KeysSize(b: Block)
    ensures |Keys(b)| == |b|
  {
  }

  lemma {:induction false} BlockStart(b: Block, w: seq<int>, q0: int, blk: seq<Byte>, quad: seq<int>)
    requires Clearing(b, w, q0, blk, quad, |b|)
    ensures |w| > 0 && ByteAt(w, 0) == b[0]
  {
  }

  /** The first i bytes copied behind the block, with quadrants cleared. */
  ghost predicate Overshooting(b: Block, w: seq<int>, q0: int, blk: seq<Byte>, quad: seq<int>, i: int) {
    && Clearing(b, w, q0, blk, quad, 0) && 0 <= i <= N_OVERSHOOT < |b|
    && (forall k | |b| <= k < |b| + i :: blk[k] == b[k - |b|] && quad[k] == 0)
  }

  lemma {:induction false} OvershootNext(b: Block, w: seq<int>, w': seq<int>, q0: int, blk: seq<Byte>, quad: seq<int>,
    i: int)
    requires Overshooting(b, w, q0, blk, quad, i) && i < N_OVERSHOOT && |blk| == |quad| == |b| + N_OVERSHOOT
    requires Shows(w', q0, blk[|b| + i := b[i]], quad[|b| + i := 0])
    ensures Overshooting(b, w', q0, blk[|b| + i := b[i]], quad[|b| + i := 0], i + 1)
  {
  }

  /** Afterwards the words hold the block with its overshoot, and no rank is known. */
  lemma {:induction false} OvershootDone(b: Block, w: seq<int>, q0: int, blk: seq<Byte>, quad: seq<int>)
    requires Overshooting(b, w, q0, blk, quad, N_OVERSHOOT)
    ensures Ready(b, w, q0, quad) && |b| > N_OVERSHOOT && |quad| == |b| + N_OVERSHOOT &&
      forall k | 0 <= k < |quad| :: quad[k] == 0
  {
    assert blk == Extended(b);
  }

  method CopyOvershoot(arr2: array<int>, q0: int, nblock: int, ghost b: Block, ghost blk0: seq<Byte>,
    ghost quad0: seq<int>)
    returns (ghost quad: seq<int>)
    requires nblock == |b| > N_OVERSHOOT && Clearing(b, arr2[..], q0, blk0, quad0, 0)
    modifies arr2
    ensures Ready(b, arr2[..], q0, quad) && |quad| == |b| + N_OVERSHOOT && forall k | 0 <= k < |quad| :: quad[k] == 0
  {
    hide Clearing, Shows, Ready;
    ghost var blk: seq<Byte> := blk0;
    quad := quad0;
    for i := 0 to N_OVERSHOOT
      invariant Overshooting(b, arr2[..], q0, blk, quad, i)
    {
      hide Overshooting;
      ghost var w := arr2[..];
      OvershootAt(b, w, q0, blk, quad, i);
      SetBlockByte(arr2, q0, nblock + i, BlockByte(arr2, i), blk, quad);
      SetQuadrant(arr2, q0, nblock + i, 0, blk[nblock + i := b[i]], quad);
      OvershootNext(b, w, arr2[..], q0, blk, quad, i);
      blk, quad := blk[nblock + i := b[i]], quad[nblock + i := 0];
    }
    OvershootDone(b, arr2[..], q0, blk, quad);
  }

  lemma {:induction false} OvershootAt(b: Block, w: seq<int>, q0: int, blk: seq<Byte>, quad: seq<int>, i: int)
    requires Overshooting(b, w, q0, blk, quad, i) && i < N_OVERSHOOT
    ensures Shows(w, q0, blk, quad) && |blk| == |quad| == |b| + N_OVERSHOOT && |blk| <= 4 * |w| && ByteAt(w, i) == b[i]
  {
  }

  // ---- filling the buckets

  /** Running totals: where each bucket ends. */
  method Totals(ftab: array<int>, ghost ks: seq<int>)
    requires Counted(ftab[..], ks, 0) && AreKeys(ks)
    modifies ftab
    ensures ftab.Length >= 65537 && forall c | 0 <= c <= 65536 :: ftab[c] == Start(ks, c + 1)
  {
    FromCounts(ftab[..], ks);
    for i := 1 to 65537
      invariant forall c | 0 <= c < i :: ftab[c] == Start(ks, c + 1)
      invariant forall c | i <= c <= 65536 :: ftab[c] == Count(ks, c, |ks|)
    {
      BelowStep(ks, i, |ks|);
      ftab[i] := ftab[i] + ftab[i - 1];
    }
  }

  lemma {:induction false} FromCounts(t: seq<int>, ks: seq<int>)
    requires Counted(t, ks, 0) && AreKeys(ks)
    ensures |t| >= 65537 && (forall c | 0 <= c <= 65536 :: t[c] == Count(ks, c, |ks|)) && t[0] == Start(ks, 1)
  {
    StartEnds(ks);
    BelowStep(ks, 0, |ks|);
  }

  /** The positions from i on are in their slots, and ftab has each bucket's place for the next one, from its top. */
  ghost predicate Filling(f: seq<int>, t: seq<int>, ks: seq<int>, i: nat)
    requires i <= |ks|
  {
    && |f| >= |ks| && |t| >= 65537
    && (forall c | 0 <= c <= 65536 :: t[c] == Fill(ks, c, i))
    && (forall x | i <= x < |ks| :: 0 <= Slot(ks, x) < |ks| && f[Slot(ks, x)] == x)
  }

  lemma {:induction false} FillingNone(f: seq<int>, t: seq<int>, ks: seq<int>)
    requires AreKeys(ks) && |f| >= |ks| && |t| >= 65537 && forall c | 0 <= c <= 65536 :: t[c] == Start(ks, c + 1)
    ensures Filling(f, t, ks, |ks|)
  {
    forall c | 0 <= c <= 65536 ensures t[c] == Fill(ks, c, |ks|) { BelowStep(ks, c, |ks|); }
  }

  lemma {:induction false} FillingNext(f: seq<int>, t: seq<int>, ks: seq<int>, i: nat)
    requires i < |ks| && AreKeys(ks) && Filling(f, t, ks, i + 1)
    ensures 0 <= ks[i] < 65536 && |t| >= 65537 && |ks| <= |f| && 0 <= t[ks[i]] - 1 < |ks|
    ensures Filling(f[t[ks[i]] - 1 := i], t[ks[i] := t[ks[i]] - 1], ks, i)
  {
    FillStep(ks, i);
    hide Slot, Fill;
    var k, s := ks[i], Slot(ks, i);
    assert t[k] - 1 == s;
    forall x | i < x < |ks| ensures Slot(ks, x) != s { SlotInjective(ks, x, i); }
  }

  /** One step of the filling scan. */
  method FillOne(ptr: array<int>, arr2: array<int>, ftab: array<int>, j: int, i: int, ghost b: Block,
    ghost ks: seq<int>, ghost q0: int, ghost quad: seq<int>)
    returns (j': int)
    requires ptr != arr2 && ptr != ftab && arr2 != ftab && 0 <= i < |b| && ks == Keys(b)
    requires Ready(b, arr2[..], q0, quad) && Filling(ptr[..], ftab[..], ks, i + 1)
    requires 0 <= j < 65536 && j / 256 == Ch(b, i, 1)
    modifies ptr, ftab
    ensures Filling(ptr[..], ftab[..], ks, i)
    ensures 0 <= j' < 65536 && j' / 256 == Ch(b, i - 1, 1)
  {
    hide Ready, Filling, KeyOf, Keys, Ch, Roll;
    ghost var f, t := ptr[..], ftab[..];
    ReadyAt(b, arr2[..], q0, quad, i);
    RollsOn(b, i, j);
    j' := Roll(j, BlockByte(arr2, i));
    KeysAreKeys(b);
    KeysAt(b, i);
    FillingNext(f, t, ks, i);
    var k := ftab[j'] - 1;
    ftab[j'] := k;
    ptr[k] := i;
    assert ftab[..] == t[j' := k] && ptr[..] == f[k := i];
  }

  method FillPointers(ptr: array<int>, arr2: array<int>, ftab: array<int>, nblock: int, ghost b: Block,
    ghost ks: seq<int>, ghost q0: int, ghost quad: seq<int>)
    requires ptr != arr2 && ptr != ftab && arr2 != ftab && nblock == |b| && ks == Keys(b)
    requires Ready(b, arr2[..], q0, quad) && Filling(ptr[..], ftab[..], ks, |ks|)
    modifies ptr, ftab
    ensures Filling(ptr[..], ftab[..], ks, 0)
  {
    hide Filling, Ready, KeyOf, Keys, Ch;
    KeysSize(b);
    ReadyAt(b, arr2[..], q0, quad, 0);
    BlockAt(b, 0);
    RollStarts(b);
    var j := BlockByte(arr2, 0) * 256;
    var i := nblock - 1;
    while i >= 3
      invariant -1 <= i < nblock && Filling(ptr[..], ftab[..], ks, i + 1)
      invariant 0 <= j < 65536 && j / 256 == Ch(b, i, 1)
    {
      j := FillOne(ptr, arr2, ftab, j, i, b, ks, q0, quad);
      j := FillOne(ptr, arr2, ftab, j, i - 1, b, ks, q0, quad);
      j := FillOne(ptr, arr2, ftab, j, i - 2, b, ks, q0, quad);
      j := FillOne(ptr, arr2, ftab, j, i - 3, b, ks, q0, quad);
      i := i - 4;
    }
    while i >= 0
      invariant -1 <= i < nblock && Filling(ptr[..], ftab[..], ks, i + 1)
      invariant 0 <= j < 65536 && j / 256 == Ch(b, i, 1)
    {
      j := FillOne(ptr, arr2, ftab, j, i, b, ks, q0, quad);
      i := i - 1;
    }
  }

  // ---- the buckets

  /** Position y holds a rotation whose key's bucket is the one y lies in. */
  ghost predicate InBucket(f: seq<int>, ks: seq<int>, y: int)
    requires 0 <= y < |f|
  {
    0 <= f[y] < |ks| && Start(ks, ks[f[y]]) <= y < Start(ks, ks[f[y]] + 1)
  }

  /** Every rotation is once in f, in the bucket of its first two bytes. */
  ghost predicate Bucketed(f: seq<int>, ks: seq<int>) {
    IsPerm(f, |ks|) && forall y | 0 <= y < |ks| :: InBucket(f, ks, y)
  }

  lemma {:induction false} FilledBuckets(f: seq<int>, t: seq<int>, ks: seq<int>)
    requires Filling(f, t, ks, 0)
    ensures Bucketed(f[..|ks|], ks) && forall c | 0 <= c <= 65536 :: t[c] == Start(ks, c)
  {
    var g := f[..|ks|];
    forall y | 0 <= y < |ks| ensures 0 <= g[y] < |ks| && Slot(ks, g[y]) == y && InBucket(g, ks, y) {
      SlotOnto(ks, y);
      var x :| 0 <= x < |ks| && Slot(ks, x) == y;
      SlotInBucket(ks, x);
    }
  }

  /** The two-byte radix sort: afterwards ftab has the start of each bucket. */
  method RadixSort(ptr: array<int>, arr2: array<int>, q0: int, ftab: array<int>, nblock: int, ghost b: Block,
    ghost ks: seq<int>, ghost blk: seq<Byte>, ghost quad0: seq<int>)
    returns (ghost quad: seq<int>)
    requires ptr != arr2 && ptr != ftab && arr2 != ftab && ftab.Length >= 65537 && ptr.Length >= nblock
    requires nblock == |b| > N_OVERSHOOT && ks == Keys(b)
    requires Clearing(b, arr2[..], q0, blk, quad0, nblock)
    modifies ptr, arr2, ftab
    ensures Ready(b, arr2[..], q0, quad) && |quad| == |b| + N_OVERSHOOT && forall k | 0 <= k < |quad| :: quad[k] == 0
    ensures Bucketed(ptr[..nblock], ks) && forall c | 0 <= c <= 65536 :: ftab[c] == Start(ks, c)
  {
    hide Clearing, Counted, Ready, Filling, Bucketed, Keys, Start;
    KeysSize(b);
    KeysAreKeys(b);
    quad := CountPairs(arr2, q0, ftab, nblock, b, ks, blk, quad0);
    quad := CopyOvershoot(arr2, q0, nblock, b, blk, quad);
    Totals(ftab, ks);
    FillingNone(ptr[..], ftab[..], ks);
    FillPointers(ptr, arr2, ftab, nblock, b, ks, q0, quad);
    FilledBuckets(ptr[..], ftab[..], ks);
  }
}
