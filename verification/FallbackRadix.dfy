/** The one-byte radix sort that starts the fallback block sorter. */
module FallbackRadix {
  import opened Bits
  import opened Rotations
  import opened InverseBwt
  import opened Counting
  import opened ByteView
  import opened FallbackQSort
  import opened BucketRefinement

  /** Buckets are filled from their top end, so position i of b lands here. */
  function TopSlot(b: Block, i: nat): int
    requires i < |b|
  {
    Below(b, b[i] as int + 1, |b|) - 1 - Count(b, b[i], i)
  }

  lemma {:induction false} TopSlotInBucket(b: Block, i: nat)
    requires i < |b|
    ensures 0 <= Below(b, b[i], |b|) <= TopSlot(b, i) < Below(b, b[i] as int + 1, |b|) <= |b|
  {
    BelowStep(b, b[i], |b|);
    CountMono(b, b[i], i + 1, |b|);
  }

  lemma {:induction false} TopSlotInjective(b: Block, i: nat, j: nat)
    requires i < j < |b|
    ensures TopSlot(b, i) != TopSlot(b, j)
  {
    TopSlotInBucket(b, i);
    TopSlotInBucket(b, j);
    if b[i] < b[j] {
      BelowMono(b, b[i] as int + 1, b[j], |b|);
    } else if b[j] < b[i] {
      BelowMono(b, b[j] as int + 1, b[i], |b|);
    } else {
      CountMono(b, b[i], i + 1, j);
    }
  }

  ghost function TopSlots(b: Block): (r: seq<int>)
    ensures |r| == |b| && forall i | 0 <= i < |b| :: r[i] == TopSlot(b, i)
  {
    seq(|b|, i requires 0 <= i < |b| => TopSlot(b, i))
  }

  lemma {:induction false} TopSlotsPerm(b: Block)
    ensures IsPerm(TopSlots(b), |b|)
  {
    forall i | 0 <= i < |b| ensures 0 <= TopSlot(b, i) < |b| { TopSlotInBucket(b, i); }
    forall i, j | 0 <= i < j < |b| ensures TopSlot(b, i) != TopSlot(b, j) { TopSlotInjective(b, i, j); }
  }

  /** f is the first i positions of b, each in its slot. */
  ghost predicate Filled(b: Block, f: seq<int>, i: nat)
    requires i <= |b|
  {
    |f| == |b| && forall j | 0 <= j < i :: 0 <= TopSlot(b, j) < |b| && f[TopSlot(b, j)] == j
  }

  lemma {:induction false} FillNext(b: Block, f: seq<int>, i: nat)
    requires i < |b| && Filled(b, f, i)
    ensures 0 <= TopSlot(b, i) < |b| && Filled(b, f[TopSlot(b, i) := i], i + 1)
  {
    TopSlotInBucket(b, i);
    forall j | 0 <= j < i ensures TopSlot(b, j) != TopSlot(b, i) { TopSlotInjective(b, j, i); }
  }

  lemma {:induction false} FilledAt(b: Block, f: seq<int>, y: int)
    requires Filled(b, f, |b|) && 0 <= y < |b|
    ensures 0 <= f[y] < |b| && TopSlot(b, f[y]) == y
  {
    TopSlotsPerm(b);
    Surjective(TopSlots(b), |b|, y);
    var j :| 0 <= j < |b| && TopSlots(b)[j] == y;
    assert f[TopSlot(b, j)] == j;
  }

  lemma {:induction false} FilledPerm(b: Block, f: seq<int>)
    requires Filled(b, f, |b|)
    ensures IsPerm(f, |b|)
  {
    forall y | 0 <= y < |b| ensures 0 <= f[y] < |b| && TopSlot(b, f[y]) == y { FilledAt(b, f, y); }
  }

  /** A position of the radix order lies in the bucket of its first byte. */
  lemma {:induction false} FilledBucket(b: Block, f: seq<int>, y: int)
    requires Filled(b, f, |b|) && 0 <= y < |b|
    ensures 0 <= f[y] < |b| && Below(b, b[f[y]], |b|) <= y < Below(b, b[f[y]] as int + 1, |b|)
  {
    FilledAt(b, f, y);
    TopSlotInBucket(b, f[y]);
  }

  lemma {:induction false} FirstByteOrder(b: Block, f: seq<int>, x: int, y: int)
    requires Filled(b, f, |b|) && 0 <= x < y < |b|
    ensures 0 <= f[x] < |b| && 0 <= f[y] < |b| && b[f[x]] <= b[f[y]]
  {
    FilledBucket(b, f, x);
    FilledBucket(b, f, y);
    if b[f[y]] < b[f[x]] { BelowMono(b, b[f[y]] as int + 1, b[f[x]], |b|); }
  }

  lemma {:induction false} FirstByte(b: Block, i: int, j: int)
    requires 0 <= i < |b| && 0 <= j < |b|
    ensures Agree(b, i, j, 1) <==> b[i] == b[j]
    ensures b[i] <= b[j] ==> LessEq(b, i, j, 1)
  {
    DivModUnique(i, |b|, 0, i);
    DivModUnique(j, |b|, 0, j);
    assert Ch(b, i, 0) == b[i] && Ch(b, j, 0) == b[j];
    if b[i] < b[j] { assert LessAt(b, i, j, 0); }
  }

  ghost predicate BucketStart(b: Block, z: int) {
    exists c {:trigger Below(b, c, |b|)} | 0 <= c < 256 :: Below(b, c, |b|) == z
  }

  lemma {:induction false} StartsWhereByteChanges(b: Block, f: seq<int>, x: int)
    requires Filled(b, f, |b|) && 1 <= x < |b|
    ensures 0 <= f[x - 1] < |b| && 0 <= f[x] < |b|
    ensures BucketStart(b, x) <==> b[f[x - 1]] != b[f[x]]
  {
    FirstByteOrder(b, f, x - 1, x);
    FilledBucket(b, f, x - 1);
    FilledBucket(b, f, x);
    var c0, c1 := b[f[x - 1]], b[f[x]];
    if c0 != c1 {
      BelowMono(b, c0 as int + 1, c1, |b|);
      assert Below(b, c1, |b|) == x;
    }
    if BucketStart(b, x) && c0 == c1 {
      var c :| 0 <= c < 256 && Below(b, c, |b|) == x;
      if c <= c0 { BelowMono(b, c, c0, |b|); } else { BelowMono(b, c0 as int + 1, c, |b|); }
    }
  }

  /** With a header at the start of each bucket the radix order delimits the classes on one byte. */
  lemma {:induction false} RadixClasses(b: Block, f: seq<int>, hd: seq<bool>)
    requires Filled(b, f, |b|) && |hd| > |b|
    requires forall z | 0 <= z < |b| :: hd[z] <==> BucketStart(b, z)
    ensures Classes(b, f, hd, 1)
  {
    FilledPerm(b, f);
    BelowEnds(b, |b|);
    assert BucketStart(b, 0);
    forall x, y | 0 <= x < y < |b| ensures LessEq(b, f[x], f[y], Depth(1, -1, y)) {
      FirstByteOrder(b, f, x, y);
      FirstByte(b, f[x], f[y]);
    }
    forall x | 1 <= x < |b| ensures hd[x] <==> !Agree(b, f[x - 1], f[x], Depth(1, -1, x)) {
      StartsWhereByteChanges(b, f, x);
      FirstByte(b, f[x - 1], f[x]);
    }
  }

  /** How often each byte occurs. */
  method CountBytes(eclass: array<int>, ftab: array<int>, nblock: int, ghost b: Block)
    requires eclass != ftab && ftab.Length == 257
    requires nblock == |b| <= 4 * eclass.Length && BytesOf(eclass[..], nblock) == b
    modifies ftab
    ensures forall c | 0 <= c < 257 :: ftab[c] == Count(b, c, |b|)
  {
    for i := 0 to 257
      invariant forall c | 0 <= c < i :: ftab[c] == 0
    {
      ftab[i] := 0;
    }
    for i := 0 to nblock
      invariant forall c | 0 <= c < 257 :: ftab[c] == Count(b, c, i)
    {
      var c := ReadByte(eclass, i);
      assert c == BytesOf(eclass[..], nblock)[i];
      ftab[c] := ftab[c] + 1;
    }
  }

  /** Running totals: where each bucket ends. */
  method Accumulate(ftab: array<int>, ghost b: Block)
    requires ftab.Length == 257 && forall c | 0 <= c < 257 :: ftab[c] == Count(b, c, |b|)
    modifies ftab
    ensures forall c | 0 <= c < 257 :: ftab[c] == Below(b, c + 1, |b|)
  {
    BelowEnds(b, |b|);
    BelowStep(b, 0, |b|);
    for i := 1 to 257
      invariant forall c | 0 <= c < i :: ftab[c] == Below(b, c + 1, |b|)
      invariant forall c | i <= c < 257 :: ftab[c] == Count(b, c, |b|)
    {
      BelowStep(b, i, |b|);
      ftab[i] := ftab[i] + ftab[i - 1];
    }
  }

  /** Puts every position in the bucket of its byte; ftab ends as the start of each bucket. */
  method FillBuckets(fmap: array<int>, eclass: array<int>, ftab: array<int>, nblock: int, ghost b: Block)
    requires fmap != eclass && ftab != fmap && ftab != eclass && ftab.Length == 257
    requires nblock == |b| <= 4 * eclass.Length && nblock <= fmap.Length && BytesOf(eclass[..], nblock) == b
    requires forall c | 0 <= c < 257 :: ftab[c] == Below(b, c + 1, |b|)
    modifies fmap, ftab
    ensures Filled(b, fmap[..nblock], |b|)
    ensures forall c | 0 <= c < 256 :: ftab[c] == Below(b, c, |b|)
  {
    for i := 0 to nblock
      invariant Filled(b, fmap[..nblock], i)
      invariant forall c | 0 <= c < 256 :: ftab[c] == Below(b, c + 1, |b|) - Count(b, c, i)
    {
      ghost var f := fmap[..nblock];
      FillNext(b, f, i);
      var j := ReadByte(eclass, i);
      assert j == BytesOf(eclass[..], nblock)[i];
      var k := ftab[j] - 1;
      ftab[j] := k;
      fmap[k] := i;
      assert fmap[..nblock] == f[k := i];
    }
    forall c | 0 <= c < 256 ensures ftab[c] == Below(b, c, |b|) { BelowStep(b, c, |b|); }
  }
}
