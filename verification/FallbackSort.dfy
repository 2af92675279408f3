/**
 * The fallback block sorter: an exponential radix sort of all rotations of the block. The
 * block itself lives in the bytes of eclass, which the sort overwrites and then rebuilds.
 */
module FallbackSort {
  import opened Bits
  import opened Rotations
  import opened InverseBwt
  import opened Counting
  import opened ByteView
  import opened BucketHeaders
  import opened FallbackQSort
  import opened BucketRefinement
  import opened FallbackRadix

  /** The header bits that matter: one for each position and the sentinel behind the block. */
  ghost function Marks(w: seq<int>, n: nat): (r: seq<bool>)
    requires IsTable(w) && n < 32 * |w|
    ensures |r| == n + 1
  {
    Headers(w, n + 1)
  }

  /** Sentinels: after the block a set bit, then a clear one. */
  ghost predicate Sentinels(w: seq<int>, n: nat)
    requires IsTable(w)
  {
    n + 1 < 32 * |w| && Header(w, n) && !Header(w, n + 1)
  }

  lemma {:induction false} PrefixRearranged(f: seq<int>, g: seq<int>, n: nat, lo: int, hi: int)
    requires Rearranged(f, g, lo, hi) && 0 <= lo <= hi < n <= |f|
    ensures Rearranged(f[..n], g[..n], lo, hi)
  {
    assert f == [] + f[..n] + f[n..] && g == [] + g[..n] + g[n..];
    assert f[n..] == g[n..];
    CancelMiddle([], f[..n], g[..n], f[n..]);
  }

  lemma {:induction false} ClearedWord(w: seq<int>, i: int)
    requires IsTable(w) && 0 <= i < |w|
    ensures IsTable(w[i := 0])
  {
  }

  /** z is the start of the bucket of one of the bytes less than k. */
  ghost predicate StartBelow(b: Block, z: int, k: int) {
    exists c {:trigger Below(b, c, |b|)} | 0 <= c < k :: Below(b, c, |b|) == z
  }

  /** Clears the header table, marks the bucket starts and sets the sentinels. */
  method InitHeaders(bhtab: array<int>, ftab: array<int>, nblock: int, ghost b: Block)
    requires bhtab != ftab && ftab.Length == 257 && nblock == |b| && IsTable(bhtab[..])
    requires 3 + nblock / 32 <= bhtab.Length
    requires forall c | 0 <= c < 256 :: ftab[c] == Below(b, c, |b|)
    modifies bhtab
    ensures IsTable(bhtab[..]) && Sentinels(bhtab[..], |b|)
    ensures forall z | 0 <= z < |b| :: Header(bhtab[..], z) <==> BucketStart(b, z)
  {
    var nBhtab := 2 + nblock / 32;
    for i := 0 to nBhtab
      invariant IsTable(bhtab[..]) && forall k | 0 <= k < i :: bhtab[k] == 0
    {
      ghost var w := bhtab[..];
      ClearedWord(w, i);
      bhtab[i] := 0;
      assert bhtab[..] == w[i := 0];
    }
    forall z | 0 <= z < |b| ensures !Header(bhtab[..], z) { BitZero(z % 32); }
    for i := 0 to 256
      invariant IsTable(bhtab[..])
      invariant forall z | 0 <= z < |b| :: Header(bhtab[..], z) <==> StartBelow(b, z, i)
    {
      ghost var w := bhtab[..];
      Set(bhtab, ftab[i]);
      forall z | 0 <= z < |b| ensures Header(bhtab[..], z) <==> StartBelow(b, z, i + 1) {
        assert StartBelow(b, z, i + 1) <==> (StartBelow(b, z, i) || z == Below(b, i, |b|));
      }
    }
    for i := 0 to 32
      invariant IsTable(bhtab[..])
      invariant forall z | 0 <= z < |b| :: Header(bhtab[..], z) <==> BucketStart(b, z)
      invariant i > 0 ==> Sentinels(bhtab[..], |b|)
    {
      Set(bhtab, nblock + 2 * i);
      Clear(bhtab, nblock + 2 * i + 1);
    }
  }

  /** The rotations at the first i positions, h bytes back, are numbered with their classes. */
  ghost predicate Numbered(f: seq<int>, hd: seq<bool>, e: seq<int>, h: nat, i: nat)
    requires i <= |f| < |hd|
  {
    && (forall v | 0 <= v < |f| :: 0 <= Back(v, h, |f|) < |e|)
    && (forall x | 0 <= x < i :: 0 <= f[x] < |f|)
    && (forall x {:trigger f[x]} | 0 <= x < i :: e[Back(f[x], h, |f|)] == Start(hd, x))
  }

  lemma {:induction false} NumberNext(f: seq<int>, hd: seq<bool>, e: seq<int>, h: nat, i: nat)
    requires IsPerm(f, |f|) && i < |f| < |hd| && h <= |f| <= |e| && Numbered(f, hd, e, h, i)
    ensures 0 <= Back(f[i], h, |f|) < |f|
    ensures Numbered(f, hd, e[Back(f[i], h, |f|) := Start(hd, i)], h, i + 1)
  {
  }

  lemma {:induction false} NoneNumbered(b: Block, f: seq<int>, hd: seq<bool>, e: seq<int>, h: nat)
    requires Classes(b, f, hd, h) && h <= |b| <= |e|
    ensures IsPerm(f, |b|) && Numbered(f, hd, e, h, 0)
  {
  }

  lemma {:induction false} StartStep(hd: seq<bool>, i: nat)
    requires i < |hd|
    ensures Start(hd, i) == if i == 0 || hd[i] then i else Start(hd, i - 1)
  {
  }

  lemma {:induction false} AllNumbered(b: Block, f: seq<int>, hd: seq<bool>, e: seq<int>, h: nat)
    requires Classes(b, f, hd, h) && h <= |b| <= |e| && Numbered(f, hd, e, h, |f|)
    ensures Ranks(b, e, h) && forall i | 0 <= i < |b| :: 0 <= e[i] < |b|
  {
    RanksFromClasses(b, f, hd, e, h);
    forall i | 0 <= i < |b| ensures 0 <= e[i] < |b| {
      var x := AtRank(b, f, h, i);
    }
  }

  /** Numbers every rotation with the class of the rotation H bytes further on. */
  method ComputeRanks(fmap: array<int>, eclass: array<int>, bhtab: array<int>, H: int, nblock: int, ghost b: Block)
    requires fmap != eclass && bhtab != eclass
    requires nblock == |b| <= eclass.Length && nblock <= fmap.Length && IsTable(bhtab[..]) && nblock < 32 * bhtab.Length
    requires 0 <= H <= nblock && Classes(b, fmap[..nblock], Marks(bhtab[..], nblock), H)
    modifies eclass
    ensures Ranks(b, eclass[..], H) && forall i | 0 <= i < nblock :: 0 <= eclass[i] < nblock
  {
    hide Numbered, Classes, Refined, Start, IsPerm, Ranks, Back;
    ghost var f, hd := fmap[..nblock], Marks(bhtab[..], nblock);
    NoneNumbered(b, f, hd, eclass[..], H);
    var j := 0;
    for i := 0 to nblock
      invariant (i == 0 ==> j == 0) && (i > 0 ==> j == Start(hd, i - 1))
      invariant Numbered(f, hd, eclass[..], H, i)
    {
      ghost var e := eclass[..];
      var isset := IsSet(bhtab, i);
      assert isset == hd[i];
      if isset { j := i; }
      StartStep(hd, i);
      NumberNext(f, hd, e, H, i);
      var k := fmap[i] - H;
      if k < 0 { k := k + nblock; }
      assert k == Back(f[i], H, nblock) by { BackIs(f[i], H, nblock); }
      eclass[k] := j;
      assert eclass[..] == e[k := j];
    }
    AllNumbered(b, f, hd, eclass[..], H);
  }

  lemma {:induction false} BackIs(v: int, h: nat, n: nat)
    ensures Back(v, h, n) == if v - h < 0 then v - h + n else v - h
  {
  }

  /** A class that starts at l has a new rank at z. */
  ghost predicate NewRank(f: seq<int>, e: seq<int>, l: int, z: int)
    requires 0 <= l <= z < |f|
  {
    z == l || Key(f, e, z - 1) != Key(f, e, z)
  }

  /** Sets a header wherever the rank changes along the class l..r just sorted. */
  method MarkClass(fmap: array<int>, eclass: array<int>, bhtab: array<int>, l: int, r: int)
    requires fmap != bhtab && eclass != bhtab && IsTable(bhtab[..]) && 0 <= l <= r < 32 * bhtab.Length
    requires InRange(fmap[..], eclass[..], l, r) && forall x | l <= x <= r :: eclass[fmap[x]] >= 0
    modifies bhtab
    ensures IsTable(bhtab[..])
    ensures forall z | 0 <= z < 32 * bhtab.Length ::
              Header(bhtab[..], z) <==>
                (old(Header(bhtab[..], z)) || (l <= z <= r && NewRank(fmap[..], eclass[..], l, z)))
  {
    ghost var f, e, w := fmap[..], eclass[..], bhtab[..];
    var cc := -1;
    var i := l;
    while i <= r
      invariant l <= i <= r + 1 && IsTable(bhtab[..])
      invariant cc == if i == l then -1 else Key(f, e, i - 1)
      invariant forall z | 0 <= z < 32 * |w| ::
        Header(bhtab[..], z) <==> (Header(w, z) || (l <= z < i && NewRank(f, e, l, z)))
    {
      var cc1 := eclass[fmap[i]];
      assert cc1 == Key(f, e, i) && (cc != cc1 <==> NewRank(f, e, l, i));
      if cc != cc1 {
        Set(bhtab, i);
        cc := cc1;
      }
      i := i + 1;
    }
  }

  lemma {:induction false} ClassReady(b: Block, fm: seq<int>, w: seq<int>, e: seq<int>, h: nat, l: int, r: int)
    requires IsTable(w) && |b| <= |fm| && |b| < 32 * |w| && |b| <= |e|
    requires Refined(b, fm[..|b|], Marks(w, |b|), h, l - 1) && 0 <= l <= r < |b|
    ensures InRange(fm, e, l, r) && forall x | l <= x <= r :: 0 <= fm[x] < |b|
    ensures Header(w, l)
  {
    var f := fm[..|b|];
    assert Marks(w, |b|)[l];
    forall x | l <= x <= r ensures 0 <= fm[x] < |b| { assert fm[x] == f[x]; }
  }

  lemma {:induction false} ClassDone(b: Block, fm: seq<int>, w: seq<int>, fm': seq<int>, w': seq<int>, e: seq<int>,
    l: int, r: int)
    requires IsTable(w) && IsTable(w') && |w| == |w'| && |b| <= |fm| && |b| < 32 * |w|
    requires 0 <= l <= r < |b|
    requires Rearranged(fm, fm', l, r) && InRange(fm', e, l, r) && KeysSorted(fm', e, l, r)
    requires Header(w, l) && forall z | l < z <= r :: !Header(w, z)
    requires forall z | 0 <= z < 32 * |w| :: Header(w', z) <==> (Header(w, z) || (l <= z <= r && NewRank(fm', e, l, z)))
    ensures ClassSorted(fm[..|b|], Marks(w, |b|), fm'[..|b|], Marks(w', |b|), e, |b|, l, r)
  {
    var f, f', hd, hd' := fm[..|b|], fm'[..|b|], Marks(w, |b|), Marks(w', |b|);
    PrefixRearranged(fm, fm', |b|, l, r);
    forall x | l <= x <= r ensures Key(f', e, x) == Key(fm', e, x) && 0 <= f'[x] < |e| {
      assert f'[x] == fm'[x];
    }
    forall z | l <= z <= r ensures hd'[z] <==> (z == l || Key(f', e, z - 1) != Key(f', e, z)) {
      assert hd'[z] == Header(w', z);
      assert NewRank(fm', e, l, z) <==> (z == l || Key(f', e, z - 1) != Key(f', e, z));
    }
  }

  lemma {:induction false} RanksNonNegative(b: Block, fm: seq<int>, fm': seq<int>, e: seq<int>, l: int, r: int)
    requires Rearranged(fm, fm', l, r) && 0 <= l <= r < |b| <= |fm| && |b| <= |e|
    requires forall x | l <= x <= r :: 0 <= fm[x] < |b|
    requires forall i | 0 <= i < |b| :: 0 <= e[i] < |b|
    ensures InRange(fm', e, l, r) && forall x | l <= x <= r :: e[fm'[x]] >= 0
  {
    forall x | l <= x <= r ensures 0 <= fm'[x] < |b| {
      var y := RearrangedFrom(fm, fm', l, r, x);
    }
  }

  /** Sorts and marks the class l..r, the first unrefined one. */
  method SortClass(fmap: array<int>, eclass: array<int>, bhtab: array<int>, H: int, nblock: int, l: int, r: int,
    ghost b: Block)
    requires fmap != eclass && fmap != bhtab && eclass != bhtab && H >= 0 && nblock == |b|
    requires nblock <= fmap.Length && nblock <= eclass.Length && IsTable(bhtab[..]) && Sentinels(bhtab[..], nblock)
    requires Ranks(b, eclass[..], H) && forall i | 0 <= i < nblock :: 0 <= eclass[i] < nblock
    requires 0 <= l <= r < nblock < INT32_LIMIT && Refined(b, fmap[..nblock], Marks(bhtab[..], nblock), H, l - 1)
    requires Header(bhtab[..], r + 1) && forall z | l < z <= r :: !Header(bhtab[..], z)
    modifies fmap, bhtab
    ensures IsTable(bhtab[..]) && Sentinels(bhtab[..], nblock)
    ensures Refined(b, fmap[..nblock], Marks(bhtab[..], nblock), H, r)
  {
    hide Refined, Rearranged, KeysSorted, InRange, Ranks, ClassSorted;
    ghost var fm, w, e := fmap[..], bhtab[..], eclass[..];
    ghost var f, hd := fmap[..nblock], Marks(w, nblock);
    ClassReady(b, fm, w, e, H, l, r);
    assert hd[r + 1] && forall z | l < z <= r :: !hd[z];
    FallbackQSort3(fmap, eclass, l, r);
    ghost var fm' := fmap[..];
    RanksNonNegative(b, fm, fm', e, l, r);
    MarkClass(fmap, eclass, bhtab, l, r);
    ClassDone(b, fm, w, fm', bhtab[..], e, l, r);
    RefineClass(b, f, hd, fm'[..nblock], Marks(bhtab[..], nblock), e, H, l, r);
    assert fmap[..nblock] == fm'[..nblock];
  }

  /** What the refining loop keeps: positions up to r are done; none says no class needed sorting yet. */
  ghost predicate Refining(b: Block, fm: seq<int>, w: seq<int>, h: nat, r: int, none: bool) {
    && IsTable(w) && |b| <= |fm| && Sentinels(w, |b|)
    && Refined(b, fm[..|b|], Marks(w, |b|), h, r)
    && (none ==> r == -1)
  }

  lemma {:induction false} RoundBegins(b: Block, fm: seq<int>, w: seq<int>, h: nat)
    requires IsTable(w) && |b| <= |fm| && Sentinels(w, |b|) && Classes(b, fm[..|b|], Marks(w, |b|), h)
    ensures Refining(b, fm, w, h, -1, true)
  {
  }

  lemma {:induction false} NextStart(b: Block, fm: seq<int>, w: seq<int>, h: nat, r: int, none: bool)
    requires Refining(b, fm, w, h, r, none)
    ensures -1 <= r < |b| <= |fm| && IsTable(w) && |b| + 1 < 32 * |w|
    ensures Header(w, r + 1) && Header(w, |b|) && !Header(w, |b| + 1)
  {
    assert Marks(w, |b|)[r + 1];
  }

  /** k is the first clear header bit after r: the class that starts at k - 1 is the next to sort. */
  lemma {:induction false} ClassFound(b: Block, fm: seq<int>, w: seq<int>, h: nat, r: int, none: bool, k: int)
    requires Refining(b, fm, w, h, r, none) && r + 1 < k <= |b|
    requires forall z | r < z < k :: Header(w, z)
    ensures Sentinels(w, |b|) && Refined(b, fm[..|b|], Marks(w, |b|), h, k - 2)
  {
    SkipSingletons(b, fm[..|b|], Marks(w, |b|), h, r, k - 2);
  }

  lemma {:induction false} ClassSettled(b: Block, fm: seq<int>, w: seq<int>, h: nat, r: int)
    requires IsTable(w) && |b| <= |fm| && Sentinels(w, |b|) && Refined(b, fm[..|b|], Marks(w, |b|), h, r)
    ensures Refining(b, fm, w, h, r, false)
  {
  }

  lemma {:induction false} RoundDone(b: Block, fm: seq<int>, w: seq<int>, h: nat, r: int, none: bool)
    requires Refining(b, fm, w, h, r, none) && h <= |b|
    requires forall z | r < z <= |b| :: Header(w, z)
    ensures IsTable(w) && Sentinels(w, |b|) && Classes(b, fm[..|b|], Marks(w, |b|), 2 * h)
    ensures none ==> IsRotationOrder(b, fm[..|b|])
  {
    SkipSingletons(b, fm[..|b|], Marks(w, |b|), h, r, |b| - 1);
    NextLevel(b, fm[..|b|], Marks(w, |b|), h);
    if none { AllSeparate(b, fm[..|b|], Marks(w, |b|), h); }
  }

  /**
   * The next class of more than one rotation after position r, as l..r'; l is nblock if
   * there is none. The bits behind the block stop both scans, and the class found always
   * ends within the block and has at least two members.
   */
  method FindClass(bhtab: array<int>, r: int, nblock: int) returns (l: int, r': int)
    requires IsTable(bhtab[..]) && -1 <= r < nblock && nblock + 1 < 32 * bhtab.Length
    requires Header(bhtab[..], r + 1) && Header(bhtab[..], nblock) && !Header(bhtab[..], nblock + 1)
    ensures r < l <= nblock && forall z | r < z <= l :: Header(bhtab[..], z)
    ensures l < nblock ==>
      l < r' < nblock && Header(bhtab[..], r' + 1) && forall z | l < z <= r' :: !Header(bhtab[..], z)
  {
    r' := r;
    var k := r + 1;
    k := NextClear(bhtab, k, nblock + 1);
    l := k - 1;
    if l < nblock {
      k := NextSet(bhtab, k, nblock);
      r' := k - 1;
    }
  }

  /**
   * One round: finds each class of more than one rotation and sorts it by rank. Afterwards
   * the header bits delimit exactly the classes of rotations equal on twice as many bytes.
   */
  method RefineRound(fmap: array<int>, eclass: array<int>, bhtab: array<int>, H: int, nblock: int, ghost b: Block)
    returns (nNotDone: int)
    requires fmap != eclass && fmap != bhtab && eclass != bhtab && 0 <= H <= nblock == |b| < INT32_LIMIT
    requires nblock <= fmap.Length && nblock <= eclass.Length && IsTable(bhtab[..]) && Sentinels(bhtab[..], nblock)
    requires Ranks(b, eclass[..], H) && forall i | 0 <= i < nblock :: 0 <= eclass[i] < nblock
    requires Classes(b, fmap[..nblock], Marks(bhtab[..], nblock), H)
    modifies fmap, bhtab
    ensures IsTable(bhtab[..]) && Sentinels(bhtab[..], nblock)
    ensures Classes(b, fmap[..nblock], Marks(bhtab[..], nblock), 2 * H)
    ensures nNotDone == 0 ==> IsRotationOrder(b, fmap[..nblock])
  {
    hide Refining, Refined, Classes, Ranks, IsRotationOrder, IsTable, Sentinels, Header, Marks;
    nNotDone := 0;
    var r := -1;
    RoundBegins(b, fmap[..], bhtab[..], H);
    while true
      invariant Refining(b, fmap[..], bhtab[..], H, r, nNotDone == 0) && nNotDone >= 0
      decreases nblock - r
    {
      NextStart(b, fmap[..], bhtab[..], H, r, nNotDone == 0);
      var l, r' := FindClass(bhtab, r, nblock);
      if l >= nblock {
        RoundDone(b, fmap[..], bhtab[..], H, r, nNotDone == 0);
        break;
      }
      ClassFound(b, fmap[..], bhtab[..], H, r, nNotDone == 0, l + 1);
      nNotDone := nNotDone + (r' - l + 1);
      SortClass(fmap, eclass, bhtab, H, nblock, l, r', b);
      r := r';
      ClassSettled(b, fmap[..], bhtab[..], H, r);
    }
  }

  // ---- rebuilding the block

  lemma {:induction false} FirstBytesSorted(b: Block, f: seq<int>, x: int, y: int)
    requires IsRotationOrder(b, f) && 0 <= x < y < |b|
    ensures 0 <= f[x] < |b| && 0 <= f[y] < |b| && b[f[x]] <= b[f[y]]
  {
    assert LessEq(b, f[x], f[y], |b|);
    DivModUnique(f[x], |b|, 0, f[x]);
    DivModUnique(f[y], |b|, 0, f[y]);
    assert Ch(b, f[x], 0) == b[f[x]] && Ch(b, f[y], 0) == b[f[y]];
  }

  /** The smallest byte with any occurrence left is the first byte of the next rotation. */
  lemma {:induction false} NextByte(b: Block, f: seq<int>, i: nat)
    requires IsRotationOrder(b, f) && i < |b|
    ensures 0 <= f[i] < |b|
    ensures Count(Reordered(b, f), b[f[i]], i) < Count(b, b[f[i]], |b|)
    ensures forall c | 0 <= c < b[f[i]] :: Count(Reordered(b, f), c, i) == Count(b, c, |b|)
    ensures forall c :: Count(Reordered(b, f), c, i + 1) == Count(Reordered(b, f), c, i) + if c == b[f[i]] then 1 else 0
    ensures i + 1 < |b| ==> 0 <= f[i + 1] < |b| && b[f[i]] <= b[f[i + 1]]
  {
    if i + 1 < |b| { FirstBytesSorted(b, f, i, i + 1); }
    var g := Reordered(b, f);
    CountReordered(b, f, g[i]);
    CountMono(g, g[i], i + 1, |b|);
    forall c | 0 <= c < g[i] ensures Count(g, c, i) == Count(b, c, |b|) {
      forall x | i <= x < |b| ensures g[x] != c {
        if x > i { FirstBytesSorted(b, f, i, x); }
      }
      CountAbsent(g, c, i, |b|);
      CountReordered(b, f, c);
    }
  }

  lemma {:induction false} CountNone(s: seq<Byte>)
    ensures forall c :: Count(s, c, 0) == 0
  {
  }

  method SkipUsedUp(ftabCopy: array<int>, j0: int, ghost stop: int) returns (j: int)
    requires 0 <= j0 <= stop < ftabCopy.Length && ftabCopy[stop] != 0
    requires forall c | 0 <= c < stop :: ftabCopy[c] == 0
    ensures j == stop
  {
    j := j0;
    while ftabCopy[j] == 0
      invariant j0 <= j <= stop
      decreases stop - j
    {
      j := j + 1;
    }
  }

  lemma {:induction false} OrderReads(b: Block, f: seq<int>)
    requires IsRotationOrder(b, f)
    ensures IsPerm(f, |b|) && |Reordered(b, f)| == |b|
    ensures forall x | 0 <= x < |b| :: 0 <= f[x] < |b| && Reordered(b, f)[x] == b[f[x]]
  {
  }

  lemma {:induction false} AllRestored(b: Block, f: seq<int>, e: seq<int>)
    requires IsPerm(f, |b|) && |b| <= 4 * |e|
    requires forall x {:trigger f[x]} | 0 <= x < |b| :: 0 <= f[x] < |b| && ByteAt(e, f[x]) == b[f[x]]
    ensures BytesOf(e, |b|) == b
  {
    hide ByteAt;
    forall y | 0 <= y < |b| ensures ByteAt(e, y) == b[y] {
      Surjective(f, |b|, y);
      var x :| 0 <= x < |b| && f[x] == y;
    }
  }

  /** Rebuilds the block in the bytes of eclass from the sorted order and the byte counts. */
  method Restore(fmap: array<int>, eclass: array<int>, ftabCopy: array<int>, nblock: int, ghost b: Block)
    requires fmap != eclass && ftabCopy != eclass && ftabCopy != fmap && ftabCopy.Length == 256
    requires nblock == |b| <= 4 * eclass.Length && nblock <= fmap.Length && IsRotationOrder(b, fmap[..nblock])
    requires forall c | 0 <= c < 256 :: ftabCopy[c] == Count(b, c, |b|)
    modifies eclass, ftabCopy
    ensures BytesOf(eclass[..], nblock) == b
  {
    hide IsRotationOrder, Count, IsPerm, Reordered, ByteAt, BytesOf;
    ghost var f := fmap[..nblock];
    OrderReads(b, f);
    ghost var g := Reordered(b, f);
    var j := 0;
    assert forall c :: Count(g, c, 0) == 0 by { CountNone(g); }
    for i := 0 to nblock
      invariant 0 <= j < 256 && (i < nblock ==> j <= g[i])
      invariant forall c | 0 <= c < 256 :: ftabCopy[c] == Count(b, c, |b|) - Count(g, c, i)
      invariant forall x {:trigger f[x]} | 0 <= x < i :: ByteAt(eclass[..], f[x]) == b[f[x]]
    {
      NextByte(b, f, i);
      j := SkipUsedUp(ftabCopy, j, g[i]);
      ftabCopy[j] := ftabCopy[j] - 1;
      SetByte(eclass, fmap[i], j);
    }
    AllRestored(b, f, eclass[..]);
  }

  /** The bucket sort on one byte: afterwards the headers delimit the classes on that byte. */
  method FirstRound(fmap: array<int>, eclass: array<int>, bhtab: array<int>, nblock: int, ghost b: Block)
    returns (ftabCopy: array<int>)
    requires fmap != eclass && fmap != bhtab && eclass != bhtab && nblock == |b|
    requires nblock <= fmap.Length && nblock <= 4 * eclass.Length && 3 + nblock / 32 <= bhtab.Length &&
      IsTable(bhtab[..])
    requires BytesOf(eclass[..], nblock) == b
    modifies fmap, bhtab
    ensures IsTable(bhtab[..]) && Sentinels(bhtab[..], nblock)
    ensures Classes(b, fmap[..nblock], Marks(bhtab[..], nblock), 1)
    ensures fresh(ftabCopy) && ftabCopy.Length == 256 && forall c | 0 <= c < 256 :: ftabCopy[c] == Count(b, c, |b|)
  {
    var ftab := new int[257];
    CountBytes(eclass, ftab, nblock, b);
    ftabCopy := new int[256];
    for i := 0 to 256
      invariant forall c | 0 <= c < i :: ftabCopy[c] == Count(b, c, |b|)
      modifies ftabCopy
    {
      ftabCopy[i] := ftab[i];
    }
    Accumulate(ftab, b);
    FillBuckets(fmap, eclass, ftab, nblock, b);
    ghost var f := fmap[..nblock];
    InitHeaders(bhtab, ftab, nblock, b);
    assert fmap[..nblock] == f;
    ghost var hd := Marks(bhtab[..], nblock);
    assert forall z | 0 <= z < nblock :: hd[z] <==> BucketStart(b, z);
    RadixClasses(b, f, hd);
  }

  lemma {:induction false} BytesLength(w: seq<int>, n: nat)
    requires n <= 4 * |w|
    ensures |BytesOf(w, n)| == n
  {
  }

  /**
   * Sorts the rotations of the block held in the bytes of eclass. The ranks kept in the
   * words of eclass destroy the block on the way; at the end it is back.
   */
  method FallbackSort(fmap: array<int>, eclass: array<int>, bhtab: array<int>, nblock: int)
    requires fmap != eclass && fmap != bhtab && eclass != bhtab && 0 < nblock < INT32_LIMIT
    requires nblock <= fmap.Length && nblock <= eclass.Length && 3 + nblock / 32 <= bhtab.Length && IsTable(bhtab[..])
    modifies fmap, eclass, bhtab
    ensures IsRotationOrder(old(BytesOf(eclass[..], nblock)), fmap[..nblock]) && IsTable(bhtab[..])
    ensures BytesOf(eclass[..], nblock) == old(BytesOf(eclass[..], nblock))
  {
    hide Classes, Refined, Ranks, IsRotationOrder, Sentinels, Marks, BytesOf, Count;
    BytesLength(eclass[..], nblock);
    ghost var b: Block := BytesOf(eclass[..], nblock);
    var ftabCopy := FirstRound(fmap, eclass, bhtab, nblock, b);
    var H := 1;
    while true
      invariant 1 <= H <= nblock
      invariant IsTable(bhtab[..]) && Sentinels(bhtab[..], nblock)
      invariant Classes(b, fmap[..nblock], Marks(bhtab[..], nblock), H)
      invariant forall c | 0 <= c < 256 :: ftabCopy[c] == Count(b, c, |b|)
      decreases nblock - H
    {
      ComputeRanks(fmap, eclass, bhtab, H, nblock, b);
      var nNotDone := RefineRound(fmap, eclass, bhtab, H, nblock, b);
      H := H * 2;
      if H > nblock || nNotDone == 0 {
        if H > nblock { DeepEnough(b, fmap[..nblock], Marks(bhtab[..], nblock), H); }
        break;
      }
    }
    Restore(fmap, eclass, ftabCopy, nblock, b);
  }
}
