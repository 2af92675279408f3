/**
 * The decoder's small-memory inverse transform: 20 bits a position, the links first built from
 * each symbol to its place in the sort, then turned round along the one cycle that is walked.
 */
module SmallDecode {
  import opened Rotations
  import opened InverseBwt
  import opened Counting
  import opened FastDecode

  // ---- 20-bit numbers: the low 16 bits in ll16, the high 4 in a nibble of ll4

  ghost predicate IsStore(ll16: seq<int>, ll4: seq<int>, n: int) {
    && 0 <= n <= |ll16| && n <= 2 * |ll4|
    && (forall i | 0 <= i < n :: 0 <= ll16[i] < 0x1_0000)
    && (forall i | 0 <= i < |ll4| :: 0 <= ll4[i] < 256)
  }

  function Nibble(ll4: seq<int>, i: int): int
    requires 0 <= i < 2 * |ll4|
  {
    if i % 2 == 0 then ll4[i / 2] % 16 else ll4[i / 2] / 16
  }

  /** The number at position i. */
  function Stored(ll16: seq<int>, ll4: seq<int>, i: int): int
    requires 0 <= i < |ll16| && i < 2 * |ll4|
  {
    ll16[i] + Nibble(ll4, i) * 0x1_0000
  }

  /** All n numbers. */
  ghost function Numbers(ll16: seq<int>, ll4: seq<int>, n: nat): (r: seq<int>)
    requires n <= |ll16| && n <= 2 * |ll4|
    ensures |r| == n && forall i | 0 <= i < n :: r[i] == Stored(ll16, ll4, i)
  {
    seq(n, i requires 0 <= i < n => Stored(ll16, ll4, i))
  }

  function Nibbled(b: int, i: int, v: int): int {
    if i % 2 == 0 then b / 16 * 16 + v else b % 16 + 16 * v
  }

  lemma {:induction false} NibbleSet(b: int, i: int, v: int)
    requires 0 <= b < 256 && 0 <= v < 16
    ensures 0 <= Nibbled(b, i, v) < 256
    ensures if i % 2 == 0 then Nibbled(b, i, v) % 16 == v && Nibbled(b, i, v) / 16 == b / 16
            else Nibbled(b, i, v) / 16 == v && Nibbled(b, i, v) % 16 == b % 16
  {
  }

  lemma {:induction false} StoreSets(ll16: seq<int>, ll4: seq<int>, n: int, i: int, v: int)
    requires IsStore(ll16, ll4, n) && 0 <= i < n && 0 <= v < 0x10_0000
    ensures var w16, w4 := ll16[i := v % 0x1_0000], ll4[i / 2 := Nibbled(ll4[i / 2], i, v / 0x1_0000)];
      IsStore(w16, w4, n) && Numbers(w16, w4, n) == Numbers(ll16, ll4, n)[i := v]
  {
    var w16, w4 := ll16[i := v % 0x1_0000], ll4[i / 2 := Nibbled(ll4[i / 2], i, v / 0x1_0000)];
    NibbleSet(ll4[i / 2], i, v / 0x1_0000);
    hide Nibbled;
    forall k | 0 <= k < n ensures Stored(w16, w4, k) == if k == i then v else Stored(ll16, ll4, k) {
      if k / 2 == i / 2 && k != i { assert k % 2 != i % 2; }
    }
  }

  method SetLL(ll16: array<int>, ll4: array<int>, i: int, v: int, ghost n: int)
    requires ll16 != ll4 && IsStore(ll16[..], ll4[..], n) && 0 <= i < n && 0 <= v < 0x10_0000
    modifies ll16, ll4
    ensures IsStore(ll16[..], ll4[..], n)
    ensures Numbers(ll16[..], ll4[..], n) == old(Numbers(ll16[..], ll4[..], n))[i := v]
    ensures forall k | 0 <= k < ll16.Length && k != i :: ll16[k] == old(ll16[k])
  {
    ghost var w16, w4 := ll16[..], ll4[..];
    StoreSets(w16, w4, n, i, v);
    hide IsStore, Numbers;
    ll16[i] := v % 0x1_0000;
    ll4[i / 2] := Nibbled(ll4[i / 2], i, v / 0x1_0000);
    assert ll16[..] == w16[i := v % 0x1_0000] && ll4[..] == w4[i / 2 := Nibbled(w4[i / 2], i, v / 0x1_0000)];
  }

  method GetLL(ll16: array<int>, ll4: array<int>, i: int, ghost n: int) returns (v: int)
    requires IsStore(ll16[..], ll4[..], n) && 0 <= i < n
    ensures v == Numbers(ll16[..], ll4[..], n)[i]
  {
    v := ll16[i] + (if i % 2 == 0 then ll4[i / 2] % 16 else ll4[i / 2] / 16) * 0x1_0000;
  }

  // ---- the links forward: from each position to its slot in the sort

  /** The first i positions hold their slots, the others still their symbols. */
  ghost predicate Slotted(ll16: seq<int>, ll4: seq<int>, l: seq<Byte>, i: int) {
    && IsStore(ll16, ll4, |l|) && 0 <= i <= |l|
    && (forall k | 0 <= k < i :: Numbers(ll16, ll4, |l|)[k] == Slot(l, k))
    && (forall k | i <= k < |l| :: ll16[k] == l[k] as int)
  }

  lemma {:induction false} SlotStep(ll16: seq<int>, ll4: seq<int>, cf: seq<int>, l: seq<Byte>, i: nat)
    requires i < |l| <= MAX_BLOCK && Slotted(ll16, ll4, l, i) && Starts(cf, l, i)
    ensures 0 <= ll16[i] < 256 && 0 <= cf[ll16[i]] == Slot(l, i) < |l|
    ensures Starts(cf[ll16[i] := cf[ll16[i]] + 1], l, i + 1)
  {
    FillStep(l, i);
    hide Fill, Slot;
  }

  method BuildT(ll16: array<int>, ll4: array<int>, cftabCopy: array<int>, nblock: int, ghost l: seq<Byte>)
    requires ll16 != ll4 && ll16 != cftabCopy && ll4 != cftabCopy
    requires nblock == |l| <= MAX_BLOCK && IsStore(ll16[..], ll4[..], nblock) && cftabCopy.Length == 257
    requires forall i | 0 <= i < nblock :: ll16[i] == l[i] as int
    requires forall c | 0 <= c <= 256 :: cftabCopy[c] == Below(l, c, |l|)
    modifies ll16, ll4, cftabCopy
    ensures IsStore(ll16[..], ll4[..], nblock) && Numbers(ll16[..], ll4[..], nblock) == Slots(l)
  {
    assert Starts(cftabCopy[..], l, 0) && Slotted(ll16[..], ll4[..], l, 0);
    hide Starts, Slot, Fill, Below, Count, Slotted, IsStore;
    for i := 0 to nblock
      invariant Starts(cftabCopy[..], l, i) && Slotted(ll16[..], ll4[..], l, i)
    {
      BuildOne(ll16, ll4, cftabCopy, i, l);
    }
    AllSlotted(ll16[..], ll4[..], l);
  }

  lemma {:induction false} AllSlotted(ll16: seq<int>, ll4: seq<int>, l: seq<Byte>)
    requires Slotted(ll16, ll4, l, |l|)
    ensures IsStore(ll16, ll4, |l|) && Numbers(ll16, ll4, |l|) == Slots(l)
  {
    hide Slot;
  }

  method BuildOne(ll16: array<int>, ll4: array<int>, cftabCopy: array<int>, i: int, ghost l: seq<Byte>)
    requires ll16 != ll4 && ll16 != cftabCopy && ll4 != cftabCopy && 0 <= i < |l| <= MAX_BLOCK
    requires Starts(cftabCopy[..], l, i) && Slotted(ll16[..], ll4[..], l, i)
    modifies ll16, ll4, cftabCopy
    ensures Starts(cftabCopy[..], l, i + 1) && Slotted(ll16[..], ll4[..], l, i + 1)
  {
    ghost var w16, w4, cf := ll16[..], ll4[..], cftabCopy[..];
    SlotStep(w16, w4, cf, l, i);
    hide Starts, Slot, Fill, Below, Count, IsStore, Stored;
    var uc := ll16[i];
    SetLL(ll16, ll4, i, cftabCopy[uc], |l|);
    cftabCopy[uc] := cftabCopy[uc] + 1;
    assert cftabCopy[..] == cf[uc := cf[uc] + 1];
  }

  // ---- turning the links round

  /** f takes every position to a position, no two to the same one. */
  ghost predicate IsMap(f: seq<int>) {
    (forall y | 0 <= y < |f| :: 0 <= f[y] < |f|) && forall y, z | 0 <= y < z < |f| :: f[y] != f[z]
  }

  /** t undoes f. */
  ghost predicate Undoes(t: seq<int>, f: seq<int>) {
    |t| == |f| && (forall y | 0 <= y < |t| :: 0 <= t[y] < |f|) &&
      forall y | 0 <= y < |f| :: 0 <= f[y] < |t| && t[f[y]] == y
  }

  /** k steps of f from x. */
  ghost function Iter(f: seq<int>, x: int, k: nat): (y: int)
    requires 0 <= x < |f| && forall y | 0 <= y < |f| :: 0 <= f[y] < |f|
    ensures 0 <= y < |f|
  {
    if k == 0 then x else f[Iter(f, x, k - 1)]
  }

  lemma {:induction false} IterShift(f: seq<int>, x: int, k: nat)
    requires 0 <= x < |f| && forall y | 0 <= y < |f| :: 0 <= f[y] < |f|
    ensures Iter(f, f[x], k) == Iter(f, x, k + 1)
  {
    if k > 0 { IterShift(f, x, k - 1); }
  }

  /** Two equal values on the way from x mean that x is met again. */
  lemma {:induction false} Cancel(f: seq<int>, x: int, a: nat, b: nat)
    requires 0 <= x < |f| && IsMap(f) && a <= b && Iter(f, x, a) == Iter(f, x, b)
    ensures Iter(f, x, b - a) == x
  {
    if a > 0 {
      var y, z := Iter(f, x, a - 1), Iter(f, x, b - 1);
      assert f[y] == f[z];
      assert y == z;
      Cancel(f, x, a - 1, b - 1);
    }
  }

  /** x is not met again within m steps. */
  ghost predicate Open(f: seq<int>, x: int, m: nat)
    requires 0 <= x < |f| && IsMap(f)
  {
    forall k: nat | 1 <= k <= m :: Iter(f, x, k) != x
  }

  lemma {:induction false} AllDifferent(f: seq<int>, x: int, m: nat, a: nat, b: nat)
    requires 0 <= x < |f| && IsMap(f) && Open(f, x, m) && a < b <= m + 1 && (a > 0 || b <= m)
    ensures Iter(f, x, a) != Iter(f, x, b)
  {
    if Iter(f, x, a) == Iter(f, x, b) {
      Cancel(f, x, a, b);
    }
  }

  /** No more than |f| steps without meeting x. */
  lemma {:induction false} OpenBound(f: seq<int>, x: int, m: nat)
    requires 0 <= x < |f| && IsMap(f) && Open(f, x, m)
    ensures m < |f|
  {
    var p := seq(m + 1, k requires 0 <= k <= m => Iter(f, x, k));
    forall a, b | 0 <= a < b <= m ensures p[a] != p[b] { AllDifferent(f, x, m, a, b); }
    var all := UpTo(|f|);
    ImageSize(p, m + 1);
    assert Image(p, m + 1) <= all;
    SubsetSize(Image(p, m + 1), all);
  }

  ghost predicate Among(f: seq<int>, x: int, m: nat, y: int)
    requires 0 <= x < |f| && IsMap(f)
  {
    exists k: nat | 1 <= k <= m :: Iter(f, x, k) == y
  }

  /** Link k from x leads back. */
  ghost predicate Back(n: seq<int>, f: seq<int>, x: int, k: nat)
    requires 0 <= x < |f| == |n| && IsMap(f) && k > 0
  {
    n[Iter(f, x, k)] == Iter(f, x, k - 1)
  }

  /** The first m links from x are turned round, all others are as f has them. */
  ghost predicate Turned(n: seq<int>, f: seq<int>, x: int, m: nat)
    requires 0 <= x < |f| && IsMap(f)
  {
    && |n| == |f|
    && (forall k: nat | 1 <= k <= m :: Back(n, f, x, k))
    && (forall y | 0 <= y < |f| && !Among(f, x, m, y) :: n[y] == f[y])
  }

  lemma {:induction false} TurnOne(n: seq<int>, f: seq<int>, x: int, m: nat)
    requires 0 <= x < |f| && IsMap(f) && Open(f, x, m) && Turned(n, f, x, m)
    ensures var j := Iter(f, x, m + 1); n[j] == Iter(f, x, m + 2) && Turned(n[j := Iter(f, x, m)], f, x, m + 1)
  {
    var j := Iter(f, x, m + 1);
    assert Iter(f, x, m + 2) == f[j];
    NotYetTurned(f, x, m);
    TurnBack(n, f, x, m);
    var u := n[j := Iter(f, x, m)];
    hide Iter, Open, IsMap, Back, Among;
    forall y | 0 <= y < |f| && !Among(f, x, m + 1, y) ensures u[y] == f[y] {
      AmongMore(f, x, m, y);
      AmongLast(f, x, m);
    }
  }

  lemma {:induction false} TurnBack(n: seq<int>, f: seq<int>, x: int, m: nat)
    requires 0 <= x < |f| && IsMap(f) && Open(f, x, m) && Turned(n, f, x, m)
    ensures var u := n[Iter(f, x, m + 1) := Iter(f, x, m)]; forall k: nat | 1 <= k <= m + 1 :: Back(u, f, x, k)
  {
    hide Open, IsMap, Among, Iter, Turned;
    MapInside(f);
    IterInside(n, f, x, m);
    var u := n[Iter(f, x, m + 1) := Iter(f, x, m)];
    NotYetTurned(f, x, m);
    forall k: nat | 1 <= k <= m + 1 ensures Back(u, f, x, k) {
      if k <= m { TurnedBack(n, f, x, m, k); }
    }
  }

  lemma {:induction false} MapInside(f: seq<int>)
    requires IsMap(f)
    ensures forall y | 0 <= y < |f| :: 0 <= f[y] < |f|
  {
  }

  lemma {:induction false} IterInside(n: seq<int>, f: seq<int>, x: int, m: nat)
    requires 0 <= x < |f| && IsMap(f) && Turned(n, f, x, m)
    ensures |n| == |f| && forall k: nat :: 0 <= Iter(f, x, k) < |f|
  {
  }

  lemma {:induction false} TurnedBack(n: seq<int>, f: seq<int>, x: int, m: nat, k: nat)
    requires 0 <= x < |f| && IsMap(f) && Turned(n, f, x, m) && 1 <= k <= m
    ensures |n| == |f| && Back(n, f, x, k)
  {
  }

  lemma {:induction false} NotYetTurned(f: seq<int>, x: int, m: nat)
    requires 0 <= x < |f| && IsMap(f) && Open(f, x, m)
    ensures !Among(f, x, m, Iter(f, x, m + 1)) && forall k: nat | 1 <= k <= m :: Iter(f, x, k) != Iter(f, x, m + 1)
  {
    forall k: nat | 1 <= k <= m ensures Iter(f, x, k) != Iter(f, x, m + 1) { AllDifferent(f, x, m, k, m + 1); }
  }

  lemma {:induction false} AmongMore(f: seq<int>, x: int, m: nat, y: int)
    requires 0 <= x < |f| && IsMap(f)
    ensures Among(f, x, m, y) ==> Among(f, x, m + 1, y)
  {
  }

  lemma {:induction false} AmongLast(f: seq<int>, x: int, m: nat)
    requires 0 <= x < |f| && IsMap(f)
    ensures Among(f, x, m + 1, Iter(f, x, m + 1))
  {
  }

  lemma {:induction false} OpenMore(f: seq<int>, x: int, m: nat)
    requires 0 <= x < |f| && IsMap(f) && Open(f, x, m) && Iter(f, x, m + 1) != x
    ensures Open(f, x, m + 1)
  {
  }

  /** From x on, n leads where t leads. */
  ghost predicate Follows(n: seq<int>, t: seq<int>, x: int) {
    && |n| == |t| && 0 <= x < |t| && (forall y | 0 <= y < |t| :: 0 <= t[y] < |t|)
    && forall k: nat :: n[Iter(t, x, k)] == t[Iter(t, x, k)]
  }

  lemma {:induction false} FollowStep(n: seq<int>, t: seq<int>, x: int)
    requires Follows(n, t, x)
    ensures n[x] == t[x] && Follows(n, t, t[x])
  {
    assert n[Iter(t, x, 0)] == t[Iter(t, x, 0)];
    forall k: nat ensures n[Iter(t, t[x], k)] == t[Iter(t, t[x], k)] { IterShift(t, x, k); }
  }

  /** Backwards along the cycle. */
  lemma {:induction false} OnCycle(f: seq<int>, t: seq<int>, x: int, p: nat, k: nat) returns (a: nat)
    requires 0 <= x < |f| && IsMap(f) && Undoes(t, f) && p > 0 && Iter(f, x, p) == x
    ensures 1 <= a <= p && Iter(t, x, k) == Iter(f, x, a)
  {
    if k == 0 {
      a := p;
    } else {
      var b := OnCycle(f, t, x, p, k - 1);
      assert t[Iter(f, x, b)] == Iter(f, x, b - 1);
      a := if b == 1 then p else b - 1;
    }
  }

  lemma {:induction false} CycleTurned(n: seq<int>, f: seq<int>, t: seq<int>, x: int, p: nat)
    requires 0 <= x < |f| && IsMap(f) && Undoes(t, f) && p > 0 && Iter(f, x, p) == x && Turned(n, f, x, p)
    ensures Follows(n, t, x)
  {
    forall k: nat ensures n[Iter(t, x, k)] == t[Iter(t, x, k)] {
      var a := OnCycle(f, t, x, p, k);
      assert Back(n, f, x, a);
    }
  }

  /** Pointer reversal along the cycle of origPtr. */
  method TurnRound(ll16: array<int>, ll4: array<int>, origPtr: int, nblock: int, ghost f: seq<int>, ghost t: seq<int>)
    requires ll16 != ll4 && 0 <= origPtr < nblock <= MAX_BLOCK && IsStore(ll16[..], ll4[..], nblock)
    requires Numbers(ll16[..], ll4[..], nblock) == f && IsMap(f) && Undoes(t, f)
    modifies ll16, ll4
    ensures IsStore(ll16[..], ll4[..], nblock) && Follows(Numbers(ll16[..], ll4[..], nblock), t, origPtr)
  {
    ghost var m: nat := 0;
    assert nblock <= ll16.Length && nblock <= 2 * ll4.Length;
    hide *;
    var i := origPtr;
    var j := GetLL(ll16, ll4, i, nblock);
    TurningStart(f, origPtr, j);
    while true
      invariant IsStore(ll16[..], ll4[..], nblock) && Turning(Numbers(ll16[..], ll4[..], nblock), f, origPtr, m, i, j)
      invariant Open(f, origPtr, m) && m <= nblock
      decreases nblock - m
    {
      OpenBound(f, origPtr, m);
      var tmp := ReverseOne(ll16, ll4, i, j, nblock, f, origPtr, m);
      i, j := j, tmp;
      m := m + 1;
      if i == origPtr { break; }
      TurningOpen(Numbers(ll16[..], ll4[..], nblock), f, origPtr, m, i, j);
    }
    TurningEnd(Numbers(ll16[..], ll4[..], nblock), f, t, origPtr, m, i, j);
  }

  /** Between two steps: m links are turned, and x was not met before the last of them. */
  ghost predicate Turning(n: seq<int>, f: seq<int>, x: int, m: nat, i: int, j: int)
    requires 0 <= x < |f| && IsMap(f)
  {
    Turned(n, f, x, m) && i == Iter(f, x, m) && j == Iter(f, x, m + 1) && Open(f, x, if m == 0 then 0 else m - 1)
  }

  lemma {:induction false} TurningStart(f: seq<int>, x: int, j: int)
    requires 0 <= x < |f| && IsMap(f) && j == f[x]
    ensures Turning(f, f, x, 0, x, j) && Open(f, x, 0)
  {
    TurnNone(f, x);
  }

  lemma {:induction false} TurningOpen(n: seq<int>, f: seq<int>, x: int, m: nat, i: int, j: int)
    requires 0 <= x < |f| && IsMap(f) && Turning(n, f, x, m, i, j) && (m == 0 || i != x)
    ensures Open(f, x, m) && m < |f|
  {
    if m > 0 { OpenMore(f, x, m - 1); }
    OpenBound(f, x, m);
  }

  lemma {:induction false} TurningEnd(n: seq<int>, f: seq<int>, t: seq<int>, x: int, m: nat, i: int, j: int)
    requires 0 <= x < |f| && IsMap(f) && Undoes(t, f) && Turning(n, f, x, m, i, j) && m > 0 && i == x
    ensures Follows(n, t, x)
  {
    CycleTurned(n, f, t, x, m);
  }

  method ReverseOne(ll16: array<int>, ll4: array<int>, i: int, j: int, ghost nblock: int, ghost f: seq<int>,
    ghost x: int, ghost m: nat)
    returns (tmp: int)
    requires ll16 != ll4 && 0 <= x < nblock <= MAX_BLOCK && IsStore(ll16[..], ll4[..], nblock) && |f| == nblock
    requires IsMap(f) && Open(f, x, m)
    requires Turning(Numbers(ll16[..], ll4[..], nblock), f, x, m, i, j)
    modifies ll16, ll4
    ensures IsStore(ll16[..], ll4[..], nblock) && Turning(Numbers(ll16[..], ll4[..], nblock), f, x, m + 1, j, tmp)
  {
    assert nblock <= ll16.Length && nblock <= 2 * ll4.Length;
    hide IsStore, Numbers, IsMap, Turned, Open, Iter;
    TurnOne(Numbers(ll16[..], ll4[..], nblock), f, x, m);
    tmp := GetLL(ll16, ll4, j, nblock);
    SetLL(ll16, ll4, j, i, nblock);
  }

  lemma {:induction false} TurnNone(f: seq<int>, x: int)
    requires 0 <= x < |f| && IsMap(f)
    ensures Turned(f, f, x, 0) && Open(f, x, 0) && Iter(f, x, 0) == x && Iter(f, x, 1) == f[x]
  {
  }

  // ---- fetching symbols

  /** The counting sort is such a map, and its order undoes it. */
  lemma {:induction false} SlotsTurnable(l: seq<Byte>)
    ensures IsMap(Slots(l)) && Undoes(CountingOrder(l), Slots(l)) && Leads(l, CountingOrder(l))
  {
    SlotsPerm(l);
    forall k | 0 <= k < |l|
      ensures 0 <= Slot(l, k) < |l| && CountingOrder(l)[Slot(l, k)] == k
    {
      CountingOrderOf(l, k);
    }
    hide Slot;
  }

  /** cf says where each symbol begins in the sorted column, t where its entries come from. */
  ghost predicate FirstColumn(cf: seq<int>, l: seq<Byte>, t: seq<int>) {
    && |cf| == 257 && Leads(l, t) && cf[0] == 0 && cf[256] == |l|
    && forall y, c | 0 <= y < |l| && 0 <= c < 256 && cf[c] <= y < cf[c + 1] :: l[t[y]] as int == c
  }

  lemma {:induction false} SortedColumn(cf: seq<int>, l: seq<Byte>)
    requires |cf| == 257 && forall c | 0 <= c <= 256 :: cf[c] == Below(l, c, |l|)
    ensures FirstColumn(cf, l, CountingOrder(l))
  {
    SlotsTurnable(l);
    BelowEnds(l, |l|);
    forall y, c | 0 <= y < |l| && 0 <= c < 256 && cf[c] <= y < cf[c + 1] ensures l[CountingOrder(l)[y]] as int == c {
      SlotSymbol(l, y, c);
    }
  }

  /** BZ2_indexIntoF: the symbol whose part of the sorted column indx lies in. */
  method IndexIntoF(indx: int, cftab: array<int>) returns (nb: int)
    requires cftab.Length == 257 && cftab[0] <= indx < cftab[256]
    ensures 0 <= nb < 256 && cftab[nb] <= indx < cftab[nb + 1]
  {
    nb := 0;
    var na := 256;
    while true
      invariant 0 <= nb && nb + 1 < na <= 256 && cftab[nb] <= indx < cftab[na]
      decreases na - nb
    {
      var mid := (nb + na) / 2;
      if indx >= cftab[mid] { nb := mid; } else { na := mid; }
      if na - nb == 1 { break; }
    }
  }

  /** BZ_GET_SMALL */
  method GetSmall(ll16: array<int>, ll4: array<int>, cftab: array<int>, tPos: int, blockSize100k: int,
    ghost l: seq<Byte>, ghost t: seq<int>)
    returns (ok: bool, c: int, tPos': int)
    requires |l| <= 100_000 * blockSize100k && IsStore(ll16[..], ll4[..], |l|) && FirstColumn(cftab[..], l, t)
    requires Follows(Numbers(ll16[..], ll4[..], |l|), t, tPos) && tPos < |l|
    ensures ok && |t| == |l| && 0 <= tPos' < |l| && tPos' == t[tPos] && c == l[tPos'] as int
    ensures IsStore(ll16[..], ll4[..], |l|) && Follows(Numbers(ll16[..], ll4[..], |l|), t, tPos')
  {
    FollowStep(Numbers(ll16[..], ll4[..], |l|), t, tPos);
    assert tPos < 100_000 * blockSize100k;
    if tPos >= 100_000 * blockSize100k { return false, 0, 0; }
    c := IndexIntoF(tPos, cftab);
    assert cftab[..][c] <= tPos < cftab[..][c + 1];
    hide Follows, Numbers;
    tPos' := GetLL(ll16, ll4, tPos, |l|);
    ok := true;
  }
}
