/** Counting the symbols of a sequence, and the slots a counting sort assigns. */
module Counting {
  import opened Rotations
  import opened InverseBwt

  /** How many of the first m symbols are c. */
  function Count(s: seq<int>, c: int, m: nat): (r: nat)
    requires m <= |s|
    ensures r <= m
  {
    if m == 0 then 0 else Count(s, c, m - 1) + if s[m - 1] == c then 1 else 0
  }

  /** How many of the first m symbols are less than c. */
  function Below(s: seq<int>, c: int, m: nat): (r: nat)
    requires m <= |s|
    ensures r <= m
  {
    if m == 0 then 0 else Below(s, c, m - 1) + if s[m - 1] < c then 1 else 0
  }

  lemma {:induction false} BelowStep(s: seq<int>, c: int, m: nat)
    requires m <= |s|
    ensures Below(s, c + 1, m) == Below(s, c, m) + Count(s, c, m)
  {
    if m > 0 { BelowStep(s, c, m - 1); }
  }

  lemma {:induction false} BelowMono(s: seq<int>, c: int, d: int, m: nat)
    requires m <= |s| && c <= d
    ensures Below(s, c, m) <= Below(s, d, m)
  {
    if m > 0 { BelowMono(s, c, d, m - 1); }
  }

  lemma {:induction false} CountMono(s: seq<int>, c: int, k: nat, m: nat)
    requires k <= m <= |s|
    ensures Count(s, c, k) <= Count(s, c, m)
    decreases m
  {
    if k < m { CountMono(s, c, k, m - 1); }
  }

  lemma {:induction false} BelowEnds(s: seq<Byte>, m: nat)
    requires m <= |s|
    ensures Below(s, 0, m) == 0 && Below(s, 256, m) == m
  {
    if m > 0 { BelowEnds(s, m - 1); }
  }

  /** Where a stable counting sort puts position j of s. */
  function Slot(s: seq<int>, j: nat): nat
    requires j < |s|
  {
    Below(s, s[j], |s|) + Count(s, s[j], j)
  }

  /** The next free place of bucket c once the first i positions of s have been placed. */
  function Fill(s: seq<int>, c: int, i: nat): nat
    requires i <= |s|
  {
    Below(s, c, |s|) + Count(s, c, i)
  }

  lemma {:induction false} FillStep(s: seq<int>, i: nat)
    requires i < |s|
    ensures Slot(s, i) == Fill(s, s[i], i) < |s|
    ensures forall c :: Fill(s, c, i + 1) == Fill(s, c, i) + if c == s[i] then 1 else 0
  {
    SlotInBucket(s, i);
  }

  lemma {:induction false} SlotInBucket(s: seq<int>, j: nat)
    requires j < |s|
    ensures Below(s, s[j], |s|) <= Slot(s, j) < Below(s, s[j] + 1, |s|) <= |s|
  {
    BelowStep(s, s[j], |s|);
    CountMono(s, s[j], j + 1, |s|);
  }

  lemma {:induction false} SlotOrder(s: seq<int>, j: nat, k: nat)
    requires j < |s| && k < |s| && Precedes(s, j, k)
    ensures Slot(s, j) < Slot(s, k)
  {
    if s[j] < s[k] {
      SlotInBucket(s, j);
      BelowMono(s, s[j] + 1, s[k], |s|);
    } else {
      CountMono(s, s[j], j + 1, k);
    }
  }

  lemma {:induction false} SlotInjective(s: seq<int>, j: nat, k: nat)
    requires j < |s| && k < |s| && j != k
    ensures Slot(s, j) != Slot(s, k)
  {
    if Precedes(s, j, k) { SlotOrder(s, j, k); } else { SlotOrder(s, k, j); }
  }

  ghost function Slots(s: seq<int>): (r: seq<int>)
    ensures |r| == |s| && forall j | 0 <= j < |s| :: r[j] == Slot(s, j)
  {
    seq(|s|, j requires 0 <= j < |s| => Slot(s, j))
  }

  lemma {:induction false} SlotsPerm(s: seq<int>)
    ensures IsPerm(Slots(s), |s|)
  {
    forall j | 0 <= j < |s| ensures 0 <= Slot(s, j) < |s| { SlotInBucket(s, j); }
    forall j, k | 0 <= j < k < |s| ensures Slots(s)[j] != Slots(s)[k] { SlotInjective(s, j, k); }
  }

  lemma {:induction false} SlotOnto(s: seq<int>, y: int)
    requires 0 <= y < |s|
    ensures exists j | 0 <= j < |s| :: Slot(s, j) == y
  {
    SlotsPerm(s);
    Surjective(Slots(s), |s|, y);
    var j :| 0 <= j < |s| && Slots(s)[j] == y;
    assert Slot(s, j) == y;
  }

  /** The position a stable counting sort puts in slot y: the inverse of Slot. */
  ghost function FromSlot(s: seq<int>, y: int): (j: int)
    requires 0 <= y < |s|
    ensures 0 <= j < |s| && Slot(s, j) == y
  {
    SlotOnto(s, y);
    var j :| 0 <= j < |s| && Slot(s, j) == y;
    j
  }

  /** The order a stable counting sort of s produces. */
  ghost function CountingOrder(s: seq<int>): (t: seq<int>)
    ensures |t| == |s| && forall y | 0 <= y < |s| :: t[y] == FromSlot(s, y)
  {
    seq(|s|, y requires 0 <= y < |s| => FromSlot(s, y))
  }

  lemma {:induction false} CountingOrderOf(s: seq<int>, j: nat)
    requires j < |s|
    ensures 0 <= Slot(s, j) < |s| && CountingOrder(s)[Slot(s, j)] == j
  {
    SlotInBucket(s, j);
    var k := FromSlot(s, Slot(s, j));
    if k != j { SlotInjective(s, j, k); }
  }

  lemma {:induction false} CountingOrderIsStable(s: seq<int>)
    ensures IsStableOrder(s, CountingOrder(s))
  {
    var t := CountingOrder(s);
    forall x, y | 0 <= x < y < |s| ensures t[x] != t[y] && Precedes(s, t[x], t[y]) {
      assert Slot(s, t[x]) == x && Slot(s, t[y]) == y;
      if !Precedes(s, t[x], t[y]) && t[x] != t[y] {
        SlotOrder(s, t[y], t[x]);
      }
    }
  }

  /** The symbol in whose bucket slot y falls is the one at the position sorted there. */
  lemma {:induction false} SlotSymbol(s: seq<int>, y: int, c: int)
    requires 0 <= y < |s| && Below(s, c, |s|) <= y < Below(s, c + 1, |s|)
    ensures s[FromSlot(s, y)] == c
  {
    var j := FromSlot(s, y);
    SlotInBucket(s, j);
    if s[j] < c {
      BelowMono(s, s[j] + 1, c, |s|);
    } else if s[j] > c {
      BelowMono(s, c + 1, s[j], |s|);
    }
  }

  // ---- counting does not depend on the order

  ghost function Where(s: seq<int>, c: int, m: nat): (r: set<int>)
    requires m <= |s|
    ensures forall i :: i in r <==> 0 <= i < m && s[i] == c
  {
    set i | 0 <= i < m && s[i] == c
  }

  lemma {:induction false} CountIsSize(s: seq<int>, c: int, m: nat)
    requires m <= |s|
    ensures Count(s, c, m) == |Where(s, c, m)|
  {
    if m == 0 {
      assert Where(s, c, 0) == {};
    } else {
      CountIsSize(s, c, m - 1);
      if s[m - 1] == c {
        assert Where(s, c, m) == Where(s, c, m - 1) + {m - 1};
      } else {
        assert Where(s, c, m) == Where(s, c, m - 1);
      }
    }
  }

  /** s read in the order p. */
  function Reordered(s: seq<Byte>, p: seq<int>): (r: seq<Byte>)
    requires forall x | 0 <= x < |p| :: 0 <= p[x] < |s|
    ensures |r| == |p| && forall x | 0 <= x < |p| :: r[x] == s[p[x]]
  {
    seq(|p|, x requires 0 <= x < |p| => s[p[x]])
  }

  /** The places of c in s that the first m entries of p lead to. */
  ghost function Reached(s: seq<Byte>, p: seq<int>, c: int, m: nat): (r: set<int>)
    requires IsPerm(p, |s|) && m <= |s|
    ensures forall y :: y in r <==> exists x | 0 <= x < m :: p[x] == y && s[p[x]] == c
  {
    set x | 0 <= x < m && s[p[x]] == c :: p[x]
  }

  lemma {:induction false} ReachedSize(s: seq<Byte>, p: seq<int>, c: int, m: nat)
    requires IsPerm(p, |s|) && m <= |s|
    ensures |Reached(s, p, c, m)| == Count(Reordered(s, p), c, m)
  {
    hide IsPerm, Reached;
    PermInRange(s, p);
    if m == 0 {
      ReachedNone(s, p, c);
    } else {
      ReachedSize(s, p, c, m - 1);
      if s[p[m - 1]] == c { ReachedOne(s, p, c, m); } else { ReachedSame(s, p, c, m); }
    }
  }

  lemma {:induction false} PermInRange(s: seq<Byte>, p: seq<int>)
    requires IsPerm(p, |s|)
    ensures |p| == |s| && forall x | 0 <= x < |p| :: 0 <= p[x] < |s|
  {
  }

  lemma {:induction false} ReachedNone(s: seq<Byte>, p: seq<int>, c: int)
    requires IsPerm(p, |s|)
    ensures Reached(s, p, c, 0) == {}
  {
  }

  lemma {:induction false} ReachedOne(s: seq<Byte>, p: seq<int>, c: int, m: nat)
    requires IsPerm(p, |s|) && 0 < m <= |s| && s[p[m - 1]] == c
    ensures Reached(s, p, c, m) == Reached(s, p, c, m - 1) + {p[m - 1]} && p[m - 1] !in Reached(s, p, c, m - 1)
  {
  }

  lemma {:induction false} ReachedSame(s: seq<Byte>, p: seq<int>, c: int, m: nat)
    requires IsPerm(p, |s|) && 0 < m <= |s| && s[p[m - 1]] != c
    ensures Reached(s, p, c, m) == Reached(s, p, c, m - 1)
  {
  }

  lemma {:induction false} CountReordered(s: seq<Byte>, p: seq<int>, c: int)
    requires IsPerm(p, |s|)
    ensures Count(Reordered(s, p), c, |s|) == Count(s, c, |s|)
  {
    ReachedSize(s, p, c, |s|);
    CountIsSize(s, c, |s|);
    forall y | 0 <= y < |s| && s[y] == c ensures y in Reached(s, p, c, |s|) {
      Surjective(p, |s|, y);
    }
    assert Reached(s, p, c, |s|) == Where(s, c, |s|);
  }

  lemma {:induction false} CountAbsent(s: seq<Byte>, c: int, k: nat, m: nat)
    requires k <= m <= |s| && forall x | k <= x < m :: s[x] != c
    ensures Count(s, c, m) == Count(s, c, k)
    decreases m
  {
    if k < m { CountAbsent(s, c, k, m - 1); }
  }
}
