/**
 * The decoder's move-to-front list: 256 bytes kept as 16 segments of 16 that slide downwards
 * in a pool of 4096, so that a move to the front shifts within one segment only.
 */
module MtfPool {
  import opened MoveToFront

  const MTFA_SIZE := 4096
  const MTFL_SIZE := 16

  /** Segments lie in order in the pool, without overlap. */
  ghost predicate InOrder(base: seq<int>) {
    && |base| == 16
    && (forall i | 0 <= i < 16 :: 0 <= base[i] && base[i] + 16 <= MTFA_SIZE)
    && (forall i, j | 0 <= i < j < 16 :: base[i] + 16 <= base[j])
  }

  /** Element k of the list: segment k / 16, place k % 16. */
  function Element(a: seq<int>, base: seq<int>, k: int): int
    requires |a| == MTFA_SIZE && InOrder(base) && 0 <= k < 256
  {
    Cell(a, base, k / 16, k % 16)
  }

  /** Place o of segment i. */
  function Cell(a: seq<int>, base: seq<int>, i: int, o: int): int
    requires |a| == MTFA_SIZE && InOrder(base) && 0 <= i < 16 && 0 <= o < 16
  {
    a[base[i] + o]
  }

  function ListOf(a: seq<int>, base: seq<int>): (r: seq<int>)
    requires |a| == MTFA_SIZE && InOrder(base)
    ensures |r| == 256 && forall k | 0 <= k < 256 :: r[k] == Element(a, base, k)
  {
    seq(256, k requires 0 <= k < 256 => Element(a, base, k))
  }

  /** The elements of A at from..to - 1 have moved up by one place. */
  ghost predicate Lifted(a: seq<int>, A: seq<int>, from: int, to: int) {
    && |a| == |A| && 0 <= from <= to < |A|
    && forall x {:trigger a[x]} | 0 <= x < |A| :: a[x] == if from < x <= to then A[x - 1] else A[x]
  }

  lemma {:induction false} LiftStep(a: seq<int>, A: seq<int>, from: int, to: int)
    requires Lifted(a, A, from, to) && from > 0
    ensures Lifted(a[from := a[from - 1]], A, from - 1, to)
  {
  }

  /** The pool cells above kk hold the tail of the list l; the rest is as it was in A. */
  ghost predicate Copied(a: seq<int>, A: seq<int>, l: seq<int>, kk: int) {
    && |a| == |A| == MTFA_SIZE && |l| == 256 && 3839 <= kk < MTFA_SIZE
    && (forall t | kk < t < MTFA_SIZE :: a[t] == l[t - 3840])
    && (forall x | 0 <= x <= kk :: a[x] == A[x])
  }

  class Pool {
    const mtfa: array<int>
    const mtfbase: array<int>

    ghost predicate Valid()
      reads this, mtfa, mtfbase
    {
      mtfa.Length == MTFA_SIZE && mtfbase.Length == 16 && mtfa != mtfbase && InOrder(mtfbase[..]) && mtfbase[0] > 0
    }

    /** The list the pool stands for. */
    ghost function List(): (r: seq<int>)
      requires Valid()
      reads this, mtfa, mtfbase
      ensures |r| == 256
    {
      ListOf(mtfa[..], mtfbase[..])
    }

    /** The list 0, 1, ..., 255 at the top of the pool. */
    constructor ()
      ensures Valid() && fresh(mtfa) && fresh(mtfbase)
      ensures forall k | 0 <= k < 256 :: List()[k] == k
    {
      mtfa := new int[MTFA_SIZE];
      mtfbase := new int[16];
      new;
      var kk := MTFA_SIZE - 1;
      for ii := 16 downto 0
        invariant kk == 3840 + 16 * ii - 1
        invariant forall t | kk < t < MTFA_SIZE :: mtfa[t] == t - 3840
        invariant forall i | ii <= i < 16 :: mtfbase[i] == 3840 + 16 * i
        modifies mtfa, mtfbase
      {
        for jj := MTFL_SIZE downto 0
          invariant kk == 3840 + 16 * ii + jj - 1
          invariant forall t | kk < t < MTFA_SIZE :: mtfa[t] == t - 3840
          modifies mtfa
        {
          mtfa[kk] := ii * MTFL_SIZE + jj;
          kk := kk - 1;
        }
        mtfbase[ii] := kk + 1;
      }
    }

    /** Where the first element of the list is. */
    lemma {:induction false} Front()
      requires Valid()
      ensures 0 <= mtfbase[0] < MTFA_SIZE && mtfa[mtfbase[0]] == List()[0]
    {
    }

    /** nn < 16: the move stays within the first segment. */
    method TakeNear(nn0: int) returns (uc: int)
      requires Valid() && 0 <= nn0 < MTFL_SIZE
      modifies mtfa
      ensures Valid() && uc == old(List())[nn0] && List() == ToFront(old(List()), nn0)
    {
      ghost var A := mtfa[..];
      var nn := nn0;
      var pp := mtfbase[0];
      uc := mtfa[pp + nn];
      assert Lifted(A, A, pp + nn, pp + nn);
      while nn > 3
        invariant 0 <= nn <= nn0 && Lifted(mtfa[..], A, pp + nn, pp + nn0)
      {
        ghost var a: seq<int> := mtfa[..];
        var z := pp + nn;
        mtfa[z] := mtfa[z - 1];
        mtfa[z - 1] := mtfa[z - 2];
        mtfa[z - 2] := mtfa[z - 3];
        mtfa[z - 3] := mtfa[z - 4];
        LiftFour(a, A, z, pp + nn0);
        assert mtfa[..] == a[z := a[z - 1]][z - 1 := a[z - 2]][z - 2 := a[z - 3]][z - 3 := a[z - 4]];
        nn := nn - 4;
      }
      while nn > 0
        invariant 0 <= nn <= nn0 && Lifted(mtfa[..], A, pp + nn, pp + nn0)
      {
        ghost var a: seq<int> := mtfa[..];
        LiftStep(a, A, pp + nn, pp + nn0);
        mtfa[pp + nn] := mtfa[pp + nn - 1];
        assert mtfa[..] == a[pp + nn := a[pp + nn - 1]];
        nn := nn - 1;
      }
      ghost var a: seq<int> := mtfa[..];
      mtfa[pp] := uc;
      assert mtfa[..] == a[pp := uc];
      NearList(A, a, mtfbase[..], nn0);
    }

    /** Takes out the element at place off of segment lno; the places before it move up. */
    method LiftSegment(lno: int, off: int) returns (uc: int)
      requires Valid() && 0 <= lno < 16 && 0 <= off < 16
      modifies mtfa
      ensures uc == old(mtfa[mtfbase[lno] + off])
      ensures Lifted(mtfa[..], old(mtfa[..]), mtfbase[lno], mtfbase[lno] + off)
    {
      ghost var A := mtfa[..];
      var pp := mtfbase[lno] + off;
      uc := mtfa[pp];
      assert Lifted(A, A, pp, pp);
      while pp > mtfbase[lno]
        invariant mtfbase[lno] <= pp <= mtfbase[lno] + off && Lifted(mtfa[..], A, pp, mtfbase[lno] + off)
      {
        ghost var a: seq<int> := mtfa[..];
        LiftStep(a, A, pp, mtfbase[lno] + off);
        mtfa[pp] := mtfa[pp - 1];
        assert mtfa[..] == a[pp := a[pp - 1]];
        pp := pp - 1;
      }
    }

    /** nn >= 16: one element leaves its segment, and each segment before it passes its last element on. */
    method TakeFar(nn: int) returns (uc: int)
      requires Valid() && MTFL_SIZE <= nn < 256
      modifies mtfa, mtfbase
      ensures Valid() && uc == old(List())[nn] && List() == ToFront(old(List()), nn)
    {
      hide Valid, List, ListOf, InOrder, ToFront;
      var lno := nn / MTFL_SIZE;
      var off := nn % MTFL_SIZE;
      SegmentIndex(nn);
      uc := TakeFrom(lno, off);
    }

    /** Takes the entry at off of segment q, not the first one. */
    method TakeFrom(q: int, off: int) returns (uc: int)
      requires Valid() && 0 < q < 16 && 0 <= off < 16
      modifies mtfa, mtfbase
      ensures Valid() && uc == old(List())[16 * q + off] && List() == ToFront(old(List()), 16 * q + off)
    {
      hide Passing, Lifted, ToFront, ListOf, List, InOrder;
      ListIs();
      ghost var A, B := mtfa[..], mtfbase[..];
      uc := LiftSegment(q, off);
      StartPassing(mtfa[..], A, B, q, off);
      mtfbase[q] := mtfbase[q] + 1;
      assert mtfbase[..] == B[q := B[q] + 1];
      PassAll(q, off, A, B);
      PutFront(uc, A, B, q, off);
    }

    /** The lifted entry goes to the front of the first segment, and a pool that is used up is packed again. */
    method PutFront(uc: int, ghost A: seq<int>, ghost B: seq<int>, ghost q: int, ghost off: int)
      requires mtfa.Length == MTFA_SIZE && mtfbase.Length == 16 && mtfa != mtfbase
      requires Passing(mtfa[..], mtfbase[..], A, B, q, off, 0) && |A| == MTFA_SIZE && InOrder(B) && 0 <= q < 16 &&
        0 <= off < 16
      requires uc == A[B[q] + off]
      modifies mtfa, mtfbase
      ensures Valid() && uc == ListOf(A, B)[16 * q + off] && List() == ToFront(ListOf(A, B), 16 * q + off)
    {
      hide Passing, ToFront, ListOf;
      ghost var a1, base1 := mtfa[..], mtfbase[..];
      FarList(a1, base1, A, B, q, off);
      mtfbase[0] := mtfbase[0] - 1;
      mtfa[mtfbase[0]] := uc;
      assert mtfbase[..] == base1[0 := base1[0] - 1];
      assert mtfa[..] == a1[base1[0] - 1 := uc];
      if mtfbase[0] == 0 {
        Repack();
      }
    }

    lemma {:induction false} ListIs()
      requires Valid()
      ensures List() == ListOf(mtfa[..], mtfbase[..]) && InOrder(mtfbase[..])
    {
    }

    /** The last entry of each earlier segment moves to the front of the next one. */
    method PassAll(q: int, off: int, ghost A: seq<int>, ghost B: seq<int>)
      requires mtfa.Length == MTFA_SIZE && mtfbase.Length == 16 && mtfa != mtfbase
      requires Passing(mtfa[..], mtfbase[..], A, B, q, off, q)
      modifies mtfa, mtfbase
      ensures Passing(mtfa[..], mtfbase[..], A, B, q, off, 0)
    {
      hide Passing;
      var lno := q;
      QAbove(mtfa[..], mtfbase[..], A, B, q, off);
      while lno > 0
        invariant 0 <= lno <= q && Passing(mtfa[..], mtfbase[..], A, B, q, off, lno)
      {
        ghost var a, base := mtfa[..], mtfbase[..];
        PassOn(a, base, A, B, q, off, lno);
        mtfbase[lno] := mtfbase[lno] - 1;
        mtfa[mtfbase[lno]] := mtfa[mtfbase[lno - 1] + MTFL_SIZE - 1];
        assert mtfbase[..] == base[lno := base[lno] - 1];
        assert mtfa[..] == a[base[lno] - 1 := a[base[lno - 1] + 15]];
        lno := lno - 1;
      }
    }

    /** Copies segment ii to its place at the top of the pool. */
    method RepackSegment(ii: int, kk0: int, ghost A: seq<int>, ghost L: seq<int>) returns (kk: int)
      requires mtfa.Length == MTFA_SIZE && mtfbase.Length == 16 && mtfa != mtfbase
      requires 0 <= ii < 16 && kk0 == 3840 + 16 * ii + 15 && |A| == MTFA_SIZE && |L| == 256
      requires 0 <= mtfbase[ii] <= 3840 + 16 * ii
      requires L[16 * ii..16 * ii + 16] == A[mtfbase[ii]..mtfbase[ii] + 16]
      requires Copied(mtfa[..], A, L, kk0)
      modifies mtfa
      ensures kk == kk0 - 16 && Copied(mtfa[..], A, L, kk)
    {
      kk := kk0;
      for jj := MTFL_SIZE downto 0
        invariant kk == 3840 + 16 * ii + jj - 1 && Copied(mtfa[..], A, L, kk)
      {
        ghost var a: seq<int> := mtfa[..];
        assert L[16 * ii..16 * ii + 16][jj] == A[mtfbase[ii]..mtfbase[ii] + 16][jj];
        mtfa[kk] := mtfa[mtfbase[ii] + jj];
        assert mtfa[..] == a[kk := L[16 * ii + jj]];
        kk := kk - 1;
      }
    }

    /** Moves all segments back to the top of the pool. */
    method Repack()
      requires mtfa.Length == MTFA_SIZE && mtfbase.Length == 16 && mtfa != mtfbase && InOrder(mtfbase[..])
      modifies mtfa, mtfbase
      ensures Valid() && List() == old(ListOf(mtfa[..], mtfbase[..]))
    {
      ghost var A, B := mtfa[..], mtfbase[..];
      ghost var L := ListOf(A, B);
      var kk := MTFA_SIZE - 1;
      assert Copied(A, A, L, kk);
      hide Copied, ListOf, InOrder;
      for ii := 16 downto 0
        invariant kk == 3840 + 16 * ii - 1 && Copied(mtfa[..], A, L, kk)
        invariant forall i | 0 <= i < 16 :: mtfbase[i] == if i < ii then B[i] else 3840 + 16 * i
      {
        SegmentOf(A, B, ii);
        kk := RepackSegment(ii, kk, A, L);
        mtfbase[ii] := kk + 1;
      }
      RepackedList(mtfa[..], mtfbase[..], A, L);
    }

    /** Moves element nn of the list to the front and returns it. */
    method Take(nn: int) returns (uc: int)
      requires Valid() && 0 <= nn < 256
      modifies mtfa, mtfbase
      ensures Valid() && uc == old(List())[nn] && List() == ToFront(old(List()), nn)
    {
      if nn < MTFL_SIZE {
        uc := TakeNear(nn);
      } else {
        uc := TakeFar(nn);
      }
    }
  }

  lemma {:induction false} SplitIndex(i: int, o: int)
    requires 0 <= o < 16
    ensures (16 * i + o) / 16 == i && (16 * i + o) % 16 == o
  {
  }

  lemma {:induction false} LiftFour(a: seq<int>, A: seq<int>, z: int, to: int)
    requires Lifted(a, A, z, to) && z > 3
    ensures Lifted(a[z := a[z - 1]][z - 1 := a[z - 2]][z - 2 := a[z - 3]][z - 3 := a[z - 4]], A, z - 4, to)
  {
    LiftStep(a, A, z, to);
    var a1 := a[z := a[z - 1]];
    LiftStep(a1, A, z - 1, to);
    var a2 := a1[z - 1 := a[z - 2]];
    LiftStep(a2, A, z - 2, to);
    LiftStep(a2[z - 2 := a[z - 3]], A, z - 3, to);
  }

  lemma {:induction false} NearList(A: seq<int>, a: seq<int>, base: seq<int>, nn: int)
    requires |A| == MTFA_SIZE && InOrder(base) && 0 <= nn < 16 && Lifted(a, A, base[0], base[0] + nn)
    ensures ListOf(A, base)[nn] == A[base[0] + nn]
    ensures ListOf(a[base[0] := A[base[0] + nn]], base) == ToFront(ListOf(A, base), nn)
  {
    var a' := a[base[0] := A[base[0] + nn]];
    var l, l' := ListOf(A, base), ListOf(a', base);
    forall k | 0 <= k < 256 ensures l'[k] == ToFront(l, nn)[k] {
      assert l'[k] == Element(a', base, k) && l[k] == Element(A, base, k);
      if k >= 16 {
        assert base[k / 16] >= base[0] + 16;
      } else if 0 < k <= nn {
        assert l[k - 1] == Element(A, base, k - 1);
      }
    }
  }

  lemma {:induction false} SegmentIndex(nn: int)
    requires MTFL_SIZE <= nn < 256
    ensures 0 < nn / MTFL_SIZE < 16 && 0 <= nn % MTFL_SIZE < 16 && 16 * (nn / MTFL_SIZE) + nn % MTFL_SIZE == nn
  {
  }

  lemma {:induction false} StartPassing(a: seq<int>, A: seq<int>, B: seq<int>, q: int, off: int)
    requires |A| == MTFA_SIZE && InOrder(B) && B[0] > 0 && 0 < q < 16 && 0 <= off < 16
    requires Lifted(a, A, B[q], B[q] + off)
    ensures Passing(a, B[q := B[q] + 1], A, B, q, off, q)
  {
    forall i, o | 0 <= i < 16 && 0 <= o < 16 && (i != q || off < o) ensures Cell(a, B, i, o) == Cell(A, B, i, o) {
      assert i != q ==> B[i] + o < B[q] || B[q] + 16 <= B[i] + o;
    }
  }

  /** The place before segment i holds what was the last element of segment i - 1. */
  ghost predicate TookOver(a: seq<int>, A: seq<int>, B: seq<int>, i: int)
    requires |a| == |A| == MTFA_SIZE && InOrder(B) && B[0] > 0 && 0 < i < 16
  {
    a[B[i] - 1] == Cell(A, B, i - 1, 15)
  }

  /** Segments above m and up to q have taken over the last element of their predecessor. */
  ghost predicate Passing(a: seq<int>, base: seq<int>, A: seq<int>, B: seq<int>, q: int, off: int, m: int) {
    && |a| == |A| == MTFA_SIZE && InOrder(B) && B[0] > 0 && |base| == 16 && 0 <= m <= q < 16 && 0 < q && 0 <= off < 16
    && (forall i | 0 <= i < 16 ::
        base[i] == if i == q then (if m == q then B[q] + 1 else B[q]) else if m < i < q then B[i] - 1 else B[i])
    && (forall x | B[q] < x <= B[q] + off :: a[x] == A[x - 1])
    && (m < q ==> a[B[q]] == Cell(A, B, q - 1, 15))
    && (forall i {:trigger TookOver(a, A, B, i)} | m < i < q :: TookOver(a, A, B, i))
    && (forall i, o {:trigger Cell(a, B, i, o)} | 0 <= i < 16 && 0 <= o < 16 &&
        (i != q || off < o) :: Cell(a, B, i, o) == Cell(A, B, i, o))
  }

  lemma {:induction false} QAbove(a: seq<int>, base: seq<int>, A: seq<int>, B: seq<int>, q: int, off: int)
    requires Passing(a, base, A, B, q, off, q)
    ensures 0 < q < 16
  {
  }

  lemma {:induction false} PassOn(a: seq<int>, base: seq<int>, A: seq<int>, B: seq<int>, q: int, off: int, m: int)
    requires Passing(a, base, A, B, q, off, m) && m > 0
    ensures 0 <= base[m] - 1 < MTFA_SIZE && 0 <= base[m - 1] + 15 < MTFA_SIZE
    ensures Passing(a[base[m] - 1 := a[base[m - 1] + 15]], base[m := base[m] - 1], A, B, q, off, m - 1)
  {
    var x := base[m] - 1;
    var a' := a[x := a[base[m - 1] + 15]];
    assert Cell(a, B, m - 1, 15) == Cell(A, B, m - 1, 15);
    forall i | m - 1 < i < q ensures TookOver(a', A, B, i) {
      assert i > m ==> TookOver(a, A, B, i);
    }
    forall i, o | 0 <= i < 16 && 0 <= o < 16 && (i != q || off < o) ensures Cell(a', B, i, o) == Cell(A, B, i, o) {
      assert Cell(a, B, i, o) == Cell(A, B, i, o);
      if B[i] + o == x {
        assert i == m - 1 && o == 15;
      }
    }
  }

  lemma {:induction false} FarList(a: seq<int>, base: seq<int>, A: seq<int>, B: seq<int>, q: int, off: int)
    requires Passing(a, base, A, B, q, off, 0)
    ensures 0 <= base[0] - 1 && InOrder(base[0 := base[0] - 1])
    ensures ListOf(A, B)[16 * q + off] == A[B[q] + off]
    ensures ListOf(a[base[0] - 1 := A[B[q] + off]], base[0 := base[0] - 1]) == ToFront(ListOf(A, B), 16 * q + off)
  {
    var a', base' := a[base[0] - 1 := A[B[q] + off]], base[0 := base[0] - 1];
    var l, l' := ListOf(A, B), ListOf(a', base');
    SplitIndex(q, off);
    forall k | 0 <= k < 256 ensures l'[k] == ToFront(l, 16 * q + off)[k] {
      assert l'[k] == Element(a', base', k) && l[k] == Element(A, B, k);
      FarElement(a, base, A, B, q, off, k);
    }
  }

  lemma {:induction false} FarElement(a: seq<int>, base: seq<int>, A: seq<int>, B: seq<int>, q: int, off: int, k: int)
    requires Passing(a, base, A, B, q, off, 0) && 0 <= k < 256
    requires InOrder(base[0 := base[0] - 1])
    ensures var a', base' := a[base[0] - 1 := A[B[q] + off]], base[0 := base[0] - 1];
            Element(a', base', k) == if k == 0 then A[B[q] + off] else if k <= 16 * q + off then Element(A, B, k - 1)
              else Element(A, B, k)
  {
    var i, o := k / 16, k % 16;
    var x, a', base' := base[0] - 1, a[base[0] - 1 := A[B[q] + off]], base[0 := base[0] - 1];
    assert k == 16 * i + o;
    if i > q || (i == q && o > off) {
      assert Cell(a, B, i, o) == Cell(A, B, i, o);
      assert base'[i] == B[i] && B[i] + o > x;
    } else if o > 0 {
      SplitIndex(i, o - 1);
      assert Element(A, B, k - 1) == A[B[i] + o - 1];
      if i < q {
        assert Cell(a, B, i, o - 1) == Cell(A, B, i, o - 1);
        assert base'[i] == B[i] - 1 >= x;
      } else {
        assert base'[i] == B[i] > x;
      }
    } else if i > 0 {
      SplitIndex(i - 1, 15);
      assert Element(A, B, k - 1) == A[B[i - 1] + 15];
      assert base'[i] == (if i < q then B[i] - 1 else B[i]) > x;
      assert i < q ==> TookOver(a, A, B, i);
    }
  }

  lemma {:induction false} SegmentOf(A: seq<int>, B: seq<int>, ii: int)
    requires |A| == MTFA_SIZE && InOrder(B) && 0 <= ii < 16
    ensures 0 <= B[ii] <= 3840 + 16 * ii
    ensures ListOf(A, B)[16 * ii..16 * ii + 16] == A[B[ii]..B[ii] + 16]
  {
    RoomAbove(B, ii);
    var s := ListOf(A, B)[16 * ii..16 * ii + 16];
    forall o | 0 <= o < 16 ensures s[o] == A[B[ii]..B[ii] + 16][o] {
      SplitIndex(ii, o);
      assert s[o] == Element(A, B, 16 * ii + o);
    }
  }

  lemma {:induction false} RepackedList(a: seq<int>, base: seq<int>, A: seq<int>, l: seq<int>)
    requires Copied(a, A, l, 3839) && |base| == 16 && forall i | 0 <= i < 16 :: base[i] == 3840 + 16 * i
    ensures InOrder(base) && ListOf(a, base) == l
  {
  }

  lemma {:induction false} RoomAbove(B: seq<int>, ii: int)
    requires InOrder(B) && 0 <= ii < 16
    ensures B[ii] <= 3840 + 16 * ii
    decreases 16 - ii
  {
    if ii < 15 {
      RoomAbove(B, ii + 1);
      assert B[ii] + 16 <= B[ii + 1];
    }
  }
}
