/**
 * The decoder's fast inverse transform: one word per block position, holding a symbol in
 * the low byte and, once linked, the position of the next symbol above it.
 */
module FastDecode {
  import opened Bits
  import opened Rotations
  import opened InverseBwt
  import opened Counting

  /** More than any block can hold: 9 * 100000 bytes. */
  const MAX_BLOCK := 900_000

  /** tt[i] as the linking loop leaves it once the first i positions have been threaded. */
  ghost predicate Linked(w: nat, l: seq<Byte>, y: int, i: nat)
    requires 0 <= y < |l| && i <= |l|
  {
    w == l[y] + 256 * (if FromSlot(l, y) < i then FromSlot(l, y) else 0)
  }

  lemma {:induction false} PackWord(sym: Byte, i: nat)
    ensures Or(sym, i * 256) == sym + 256 * i
  {
    assert Pow2(8) == 256 by { Pow2Values(); }
    hide Or, Pow2;
    OrDisjoint(sym, i * 256, 8);
  }

  lemma {:induction false} AndLowByte(x: nat)
    ensures And(x, 0xff) == x % 256
  {
    Pow2Values();
    AndLowMask(x, 8);
    hide And, Pow2;
  }

  lemma {:induction false} LowByte(sym: Byte, i: nat)
    ensures And(sym + 256 * i, 0xff) == sym
  {
    hide And;
    var x := sym + 256 * i;
    AndLowByte(x);
    DivModUnique(x, 256, i, sym);
  }

  lemma {:induction false} ReadSymbol(w: nat, l: seq<Byte>, y: int, i: nat)
    requires 0 <= y < |l| && i <= |l| && Linked(w, l, y, i)
    ensures And(w, 0xff) == l[y]
  {
    LowByte(l[y], if FromSlot(l, y) < i then FromSlot(l, y) else 0);
  }

  lemma {:induction false} ThreadOne(w: nat, l: seq<Byte>, y: int, i: nat)
    requires 0 <= y < |l| && i < |l| && Linked(w, l, y, i)
    ensures Linked(if y == Slot(l, i) then Or(w, i * 256) else w, l, y, i + 1)
  {
    if y == Slot(l, i) {
      CountingOrderOf(l, i);
      assert FromSlot(l, y) == i;
      PackWord(l[y], i);
    } else {
      assert FromSlot(l, y) != i;
    }
  }

  lemma {:induction false} LinkedDone(w: nat, l: seq<Byte>, y: int)
    requires 0 <= y < |l| <= MAX_BLOCK && Linked(w, l, y, |l|)
    ensures w == l[y] + 256 * CountingOrder(l)[y] < WORD
  {
  }

  /** Running totals turn the symbol counts into the start of each symbol's bucket. */
  method StartTable(unzftab: array<int>, cftab: array<int>, ghost l: seq<Byte>)
    requires unzftab.Length == 256 && cftab.Length == 257 && unzftab != cftab
    requires forall c | 0 <= c < 256 :: unzftab[c] == Count(l, c, |l|)
    modifies cftab
    ensures forall c | 0 <= c <= 256 :: cftab[c] == Below(l, c, |l|)
  {
    cftab[0] := 0;
    for i := 1 to 257
      invariant cftab[0] == 0
      invariant forall c | 1 <= c < i :: cftab[c] == unzftab[c - 1]
    {
      cftab[i] := unzftab[i - 1];
    }
    BelowEnds(l, |l|);
    for i := 1 to 257
      invariant forall c | 0 <= c < i :: cftab[c] == Below(l, c, |l|)
      invariant forall c | i <= c < 257 :: cftab[c] == unzftab[c - 1]
    {
      BelowStep(l, i - 1, |l|);
      cftab[i] := cftab[i] + cftab[i - 1];
    }
  }

  /** All words, the first i positions threaded. */
  ghost predicate AllLinked(tt: seq<int>, l: seq<Byte>, i: nat)
    requires i <= |l|
  {
    |l| <= |tt| && forall y | 0 <= y < |l| :: 0 <= tt[y] && Linked(tt[y], l, y, i)
  }

  ghost predicate Starts(cf: seq<int>, l: seq<Byte>, i: nat)
    requires i <= |l|
  {
    |cf| == 257 && forall c | 0 <= c < 256 :: cf[c] == Fill(l, c, i)
  }

  lemma {:induction false} LinkStart(tt: seq<int>, cf: seq<int>, l: seq<Byte>)
    requires |l| <= |tt| && |cf| == 257
    requires (forall i | 0 <= i < |l| :: tt[i] == l[i] as int) && forall c | 0 <= c <= 256 :: cf[c] == Below(l, c, |l|)
    ensures AllLinked(tt, l, 0) && Starts(cf, l, 0)
  {
  }

  lemma {:induction false} LinkStep(tt: seq<int>, cf: seq<int>, l: seq<Byte>, i: nat)
    requires i < |l| && AllLinked(tt, l, i) && Starts(cf, l, i)
    ensures 0 <= tt[i] && And(tt[i], 0xff) == l[i] as int
    ensures var c := l[i] as int; var k := cf[c];
      && 0 <= k < |l| && 0 <= tt[k]
      && AllLinked(tt[k := Or(tt[k], i * 256)], l, i + 1) && Starts(cf[c := cf[c] + 1], l, i + 1)
  {
    var k := cf[l[i] as int];
    FillStep(l, i);
    ReadSymbol(tt[i], l, i, i);
    var u := tt[k := Or(tt[k], i * 256)];
    hide Fill, Slot, Linked;
    forall y | 0 <= y < |l| ensures 0 <= u[y] && Linked(u[y], l, y, i + 1) {
      ThreadOne(tt[y], l, y, i);
    }
  }

  /** Threads the position of each symbol into the slot where a stable sort would put it. */
  method LinkTt(tt: array<int>, cftab: array<int>, nblock: int, ghost l: seq<Byte>)
    requires tt != cftab && cftab.Length == 257
    requires nblock == |l| <= tt.Length && nblock <= MAX_BLOCK
    requires forall i | 0 <= i < nblock :: tt[i] == l[i] as int
    requires forall c | 0 <= c <= 256 :: cftab[c] == Below(l, c, |l|)
    modifies tt, cftab
    ensures IsThreaded(tt[..], l, CountingOrder(l))
  {
    LinkStart(tt[..], cftab[..], l);
    hide Fill, Slot, Linked, AllLinked, Starts, And, Or, IsThreaded;
    for i := 0 to nblock
      invariant AllLinked(tt[..], l, i) && Starts(cftab[..], l, i)
    {
      LinkOne(tt, cftab, i, l);
    }
    Threaded(tt[..], l);
  }

  method LinkOne(tt: array<int>, cftab: array<int>, i: int, ghost l: seq<Byte>)
    requires tt != cftab && 0 <= i < |l| && AllLinked(tt[..], l, i) && Starts(cftab[..], l, i)
    modifies tt, cftab
    ensures AllLinked(tt[..], l, i + 1) && Starts(cftab[..], l, i + 1)
  {
    ghost var w, cf := tt[..], cftab[..];
    LinkStep(w, cf, l, i);
    hide AllLinked, Starts, And, Or;
    var uc := And(tt[i], 0xff);
    var k := cftab[uc];
    tt[k] := Or(tt[k], i * 256);
    cftab[uc] := cftab[uc] + 1;
    assert tt[..] == w[k := Or(w[k], i * 256)] && cftab[..] == cf[uc := cf[uc] + 1];
  }

  /** t leads from each position to one of the positions of l. */
  ghost predicate Leads(l: seq<Byte>, t: seq<int>) {
    |t| == |l| && forall y | 0 <= y < |l| :: 0 <= t[y] < |l|
  }

  /** Each word holds its symbol and the position of the next one. */
  ghost predicate IsThreaded(tt: seq<int>, l: seq<Byte>, t: seq<int>) {
    Leads(l, t) && |l| <= |tt| && forall y | 0 <= y < |l| :: tt[y] == l[y] as int + 256 * t[y] < WORD
  }

  lemma {:induction false} Threaded(tt: seq<int>, l: seq<Byte>)
    requires |l| <= MAX_BLOCK && AllLinked(tt, l, |l|)
    ensures IsThreaded(tt, l, CountingOrder(l))
  {
    forall y | 0 <= y < |l| ensures tt[y] == l[y] as int + 256 * CountingOrder(l)[y] < WORD {
      LinkedDone(tt[y], l, y);
    }
  }

  // ---- fetching symbols

  /** m symbols from position q on, each read where the walk stands before it moves on along t. */
  ghost function Fetch(l: seq<Byte>, t: seq<int>, q: int, m: nat): (r: seq<Byte>)
    requires Leads(l, t) && 0 <= q < |l|
    ensures |r| == m
    decreases m
  {
    if m == 0 then [] else [l[q]] + Fetch(l, t, t[q], m - 1)
  }

  lemma {:induction false} FetchNone(l: seq<Byte>, t: seq<int>, q: int)
    requires Leads(l, t) && 0 <= q < |l|
    ensures Fetch(l, t, q, 0) == []
  {
  }

  lemma {:induction false} FetchStep(l: seq<Byte>, t: seq<int>, q: int, m: nat)
    requires Leads(l, t) && 0 <= q < |l|
    ensures 0 <= t[q] < |l|
    ensures Fetch(l, t, q, m + 1)[0] == l[q] && Fetch(l, t, q, m + 1)[1..] == Fetch(l, t, t[q], m)
  {
  }

  /** Fetching from where x leads is the walk from x. */
  lemma {:induction false} FetchIsWalk(l: seq<Byte>, t: seq<int>, x: int, m: nat)
    requires Leads(l, t) && 0 <= x < |l|
    ensures Fetch(l, t, t[x], m) == Walk(t, l, x, m)
    decreases m
  {
    if m > 0 { FetchIsWalk(l, t, t[x], m - 1); }
  }

  lemma {:induction false} ThreadedAt(tt: seq<int>, l: seq<Byte>, t: seq<int>, y: int)
    requires IsThreaded(tt, l, t) && 0 <= y < |l|
    ensures y < |tt| && 0 <= tt[y] && And(tt[y], 0xff) == l[y] as int && tt[y] / 256 == t[y] && 0 <= t[y] < |l|
  {
    hide And;
    UnpackWord(tt[y], l[y], t[y]);
  }

  lemma {:induction false} UnpackWord(w: int, c: Byte, q: int)
    requires w == c as int + 256 * q && 0 <= q
    ensures 0 <= w && And(w, 0xff) == c as int && w / 256 == q
  {
    hide And;
    LowByte(c, q);
  }

  /** BZ_GET_FAST: the symbol where tPos stands, and where to go next; false for a position no block has. */
  method GetFast(tt: array<int>, tPos: int, blockSize100k: int, ghost l: seq<Byte>, ghost t: seq<int>)
    returns (ok: bool, c: int, tPos': int)
    requires IsThreaded(tt[..], l, t) && 0 <= tPos < |l| <= 100_000 * blockSize100k
    ensures ok && c == l[tPos] as int && |t| == |l| && tPos' == t[tPos] && 0 <= tPos' < |l|
  {
    if tPos >= 100_000 * blockSize100k { return false, 0, 0; }
    ThreadedAt(tt[..], l, t, tPos);
    hide And;
    var w := tt[tPos];
    c := And(w, 0xff);
    tPos' := w / 256;
    ok := true;
  }
}
