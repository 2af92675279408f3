/**
 * The encoder's move-to-front stage. The 16-bit symbols are written over the sorted order
 * they are computed from, in the same array.
 */
module MtfEncode {
  import opened Bits
  import opened Rotations
  import opened InverseBwt
  import opened ByteView
  import opened MoveToFront

  // ---- which bytes are in use

  /** How many bytes less than v are in use. */
  function Rank(inUse: seq<bool>, v: nat): (r: nat)
    requires v <= |inUse|
    ensures r <= v
  {
    if v == 0 then 0 else Rank(inUse, v - 1) + if inUse[v - 1] then 1 else 0
  }

  lemma {:induction false} RankMono(inUse: seq<bool>, v: nat, w: nat)
    requires v <= w <= |inUse|
    ensures Rank(inUse, v) <= Rank(inUse, w)
    ensures v < w && inUse[v] ==> Rank(inUse, v) < Rank(inUse, w)
    decreases w
  {
    if v < w { RankMono(inUse, v, w - 1); }
  }

  method MakeMapsE(inUse: array<bool>, unseqToSeq: array<int>) returns (nInUse: int)
    requires inUse.Length == 256 && unseqToSeq.Length == 256
    modifies unseqToSeq
    ensures nInUse == Rank(inUse[..], 256)
    ensures forall v | 0 <= v < 256 && inUse[v] :: unseqToSeq[v] == Rank(inUse[..], v) < nInUse
  {
    nInUse := 0;
    for i := 0 to 256
      invariant nInUse == Rank(inUse[..], i)
      invariant forall v | 0 <= v < i && inUse[v] :: unseqToSeq[v] == Rank(inUse[..], v)
    {
      if inUse[i] {
        unseqToSeq[i] := nInUse;
        nInUse := nInUse + 1;
      }
    }
    forall v | 0 <= v < 256 && inUse[v] ensures Rank(inUse[..], v) < nInUse {
      RankMono(inUse[..], v, 256);
    }
  }

  // ---- 16-bit symbols in an array of words

  /** Half-word k of the words w. */
  function HalfAt(w: seq<int>, k: int): int
    requires 0 <= k < 2 * |w|
  {
    if k % 2 == 0 then w[k / 2] % 0x1_0000 else w[k / 2] / 0x1_0000
  }

  lemma {:induction false} HalfSet(w: int, k: int, v: int)
    requires 0 <= w < WORD && 0 <= v < 0x1_0000
    ensures var u := if k % 2 == 0 then w - w % 0x1_0000 + v else w % 0x1_0000 + 0x1_0000 * v;
            0 <= u < WORD && (k % 2 == 0 ==> u % 0x1_0000 == v && u / 0x1_0000 == w / 0x1_0000)
            && (k % 2 == 1 ==> u / 0x1_0000 == v && u % 0x1_0000 == w % 0x1_0000)
  {
  }

  /** Storing symbol k changes that half-word and no other. */
  method PutSymbol(mtfv: array<int>, k: int, v: int)
    requires 0 <= k < 2 * mtfv.Length && 0 <= v < 0x1_0000
    requires 0 <= mtfv[k / 2] < WORD
    modifies mtfv
    ensures 0 <= mtfv[k / 2] < WORD && forall i | 0 <= i < mtfv.Length && i != k / 2 :: mtfv[i] == old(mtfv[i])
    ensures forall j | 0 <= j < 2 * mtfv.Length :: HalfAt(mtfv[..], j) == if j == k then v else old(HalfAt(mtfv[..], j))
  {
    ghost var w: seq<int> := mtfv[..];
    HalfSet(w[k / 2], k, v);
    mtfv[k / 2] := if k % 2 == 0 then mtfv[k / 2] - mtfv[k / 2] % 0x1_0000 + v
                   else mtfv[k / 2] % 0x1_0000 + 0x1_0000 * v;
    forall j | 0 <= j < 2 * |w| ensures HalfAt(mtfv[..], j) == if j == k then v else HalfAt(w, j) {
      if j / 2 == k / 2 && j != k { assert j % 2 != k % 2; }
    }
  }

  // ---- the list yy

  /** Finds ll in the list, which does not start with it, and moves it to the front. */
  method MoveFound(yy: array<int>, ll: int, nInUse: int) returns (j: int)
    requires 0 < nInUse <= yy.Length && ll in yy[..nInUse] && yy[0] != ll
    modifies yy
    ensures j == IndexOf(old(yy[..nInUse]), ll) > 0
    ensures yy[..nInUse] == ToFront(old(yy[..nInUse]), j)
  {
    ghost var list := yy[..nInUse];
    ghost var at := IndexOf(list, ll);
    assert list[at] == ll && at > 0;
    var rtmp := yy[1];
    yy[1] := yy[0];
    j := 1;
    while ll != rtmp
      invariant 1 <= j <= at && rtmp == list[j]
      invariant yy[0] == list[0] && forall k | 1 <= k <= j :: yy[k] == list[k - 1]
      invariant forall k | j < k < nInUse :: yy[k] == list[k]
      decreases at - j
    {
      j := j + 1;
      var rtmp2 := rtmp;
      rtmp := yy[j];
      yy[j] := rtmp2;
    }
    forall k | 0 <= k < at ensures list[k] != ll { assert list[k] == list[..at][k]; }
    assert j == at;
    yy[0] := rtmp;
    assert yy[..nInUse] == ToFront(list, j);
  }

  // ---- the symbols written so far

  /** The first |out| half-words of w are out, freq counts its symbols below m, and the first nb words have 32 bits. */
  ghost predicate Written(w: seq<int>, freq: seq<int>, m: int, out: seq<int>, nb: int) {
    && |out| <= 2 * nb && 0 <= nb <= |w| && 0 <= m <= |freq|
    && (forall i | 0 <= i < nb :: 0 <= w[i] < WORD)
    && (forall k | 0 <= k < |out| :: HalfAt(w, k) == out[k])
    && (forall v | 0 <= v < m :: freq[v] == multiset(out)[v])
  }

  /** Appends one symbol. Words beyond the symbols written keep what they held. */
  method Emit(mtfv: array<int>, mtfFreq: array<int>, wr: int, v: int, ghost m: int, ghost out: seq<int>, ghost nb: int)
    returns (wr': int)
    requires mtfv != mtfFreq && Written(mtfv[..], mtfFreq[..], m, out, nb) && |out| == wr < 2 * nb
    requires 0 <= v < m <= 258
    modifies mtfv, mtfFreq
    ensures wr' == wr + 1 && Written(mtfv[..], mtfFreq[..], m, out + [v], nb)
    ensures forall i | wr' <= i < mtfv.Length :: mtfv[i] == old(mtfv[i])
  {
    PutSymbol(mtfv, wr, v);
    mtfFreq[v] := mtfFreq[v] + 1;
    wr' := wr + 1;
    assert multiset(out + [v]) == multiset(out) + multiset{v};
    assert mtfFreq[..] == old(mtfFreq[..])[v := old(mtfFreq[v]) + 1];
  }

  lemma {:induction false} RunStep(z: nat)
    ensures RunSymbols(z + 1) == [if z % 2 == 1 then RUNB else RUNA] + RunSymbols(z / 2) && RunSymbols(0) == []
  {
  }

  /** Writes a pending run of zeros as run symbols. */
  method FlushRun(mtfv: array<int>, mtfFreq: array<int>, wr: int, zPend0: int, ghost m: int, ghost out: seq<int>,
    ghost nb: int)
    returns (wr': int)
    requires mtfv != mtfFreq && Written(mtfv[..], mtfFreq[..], m, out, nb) && 2 <= m <= 258
    requires 0 < zPend0 && |out| == wr && wr + zPend0 <= 2 * nb
    modifies mtfv, mtfFreq
    ensures Written(mtfv[..], mtfFreq[..], m, out + RunSymbols(zPend0), nb) && wr' == wr + |RunSymbols(zPend0)|
    ensures forall i | wr' <= i < mtfv.Length :: mtfv[i] == old(mtfv[i])
  {
    hide Written, RunSymbols;
    ghost var out', full := out, out + RunSymbols(zPend0);
    wr' := wr;
    var zPend := zPend0 - 1;
    while true
      invariant 0 <= zPend && out' + RunSymbols(zPend + 1) == full
      invariant Written(mtfv[..], mtfFreq[..], m, out', nb) && |out'| == wr' && wr' + zPend < 2 * nb
      invariant forall i | wr' <= i < mtfv.Length :: mtfv[i] == old(mtfv[i])
      decreases zPend
    {
      var v := if zPend % 2 == 1 then RUNB else RUNA;
      RunStep(zPend);
      wr' := Emit(mtfv, mtfFreq, wr', v, m, out', nb);
      out' := out' + [v];
      assert out' + RunSymbols(zPend / 2) == full;
      if zPend < 2 {
        assert out' == full;
        break;
      }
      zPend := (zPend - 2) / 2;
    }
  }

  // ---- the whole stage

  /** The symbol numbers of the last column. */
  function ColumnSymbols(b: Block, p: seq<int>, inUse: seq<bool>): (r: seq<int>)
    requires |inUse| == 256
    ensures |r| == |p|
  {
    seq(|p|, i requires 0 <= i < |p| => Rank(inUse, LastColumn(b, p)[i]))
  }

  /** What the stage transmits for block b in sorted order p. */
  function BlockSymbols(b: Block, p: seq<int>, inUse: seq<bool>): (r: seq<int>)
    requires |inUse| == 256 && forall i | 0 <= i < |b| :: inUse[b[i]]
  {
    var n := Rank(inUse, 256);
    ColumnInList(b, p, inUse);
    SymbolStream(Indices(Identity(n), ColumnSymbols(b, p, inUse)), 0, n + 1)
  }

  lemma {:induction false} ColumnInList(b: Block, p: seq<int>, inUse: seq<bool>)
    requires |inUse| == 256 && forall i | 0 <= i < |b| :: inUse[b[i]]
    ensures AllIn(ColumnSymbols(b, p, inUse), Identity(Rank(inUse, 256)))
    ensures Rank(inUse, 256) > 0
  {
    var n := Rank(inUse, 256);
    RankMono(inUse, b[0], 256);
    forall i | 0 <= i < |p| ensures ColumnSymbols(b, p, inUse)[i] in Identity(n) {
      RankMono(inUse, LastColumn(b, p)[i], 256);
      assert Identity(n)[ColumnSymbols(b, p, inUse)[i]] == ColumnSymbols(b, p, inUse)[i];
    }
  }

  /** The state between two positions: out is written, l is still to come, z zeros are pending. */
  ghost predicate Coding(out: seq<int>, list: seq<int>, l: seq<int>, z: int, eob: int, full: seq<int>) {
    z >= 0 && AllIn(l, list) && out + SymbolStream(Indices(list, l), z, eob) == full
  }

  lemma {:induction false} CodeZero(out: seq<int>, list: seq<int>, l: seq<int>, z: int, eob: int, full: seq<int>)
    requires Coding(out, list, l, z, eob, full) && |l| > 0 && |list| > 0 && l[0] == list[0]
    ensures Coding(out, list, l[1..], z + 1, eob, full)
  {
    assert IndexOf(list, l[0]) == 0;
    assert ToFront(list, 0) == list;
    assert Indices(list, l) == [0] + Indices(list, l[1..]);
  }

  lemma {:induction false} CodeSymbol(out: seq<int>, list: seq<int>, l: seq<int>, z: int, eob: int, full: seq<int>)
    requires Coding(out, list, l, z, eob, full) && |l| > 0 && |list| > 0 && l[0] != list[0]
    ensures l[0] in list && IndexOf(list, l[0]) > 0
    ensures Coding(out + RunSymbols(z) + [IndexOf(list, l[0]) + 1], ToFront(list, IndexOf(list, l[0])), l[1..], 0, eob,
      full)
  {
    var j := IndexOf(list, l[0]);
    AllInNext(l, list, j);
    var more := SymbolStream(Indices(ToFront(list, j), l[1..]), 0, eob);
    assert Indices(list, l) == [j] + Indices(ToFront(list, j), l[1..]);
    assert out + (RunSymbols(z) + [j + 1] + more) == (out + RunSymbols(z) + [j + 1]) + more;
  }

  lemma {:induction false} CodeEnd(out: seq<int>, list: seq<int>, l: seq<int>, z: int, eob: int, full: seq<int>)
    requires Coding(out, list, l, z, eob, full) && |l| == 0
    ensures full == out + RunSymbols(z) + [eob]
  {
    assert out + (RunSymbols(z) + [eob]) == out + RunSymbols(z) + [eob];
  }

  lemma {:induction false} PrecedingByte(b: Block, v: int)
    requires 0 <= v < |b|
    ensures Ch(b, v, -1) == b[Before(v, |b|)]
  {
    if v == 0 {
      DivModUnique(-1, |b|, -1, |b| - 1);
    } else {
      DivModUnique(v - 1, |b|, 0, v - 1);
    }
  }

  /** Writes the pending run, if there is one. */
  method FlushPending(mtfv: array<int>, mtfFreq: array<int>, wr: int, zPend: int, ghost m: int, ghost out: seq<int>,
    ghost nb: int)
    returns (wr': int)
    requires mtfv != mtfFreq && Written(mtfv[..], mtfFreq[..], m, out, nb) && 2 <= m <= 258
    requires 0 <= zPend && |out| == wr && wr + zPend <= 2 * nb
    modifies mtfv, mtfFreq
    ensures Written(mtfv[..], mtfFreq[..], m, out + RunSymbols(zPend), nb) &&
      wr' == wr + |RunSymbols(zPend)| <= wr + zPend
    ensures forall i | wr' <= i < mtfv.Length :: mtfv[i] == old(mtfv[i])
  {
    wr' := wr;
    if zPend > 0 {
      wr' := FlushRun(mtfv, mtfFreq, wr, zPend, m, out, nb);
    } else {
      assert out + RunSymbols(zPend) == out;
    }
  }

  /** A symbol that is not at the front of the list: the pending run, then the symbol's index. */
  method CodeNonZero(mtfv: array<int>, mtfFreq: array<int>, yy: array<int>, nInUse: int, ll_i: int, wr: int, zPend: int,
    ghost out: seq<int>, ghost l: seq<int>, ghost full: seq<int>, ghost nb: int)
    returns (wr': int, ghost out': seq<int>)
    requires mtfv != mtfFreq && mtfv != yy && mtfFreq != yy && 0 < nInUse <= yy.Length && nInUse + 2 <= 258
    requires Written(mtfv[..], mtfFreq[..], nInUse + 2, out, nb) && |out| == wr && wr + zPend < nb
    requires |l| > 0 && l[0] == ll_i && yy[0] != ll_i && Coding(out, yy[..nInUse], l, zPend, nInUse + 1, full)
    modifies mtfv, mtfFreq, yy
    ensures Written(mtfv[..], mtfFreq[..], nInUse + 2, out', nb) && |out'| == wr' <= wr + zPend + 1
    ensures Coding(out', yy[..nInUse], l[1..], 0, nInUse + 1, full)
    ensures forall i | wr + zPend < i < mtfv.Length :: mtfv[i] == old(mtfv[i])
  {
    hide Written, Coding, IndexOf, ToFront, RunSymbols;
    ghost var list := yy[..nInUse];
    CodeSymbol(out, list, l, zPend, nInUse + 1, full);
    wr' := FlushPending(mtfv, mtfFreq, wr, zPend, nInUse + 2, out, nb);
    out' := out + RunSymbols(zPend);
    var j := MoveFound(yy, ll_i, nInUse);
    wr' := Emit(mtfv, mtfFreq, wr', j + 1, nInUse + 2, out', nb);
    out' := out' + [j + 1];
  }

  /** One position of the main loop. */
  method CodeOne(mtfv: array<int>, mtfFreq: array<int>, yy: array<int>, nInUse: int, ll_i: int, wr: int, zPend: int,
    ghost out: seq<int>, ghost l: seq<int>, ghost full: seq<int>, ghost nb: int)
    returns (wr': int, zPend': int, ghost out': seq<int>)
    requires mtfv != mtfFreq && mtfv != yy && mtfFreq != yy && 0 < nInUse <= yy.Length && nInUse + 2 <= 258
    requires Written(mtfv[..], mtfFreq[..], nInUse + 2, out, nb) && |out| == wr && 0 <= zPend && wr + zPend < nb
    requires |l| > 0 && l[0] == ll_i && Coding(out, yy[..nInUse], l, zPend, nInUse + 1, full)
    modifies mtfv, mtfFreq, yy
    ensures Written(mtfv[..], mtfFreq[..], nInUse + 2, out', nb) && |out'| == wr' && 0 <= zPend' &&
      wr' + zPend' <= wr + zPend + 1
    ensures Coding(out', yy[..nInUse], l[1..], zPend', nInUse + 1, full)
    ensures forall i | wr + zPend < i < mtfv.Length :: mtfv[i] == old(mtfv[i])
  {
    hide Written, Coding;
    if yy[0] == ll_i {
      CodeZero(out, yy[..nInUse], l, zPend, nInUse + 1, full);
      wr', zPend', out' := wr, zPend + 1, out;
    } else {
      wr', out' := CodeNonZero(mtfv, mtfFreq, yy, nInUse, ll_i, wr, zPend, out, l, full, nb);
      zPend' := 0;
    }
  }

  /** The symbol number of the byte before the rotation at position i of the sorted order. */
  method SymbolBefore(ptr: array<int>, arr2: array<int>, unseqToSeq: array<int>, i: int, nblock: int, ghost p: seq<int>,
    ghost u: seq<bool>)
    returns (ll_i: int)
    requires 0 <= i < nblock <= ptr.Length && nblock <= 4 * arr2.Length && |u| == 256 && unseqToSeq.Length == 256
    requires |p| == nblock && ptr[i] == p[i] && 0 <= p[i] < nblock
    requires forall k | 0 <= k < nblock :: u[BytesOf(arr2[..], nblock)[k]]
    requires forall v | 0 <= v < 256 && u[v] :: unseqToSeq[v] == Rank(u, v)
    ensures ll_i == ColumnSymbols(BytesOf(arr2[..], nblock), p, u)[i]
  {
    ghost var b: Block := BytesOf(arr2[..], nblock);
    var j := ptr[i] - 1;
    if j < 0 { j := j + nblock; }
    var c := ReadByte(arr2, j);
    assert c == b[Before(p[i], nblock)] && u[c];
    ll_i := unseqToSeq[c];
    SymbolAt(b, p, u, i);
  }

  /** The main loop: each position either lengthens the pending run or is written. */
  method CodeColumn(arr1: array<int>, arr2: array<int>, unseqToSeq: array<int>, mtfFreq: array<int>, yy: array<int>,
    nInUse: int, nblock: int, ghost p: seq<int>, ghost u: seq<bool>, ghost full: seq<int>)
    returns (wr: int, zPend: int, ghost out: seq<int>)
    requires arr1 != arr2 && arr1 != unseqToSeq && arr1 != mtfFreq && arr2 != mtfFreq && unseqToSeq != mtfFreq
    requires yy != arr1 && yy != arr2 && yy != unseqToSeq && yy != mtfFreq
    requires |u| == 256 && unseqToSeq.Length == 256 && 0 < nInUse <= yy.Length && nInUse + 2 <= 258
    requires 0 < nblock <= arr1.Length && nblock <= 4 * arr2.Length
    requires p == arr1[..nblock] && forall i | 0 <= i < nblock :: 0 <= p[i] < nblock
    requires forall i | 0 <= i < nblock :: u[BytesOf(arr2[..], nblock)[i]]
    requires forall v | 0 <= v < 256 && u[v] :: unseqToSeq[v] == Rank(u, v)
    requires Written(arr1[..], mtfFreq[..], nInUse + 2, [], nblock)
    requires Coding([], yy[..nInUse], ColumnSymbols(BytesOf(arr2[..], nblock), p, u), 0, nInUse + 1, full)
    modifies arr1, mtfFreq, yy
    ensures Written(arr1[..], mtfFreq[..], nInUse + 2, out, nblock) && |out| == wr && wr + zPend <= nblock && 0 <= zPend
    ensures Coding(out, yy[..nInUse], [], zPend, nInUse + 1, full)
  {
    ghost var b: Block := BytesOf(arr2[..], nblock);
    ghost var L := ColumnSymbols(b, p, u);
    wr, zPend, out := 0, 0, [];
    assert L[0..] == L;
    hide Written, Coding, LastColumn, ColumnSymbols, AllIn, Rank;
    for i := 0 to nblock
      invariant Written(arr1[..], mtfFreq[..], nInUse + 2, out, nblock) && |out| == wr && wr + zPend <= i && 0 <= zPend
      invariant Coding(out, yy[..nInUse], L[i..], zPend, nInUse + 1, full)
      invariant forall k | i <= k < nblock :: arr1[k] == p[k]
    {
      assert wr <= i;
      var ll_i := SymbolBefore(arr1, arr2, unseqToSeq, i, nblock, p, u);
      ghost var l := L[i..];
      assert l[0] == ll_i && l[1..] == L[i + 1..];
      wr, zPend, out := CodeOne(arr1, mtfFreq, yy, nInUse, ll_i, wr, zPend, out, l, full, nblock);
    }
    assert L[nblock..] == [];
  }

  /** After the last position: the pending run and the end of block. */
  method FinishColumn(mtfv: array<int>, mtfFreq: array<int>, wr0: int, zPend: int, eob: int, ghost out: seq<int>,
    ghost list: seq<int>, ghost full: seq<int>, ghost nb: int)
    returns (wr: int)
    requires mtfv != mtfFreq && 1 <= eob < 258 && Written(mtfv[..], mtfFreq[..], eob + 1, out, nb)
    requires |out| == wr0 && 0 <= zPend && wr0 + zPend <= nb && nb > 0
    requires Coding(out, list, [], zPend, eob, full)
    modifies mtfv, mtfFreq
    ensures wr == |full| <= wr0 + zPend + 1 && Written(mtfv[..], mtfFreq[..], eob + 1, full, nb)
  {
    CodeEnd(out, list, [], zPend, eob, full);
    hide Written, Coding;
    wr := FlushPending(mtfv, mtfFreq, wr0, zPend, eob + 1, out, nb);
    wr := Emit(mtfv, mtfFreq, wr, eob, eob + 1, out + RunSymbols(zPend), nb);
  }

  /** The maps, zeroed counts for the symbols to come, and the list in its initial order. */
  method StartCoding(inUse: array<bool>, unseqToSeq: array<int>, mtfFreq: array<int>, yy: array<int>)
    returns (nInUse: int)
    requires unseqToSeq != mtfFreq && yy != unseqToSeq && yy != mtfFreq
    requires inUse.Length == 256 && unseqToSeq.Length == 256 && mtfFreq.Length == 258 && yy.Length == 256
    modifies unseqToSeq, mtfFreq, yy
    ensures nInUse == Rank(inUse[..], 256) && yy[..nInUse] == Identity(nInUse)
    ensures forall v | 0 <= v < 256 && inUse[v] :: unseqToSeq[v] == Rank(inUse[..], v)
    ensures forall v | 0 <= v < nInUse + 2 :: mtfFreq[v] == 0
  {
    nInUse := MakeMapsE(inUse, unseqToSeq);
    for i := 0 to nInUse + 2
      invariant forall v | 0 <= v < i :: mtfFreq[v] == 0
      modifies mtfFreq
    {
      mtfFreq[i] := 0;
    }
    for i := 0 to nInUse
      invariant forall k | 0 <= k < i :: yy[k] == k
      modifies yy
    {
      yy[i] := i;
    }
  }

  lemma {:induction false} CodingBegins(b: Block, p: seq<int>, u: seq<bool>, full: seq<int>)
    requires |u| == 256 && (forall i | 0 <= i < |b| :: u[b[i]]) && full == BlockSymbols(b, p, u)
    ensures Coding([], Identity(Rank(u, 256)), ColumnSymbols(b, p, u), 0, Rank(u, 256) + 1, full)
  {
    ColumnInList(b, p, u);
    assert [] + full == full;
  }

  lemma {:induction false} WrittenNone(w: seq<int>, freq: seq<int>, m: int, nb: int)
    requires 0 <= nb <= |w| && 0 <= m <= |freq| && (forall i | 0 <= i < nb :: 0 <= w[i] < WORD) &&
      forall v | 0 <= v < m :: freq[v] == 0
    ensures Written(w, freq, m, [], nb)
  {
  }

  /**
   * Replaces the sorted order in arr1 by the block's symbols, at most one more than the
   * block has bytes, and counts them. A pointer is never overwritten before it is read.
   */
  method GenerateMTFValues(arr1: array<int>, arr2: array<int>, inUse: array<bool>, unseqToSeq: array<int>,
    mtfFreq: array<int>, nblock: int)
    returns (nMTF: int, nInUse: int)
    requires arr1 != arr2 && arr1 != unseqToSeq && arr1 != mtfFreq && arr2 != unseqToSeq && arr2 != mtfFreq &&
      unseqToSeq != mtfFreq
    requires inUse.Length == 256 && unseqToSeq.Length == 256 && mtfFreq.Length == 258
    requires 0 < nblock <= arr1.Length && nblock <= 4 * arr2.Length
    requires nblock < WORD && forall i | 0 <= i < nblock :: 0 <= arr1[i] < nblock
    requires forall i | 0 <= i < nblock :: inUse[BytesOf(arr2[..], nblock)[i]]
    modifies arr1, unseqToSeq, mtfFreq
    ensures nInUse == Rank(inUse[..], 256)
    ensures var syms := BlockSymbols(BytesOf(arr2[..], nblock), old(arr1[..nblock]), inUse[..]);
            && nMTF == |syms| <= nblock + 1
            && (forall k | 0 <= k < nMTF :: HalfAt(arr1[..], k) == syms[k])
            && (forall v | 0 <= v < nInUse + 2 :: mtfFreq[v] == multiset(syms)[v])
  {
    ghost var b: Block, p, u := BytesOf(arr2[..], nblock), arr1[..nblock], inUse[..];
    var yy := new int[256];
    nInUse := StartCoding(inUse, unseqToSeq, mtfFreq, yy);
    hide Written, Coding, ColumnSymbols, BlockSymbols, Rank;
    ColumnInList(b, p, u);
    ghost var full := BlockSymbols(b, p, u);
    CodingBegins(b, p, u, full);
    WrittenNone(arr1[..], mtfFreq[..], nInUse + 2, nblock);
    ghost var out;
    var wr, zPend;
    wr, zPend, out := CodeColumn(arr1, arr2, unseqToSeq, mtfFreq, yy, nInUse, nblock, p, u, full);
    nMTF := FinishColumn(arr1, mtfFreq, wr, zPend, nInUse + 1, out, yy[..nInUse], full, nblock);
    WrittenIs(arr1[..], mtfFreq[..], nInUse + 2, full, nblock);
  }

  lemma {:induction false} SymbolAt(b: Block, p: seq<int>, u: seq<bool>, i: nat)
    requires i < |p| == |b| && |u| == 256 && 0 <= p[i] < |b|
    ensures ColumnSymbols(b, p, u)[i] == Rank(u, b[Before(p[i], |b|)])
  {
    PrecedingByte(b, p[i]);
  }

  lemma {:induction false} WrittenIs(w: seq<int>, freq: seq<int>, m: int, out: seq<int>, nb: int)
    requires Written(w, freq, m, out, nb)
    ensures |out| <= 2 * nb <= 2 * |w| && forall k | 0 <= k < |out| :: HalfAt(w, k) == out[k]
    ensures 0 <= m <= |freq| && forall v | 0 <= v < m :: freq[v] == multiset(out)[v]
  {
  }
}
