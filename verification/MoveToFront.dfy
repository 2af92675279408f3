/** Move-to-front coding of symbol numbers and the run-length coding of the zeros it produces. */
module MoveToFront {
  import opened Bits

  const RUNA := 0
  const RUNB := 1

  // ---- move to front

  /** The list with element j moved to its front. */
  function ToFront(list: seq<int>, j: nat): (r: seq<int>)
    requires j < |list|
    ensures |r| == |list|
    ensures r[0] == list[j]
    ensures forall k | 1 <= k <= j :: r[k] == list[k - 1]
    ensures forall k | j < k < |list| :: r[k] == list[k]
  {
    [list[j]] + list[..j] + list[j + 1..]
  }

  /** The initial list: symbol numbers in order. */
  function Identity(n: nat): (r: seq<int>)
    ensures |r| == n && forall i | 0 <= i < n :: r[i] == i
  {
    seq(n, i => i)
  }

  function IndexOf(list: seq<int>, v: int): (j: nat)
    requires v in list
    ensures j < |list| && list[j] == v && v !in list[..j]
  {
    if list[0] == v then 0
    else
      assert list == [list[0]] + list[1..];
      var j := IndexOf(list[1..], v);
      assert list[..j + 1] == [list[0]] + list[1..][..j];
      1 + j
  }

  /** Moving an element to the front keeps the members of the list. */
  lemma {:induction false} ToFrontMembers(list: seq<int>, j: nat, v: int)
    requires j < |list|
    ensures v in ToFront(list, j) <==> v in list
  {
    var r := ToFront(list, j);
    if v in list {
      var k :| 0 <= k < |list| && list[k] == v;
      assert r[if k == j then 0 else if k < j then k + 1 else k] == v;
    }
    if v in r {
      var k :| 0 <= k < |r| && r[k] == v;
      assert list[if k == 0 then j else if k <= j then k - 1 else k] == v;
    }
  }

  ghost predicate AllIn(l: seq<int>, list: seq<int>) {
    forall i | 0 <= i < |l| :: l[i] in list
  }

  lemma {:induction false} AllInNext(l: seq<int>, list: seq<int>, j: nat)
    requires AllIn(l, list) && j < |list|
    ensures AllIn(l, ToFront(list, j))
  {
    forall i | 0 <= i < |l| ensures l[i] in ToFront(list, j) { ToFrontMembers(list, j, l[i]); }
  }

  /** The list indices of the symbols l, the list moving each to the front as it is met. */
  function Indices(list: seq<int>, l: seq<int>): (r: seq<int>)
    requires AllIn(l, list)
    ensures |r| == |l| && forall i | 0 <= i < |r| :: 0 <= r[i] < |list|
    decreases |l|
  {
    if l == [] then []
    else
      var j := IndexOf(list, l[0]);
      AllInNext(l, list, j);
      [j] + Indices(ToFront(list, j), l[1..])
  }

  /** The symbols found at the given indices, the list moving each to the front. */
  function Symbols(list: seq<int>, js: seq<int>): (r: seq<int>)
    requires forall i | 0 <= i < |js| :: 0 <= js[i] < |list|
    ensures |r| == |js|
    decreases |js|
  {
    if js == [] then [] else [list[js[0]]] + Symbols(ToFront(list, js[0]), js[1..])
  }

  lemma {:induction false} SymbolsOfIndices(list: seq<int>, l: seq<int>)
    requires AllIn(l, list)
    ensures Symbols(list, Indices(list, l)) == l
    decreases |l|
  {
    if l != [] {
      var j := IndexOf(list, l[0]);
      AllInNext(l, list, j);
      assert Indices(list, l)[1..] == Indices(ToFront(list, j), l[1..]);
      SymbolsOfIndices(ToFront(list, j), l[1..]);
    }
  }

  /** Elements behind all the indices used play no part: the decoder may keep a longer list. */
  lemma {:induction false} LongerList(list: seq<int>, more: seq<int>, js: seq<int>)
    requires forall i | 0 <= i < |js| :: 0 <= js[i] < |list|
    ensures Symbols(list + more, js) == Symbols(list, js)
    decreases |js|
  {
    if js != [] {
      assert ToFront(list + more, js[0]) == ToFront(list, js[0]) + more;
      LongerList(ToFront(list, js[0]), more, js[1..]);
    }
  }

  // ---- runs of zeros, in bijective base 2

  /** A run of z zeros as run symbols, least significant first. */
  function RunSymbols(z: nat): (r: seq<int>)
    ensures forall i | 0 <= i < |r| :: r[i] == RUNA || r[i] == RUNB
    ensures |r| <= z && (z > 0 ==> |r| > 0)
  {
    if z == 0 then []
    else [if (z - 1) % 2 == 1 then RUNB else RUNA] + RunSymbols((z - 1) / 2)
  }

  /** A run of fewer than 2^k - 1 zeros takes fewer than k run symbols. */
  lemma {:induction false} RunSymbolsShort(z: nat, k: nat)
    requires z + 1 < Pow2(k)
    ensures |RunSymbols(z)| < k
    decreases k
  {
    if k > 0 && z > 0 {
      RunSymbolsShort((z - 1) / 2, k - 1);
    }
  }

  // ---- the symbol stream of a block

  /** The transmitted symbols for list indices js with z zeros pending: runs, indices plus one, end of block. */
  function SymbolStream(js: seq<int>, z: nat, eob: int): (r: seq<int>)
    decreases |js|
  {
    if js == [] then RunSymbols(z) + [eob]
    else if js[0] == 0 then SymbolStream(js[1..], z + 1, eob)
    else RunSymbols(z) + [js[0] + 1] + SymbolStream(js[1..], 0, eob)
  }

  /** There are never more symbols than indices, plus the end of block. */
  lemma {:induction false} StreamBound(js: seq<int>, z: nat, eob: int)
    ensures 1 <= |SymbolStream(js, z, eob)| <= |js| + z + 1
    decreases |js|
  {
    if js != [] {
      StreamBound(js[1..], if js[0] == 0 then z + 1 else 0, eob);
    }
  }
}
