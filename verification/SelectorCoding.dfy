/**
 * Selectors through their own move-to-front list: the encoder's loop and the decoder's, each against the list coding.
 */
module SelectorCoding {
  import opened MoveToFront
  import opened BlockParts

  const MAX_GROUPS := 6

  /** Selectors left to code, with the list as it is now. */
  ghost predicate Coded(out: seq<int>, list: seq<int>, sel: seq<int>, full: seq<int>) {
    AllIn(sel, list) && out + Indices(list, sel) == full
  }

  lemma {:induction false} CodeNext(out: seq<int>, list: seq<int>, sel: seq<int>, full: seq<int>)
    requires Coded(out, list, sel, full) && sel != []
    ensures sel[0] in list
    ensures Coded(out + [IndexOf(list, sel[0])], ToFront(list, IndexOf(list, sel[0])), sel[1..], full)
  {
    var j := IndexOf(list, sel[0]);
    AllInNext(sel, list, j);
    assert Indices(list, sel) == [j] + Indices(ToFront(list, j), sel[1..]);
    assert out + ([j] + Indices(ToFront(list, j), sel[1..])) == (out + [j]) + Indices(ToFront(list, j), sel[1..]);
  }

  lemma {:induction false} FirstPlace(list: seq<int>, v: int, j: int)
    requires v in list && 0 <= j <= IndexOf(list, v) && list[j] == v
    ensures j == IndexOf(list, v)
  {
    var at := IndexOf(list, v);
    forall k | 0 <= k < at ensures list[k] != v { assert list[k] == list[..at][k]; }
  }

  lemma {:induction false} NotYet(list: seq<int>, v: int, j: int)
    requires v in list && 0 <= j <= IndexOf(list, v) && list[j] != v
    ensures j + 1 <= IndexOf(list, v) < |list|
  {
  }

  /** Finds v in the list, moving everything in front of it back by one, and puts it in front. */
  method MoveSelector(pos: array<int>, nGroups: int, v: int) returns (j: int)
    requires 0 < nGroups <= pos.Length && v in pos[..nGroups]
    modifies pos
    ensures j == IndexOf(old(pos[..nGroups]), v) && pos[..nGroups] == ToFront(old(pos[..nGroups]), j)
  {
    ghost var list := pos[..nGroups];
    hide IndexOf;
    j := 0;
    var tmp := pos[j];
    while v != tmp
      invariant 0 <= j <= IndexOf(list, v) && IndexOf(list, v) < nGroups && tmp == list[j]
      invariant forall k | 1 <= k <= j :: pos[k] == list[k - 1]
      invariant forall k | j < k < nGroups :: pos[k] == list[k]
      invariant j == 0 ==> pos[0] == list[0]
      decreases nGroups - j
    {
      NotYet(list, v, j);
      j := j + 1;
      var tmp2 := tmp;
      tmp := pos[j];
      pos[j] := tmp2;
    }
    FirstPlace(list, v, j);
    pos[0] := tmp;
    assert pos[..nGroups] == ToFront(list, j);
  }

  method InitialList(nGroups: int) returns (pos: array<int>)
    requires 0 < nGroups <= MAX_GROUPS
    ensures fresh(pos) && pos.Length == MAX_GROUPS && pos[..nGroups] == Identity(nGroups)
  {
    pos := new int[MAX_GROUPS];
    for i := 0 to nGroups
      invariant forall k | 0 <= k < i :: pos[k] == k
    {
      pos[i] := i;
    }
  }

  /** The encoder's selectorMtf. */
  method EncodeSelectors(selector: array<int>, selectorMtf: array<int>, nSelectors: int, nGroups: int)
    requires selector != selectorMtf && 0 <= nSelectors <= selector.Length && nSelectors <= selectorMtf.Length
    requires 0 < nGroups <= MAX_GROUPS && forall i | 0 <= i < nSelectors :: 0 <= selector[i] < nGroups
    modifies selectorMtf
    ensures selectorMtf[..nSelectors] == SelectorIndices(selector[..nSelectors], nGroups)
  {
    hide Coded, SelectorIndices, IndexOf, ToFront, Indices, AllIn;
    var pos := InitialList(nGroups);
    ghost var sel := selector[..nSelectors];
    ghost var full := SelectorIndices(sel, nGroups);
    CodedNone(sel, pos[..nGroups], full, nGroups);
    assert sel[0..] == sel;
    for i := 0 to nSelectors
      invariant Coded(selectorMtf[..i], pos[..nGroups], sel[i..], full)
      modifies selectorMtf, pos
    {
      var ll_i := selector[i];
      ghost var out := selectorMtf[..i];
      CodeNext(out, pos[..nGroups], sel[i..], full);
      assert sel[i..][1..] == sel[i + 1..];
      var j := MoveSelector(pos, nGroups, ll_i);
      selectorMtf[i] := j;
      assert selectorMtf[..i + 1] == out + [j];
    }
    assert sel[nSelectors..] == [];
    CodedAll(selectorMtf[..nSelectors], pos[..nGroups], full);
  }

  lemma {:induction false} CodedNone(sel: seq<int>, list: seq<int>, full: seq<int>, nGroups: nat)
    requires (forall i | 0 <= i < |sel| :: 0 <= sel[i] < nGroups) && list == Identity(nGroups) &&
      full == SelectorIndices(sel, nGroups)
    ensures Coded([], list, sel, full) && |full| == |sel|
  {
    SelectorsListed(sel, nGroups);
  }

  lemma {:induction false} CodedAll(out: seq<int>, list: seq<int>, full: seq<int>)
    requires Coded(out, list, [], full)
    ensures out == full
  {
  }

  // ---- the decoder's side

  ghost predicate Undone(out: seq<int>, list: seq<int>, js: seq<int>, full: seq<int>) {
    (forall i | 0 <= i < |js| :: 0 <= js[i] < |list|) && out + Symbols(list, js) == full
  }

  lemma {:induction false} UndoNext(out: seq<int>, list: seq<int>, js: seq<int>, full: seq<int>)
    requires Undone(out, list, js, full) && js != []
    ensures 0 <= js[0] < |list| && Undone(out + [list[js[0]]], ToFront(list, js[0]), js[1..], full)
  {
    var more := Symbols(ToFront(list, js[0]), js[1..]);
    assert out + ([list[js[0]]] + more) == (out + [list[js[0]]]) + more;
  }

  lemma {:induction false} NoneUndone(js: seq<int>, nGroups: nat)
    requires forall i | 0 <= i < |js| :: 0 <= js[i] < nGroups
    ensures |Identity(nGroups)| == nGroups && |Symbols(Identity(nGroups), js)| == |js|
    ensures Undone([], Identity(nGroups), js, Symbols(Identity(nGroups), js))
  {
  }

  /** Takes entry j out of the list and puts it in front. */
  method TakeSelector(pos: array<int>, nGroups: int, j: int) returns (tmp: int)
    requires 0 <= j < nGroups <= pos.Length
    modifies pos
    ensures tmp == old(pos[j]) && pos[..nGroups] == ToFront(old(pos[..nGroups]), j)
  {
    ghost var list := pos[..nGroups];
    var v := j;
    tmp := pos[v];
    while v > 0
      invariant 0 <= v <= j
      invariant forall k | 0 <= k <= v && k < j :: pos[k] == list[k]
      invariant forall k | v < k <= j :: pos[k] == list[k - 1]
      invariant forall k | j < k < nGroups :: pos[k] == list[k]
    {
      pos[v] := pos[v - 1];
      v := v - 1;
    }
    pos[0] := tmp;
    assert pos[..nGroups] == ToFront(list, j);
  }

  method DecodeSelectors(selectorMtf: array<int>, selector: array<int>, nSelectors: int, nGroups: int)
    requires selector != selectorMtf && 0 <= nSelectors <= selector.Length && nSelectors <= selectorMtf.Length
    requires 0 < nGroups <= MAX_GROUPS && forall i | 0 <= i < nSelectors :: 0 <= selectorMtf[i] < nGroups
    modifies selector
    ensures selector[..nSelectors] == Symbols(Identity(nGroups), selectorMtf[..nSelectors])
  {
    hide Undone, Symbols, Identity, ToFront;
    var pos := InitialList(nGroups);
    ghost var js := selectorMtf[..nSelectors];
    NoneUndone(js, nGroups);
    ghost var full := Symbols(Identity(nGroups), js);
    assert js[0..] == js;
    for i := 0 to nSelectors
      invariant Undone(selector[..i], pos[..nGroups], js[i..], full)
      modifies selector, pos
    {
      ghost var out := selector[..i];
      UndoNext(out, pos[..nGroups], js[i..], full);
      assert js[i..][1..] == js[i + 1..];
      var v := TakeSelector(pos, nGroups, selectorMtf[i]);
      selector[i] := v;
      assert selector[..i + 1] == out + [v];
    }
    assert js[nSelectors..] == [];
    UndoneAll(selector[..nSelectors], pos[..nGroups], full);
  }

  lemma {:induction false} UndoneAll(out: seq<int>, list: seq<int>, full: seq<int>)
    requires Undone(out, list, [], full)
    ensures out == full
  {
  }
}
