/**
 * Randomised blocks, which old compressors wrote for repetitive input: every now and then the lowest bit of a byte is
 * turned over, at distances taken in turn from a fixed table.
 */
module Randomisation {
  import opened Rotations
  import opened RandomTable

  /** How many more bytes the current distance covers, and which distance is next. */
  datatype State = State(toGo: int, tPos: int)

  const BEGIN: State := State(0, 0)

  predicate IsState(st: State) {
    0 <= st.toGo && 0 <= st.tPos < DISTANCES
  }

  /** One byte further on. */
  function Updated(st: State): (r: State)
    requires IsState(st)
    ensures IsState(r)
  {
    if st.toGo == 0 then State(Number(st.tPos) - 1, if st.tPos + 1 == DISTANCES then 0 else st.tPos + 1)
    else State(st.toGo - 1, st.tPos)
  }

  /** A byte with its lowest bit turned over. */
  function Turned(c: Byte): Byte {
    if c % 2 == 0 then c + 1 else c - 1
  }

  function Masked(st: State, c: Byte): Byte {
    if st.toGo == 1 then Turned(c) else c
  }

  /** The bytes s with the mask applied to each, from state st on. */
  function Unmasked(st: State, s: seq<Byte>): (r: seq<Byte>)
    requires IsState(st)
    ensures |r| == |s|
    decreases |s|
  {
    if s == [] then [] else [Masked(Updated(st), s[0])] + Unmasked(Updated(st), s[1..])
  }

  /** The bytes of a block, randomised or not. */
  function Restored(randomised: bool, st: State, s: seq<Byte>): (r: seq<Byte>)
    requires IsState(st)
    ensures |r| == |s|
  {
    if randomised then Unmasked(st, s) else s
  }

  /** All bytes of a block, from the first on. */
  function Derandomised(randomised: bool, s: seq<Byte>): (r: seq<Byte>)
    ensures |r| == |s|
  {
    Restored(randomised, BEGIN, s)
  }

  lemma {:induction false} RestoredStep(randomised: bool, st: State, s: seq<Byte>)
    requires IsState(st)
    ensures s != [] && randomised ==>
      Restored(randomised, st, s) == [Masked(Updated(st), s[0])] + Restored(randomised, Updated(st), s[1..])
    ensures s != [] && !randomised ==> Restored(randomised, st, s) == [s[0]] + Restored(randomised, st, s[1..])
  {
  }

  /** Where the mask is for the first byte. */
  function AfterFirst(randomised: bool): (st: State)
    ensures IsState(st)
  {
    if randomised then Updated(BEGIN) else BEGIN
  }

  lemma {:induction false} FirstRestored(randomised: bool, c: Byte, further: seq<Byte>)
    ensures Derandomised(randomised, [c] + further) ==
      [if randomised then Masked(AfterFirst(true), c) else c] + Restored(randomised, AfterFirst(randomised), further)
  {
    assert ([c] + further)[1..] == further;
  }

  /** Masking twice gives the bytes back: the same pass that reads a block can have written it. */
  lemma {:induction false} MaskedTwice(st: State, s: seq<Byte>)
    requires IsState(st)
    ensures Unmasked(st, Unmasked(st, s)) == s
    decreases |s|
  {
    hide Updated;
    if s != [] {
      var next := Updated(st);
      MaskedTwice(next, s[1..]);
      assert Unmasked(st, s)[1..] == Unmasked(next, s[1..]);
      assert Masked(next, Masked(next, s[0])) == s[0];
      assert s == [s[0]] + s[1..];
    }
  }

  // ---- which bytes are turned over

  /** The first k distances together, the table being gone through again and again. */
  function Distances(k: nat): nat {
    if k == 0 then 0 else Distances(k - 1) + Number((k - 1) % DISTANCES)
  }

  /** A running total of distances ends two bytes on: there the lowest bit is turned over. */
  ghost predicate IsTurned(i: int) {
    exists k: nat :: Distances(k) == i + 2
  }

  /** In front of byte i, within the k-th distance. */
  ghost predicate Within(st: State, i: nat, k: nat) {
    IsState(st) && st.tPos == k % DISTANCES && st.toGo == Distances(k) - i && (k == 0 || Distances(k - 1) < i)
  }

  lemma {:induction false} DistancesGrow(j: nat, k: nat)
    requires j < k
    ensures Distances(j) + 50 <= Distances(k)
    decreases k
  {
    hide Number;
    if j < k - 1 { DistancesGrow(j, k - 1); }
  }

  lemma {:induction false} NextPlace(k: nat)
    ensures (k + 1) % DISTANCES == if k % DISTANCES + 1 == DISTANCES then 0 else k % DISTANCES + 1
  {
  }

  /** One byte further on, in the same distance or the next. */
  lemma {:induction false} WithinNext(st: State, i: nat, k: nat) returns (j: nat)
    requires Within(st, i, k)
    ensures Within(Updated(st), i + 1, j) && j > 0
  {
    hide Number;
    if st.toGo == 0 {
      NextPlace(k);
      j := k + 1;
    } else {
      j := k;
    }
  }

  /** The mask is on exactly for the bytes to be turned over. */
  lemma {:induction false} MaskIsOn(st: State, i: nat, k: nat)
    requires Within(st, i + 1, k) && k > 0
    ensures st.toGo == 1 <==> IsTurned(i)
  {
    hide Distances;
    if IsTurned(i) {
      var j: nat :| Distances(j) == i + 2;
      if j > k { DistancesGrow(k, j); }
      if j < k {
        DistancesGrow(j, k);
        if j < k - 1 { DistancesGrow(j, k - 1); }
      }
    }
  }

  /** From byte i on, within the k-th distance. */
  lemma {:induction false} TurnedFrom(st: State, s: seq<Byte>, i: nat, k: nat)
    requires Within(st, i, k)
    ensures forall m | 0 <= m < |s| :: Unmasked(st, s)[m] == if IsTurned(i + m) then Turned(s[m]) else s[m]
    decreases |s|
  {
    hide IsTurned, Number;
    if s != [] {
      var next := Updated(st);
      var j := WithinNext(st, i, k);
      MaskIsOn(next, i, j);
      TurnedFrom(next, s[1..], i + 1, j);
      forall m | 0 <= m < |s|
        ensures Unmasked(st, s)[m] == if IsTurned(i + m) then Turned(s[m]) else s[m]
      {
        if m > 0 { assert Unmasked(st, s)[m] == Unmasked(next, s[1..])[m - 1]; }
      }
    }
  }

  lemma {:induction false} AtBegin()
    ensures Within(BEGIN, 0, 0)
  {
    hide Number;
  }

  /** In a randomised block just the bytes two short of a running total of distances are turned over. */
  lemma {:induction false} TurnedExactly(s: seq<Byte>, i: nat)
    requires i < |s|
    ensures Unmasked(BEGIN, s)[i] == if IsTurned(i) then Turned(s[i]) else s[i]
  {
    hide Unmasked, IsTurned, Within, Turned;
    AtBegin();
    TurnedFrom(BEGIN, s, 0, 0);
    assert Unmasked(BEGIN, s)[i] == if IsTurned(0 + i) then Turned(s[i]) else s[i];
  }
}
