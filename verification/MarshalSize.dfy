/** How long the code of a graph is, and for which graphs encoding succeeds. */
module MarshalSize {
  import opened Rotations
  import opened MarshalData
  import MarshalRoundTrip

  /** What a value takes in the code; the entries of a table are counted with the table. */
  function Size(v: Value): nat {
    match v
    case Nil => 1
    case Bool(_) => 2
    case Num(bytes) => 1 + |bytes|
    case Str(s) => 5 + |s|
    case Table(_) => 6
  }

  function SizeOf(es: seq<Entry>): nat {
    if es == [] then 0 else Size(es[0].key) + Size(es[0].value) + SizeOf(es[1..])
  }

  /** The entries of those of the first n tables that are in the set. */
  function TablesSize(h: Heap, ts: set<nat>, n: nat): nat
    requires n <= |h|
  {
    if n == 0 then 0 else TablesSize(h, ts, n - 1) + if n - 1 in ts then SizeOf(h[n - 1]) else 0
  }

  /** With one more table. */
  lemma {:induction false} OneTable(h: Heap, ts: set<nat>, t: nat, n: nat)
    requires n <= |h| && t !in ts && t < |h|
    ensures TablesSize(h, ts + {t}, n) == TablesSize(h, ts, n) + if t < n then SizeOf(h[t]) else 0
  {
    if n > 0 { OneTable(h, ts, t, n - 1); }
  }

  lemma {:induction false} MoreTables(h: Heap, ts: set<nat>, us: set<nat>, n: nat)
    requires n <= |h| && ts <= us
    ensures TablesSize(h, ts, n) <= TablesSize(h, us, n)
  {
    if n > 0 { MoreTables(h, ts, us, n - 1); }
  }

  /** All of the heap's tables that are in the set. */
  function All(h: Heap, ts: set<nat>): nat {
    TablesSize(h, ts, |h|)
  }

  // ---- the length of the code

  /** Each table met is written once, and everything else as often as it is met. */
  lemma {:induction false} ValueLength(h: Heap, v: Value, seen: Seen, idx: nat)
    requires GoodHeap(h) && GoodValue(v, |h|) && EncodeValue(h, v, seen, idx).Code?
    ensures var c := EncodeValue(h, v, seen, idx);
      seen.Keys <= c.seen.Keys && |c.bytes| + All(h, seen.Keys) == Size(v) + All(h, c.seen.Keys)
    decreases |Unseen(h, seen)|, 0
  {
    hide TablesSize;
    if v.Table? && v.t !in seen {
      SeenMore(h, seen, v.t, idx);
      EntriesLength(h, h[v.t], seen[v.t := idx], idx + 1);
      assert seen[v.t := idx].Keys == seen.Keys + {v.t};
      OneTable(h, seen.Keys, v.t, |h|);
    }
  }

  lemma {:induction false} EntriesLength(h: Heap, es: seq<Entry>, seen: Seen, idx: nat)
    requires GoodHeap(h) && (forall i | 0 <= i < |es| :: GoodValue(es[i].key, |h|) && GoodValue(es[i].value, |h|))
    requires EncodeEntries(h, es, seen, idx).Code?
    ensures var c := EncodeEntries(h, es, seen, idx);
      seen.Keys <= c.seen.Keys && |c.bytes| + All(h, seen.Keys) == SizeOf(es) + All(h, c.seen.Keys)
    decreases |Unseen(h, seen)|, 1, |es|
  {
    hide TablesSize, EncodeValue;
    if es != [] {
      var k := EncodeValue(h, es[0].key, seen, idx);
      SeenLess(h, seen, k.seen);
      ValueLength(h, es[0].key, seen, idx);
      var x := EncodeValue(h, es[0].value, k.seen, k.idx);
      SeenLess(h, k.seen, x.seen);
      ValueLength(h, es[0].value, k.seen, k.idx);
      EntriesLength(h, es[1..], x.seen, x.idx);
    }
  }

  // ---- the tables that can be reached

  predicate Inside(v: Value, ts: set<nat>) {
    v.Table? ==> v.t in ts
  }

  predicate AllInside(es: seq<Entry>, ts: set<nat>) {
    forall i | 0 <= i < |es| :: Inside(es[i].key, ts) && Inside(es[i].value, ts)
  }

  /** These tables hold the constants, and no entry leads out of them but from a constant. */
  predicate IsClosed(h: Heap, base: set<nat>, ts: set<nat>) {
    base <= ts && forall t | t in ts && t !in base :: t < |h| && AllInside(h[t], ts)
  }

  /** Encoding meets only these tables, and succeeds if what is left of them fits. */
  lemma {:induction false} ValueFits(h: Heap, v: Value, seen: Seen, idx: nat, base: set<nat>, ts: set<nat>)
    requires GoodHeap(h) && GoodValue(v, |h|) && IsClosed(h, base, ts) && Inside(v, ts) && base <= seen.Keys <= ts
    requires Size(v) + All(h, ts) < LIMIT + All(h, seen.Keys)
    ensures EncodeValue(h, v, seen, idx).Code? && EncodeValue(h, v, seen, idx).seen.Keys <= ts
    decreases |Unseen(h, seen)|, 0
  {
    hide TablesSize;
    MoreTables(h, seen.Keys, ts, |h|);
    if v.Table? && v.t !in seen {
      SeenMore(h, seen, v.t, idx);
      var met := seen[v.t := idx];
      assert met.Keys == seen.Keys + {v.t};
      OneTable(h, seen.Keys, v.t, |h|);
      EntriesFit(h, h[v.t], met, idx + 1, base, ts);
      EntriesLength(h, h[v.t], met, idx + 1);
      MoreTables(h, EncodeEntries(h, h[v.t], met, idx + 1).seen.Keys, ts, |h|);
    }
  }

  lemma {:induction false} EntriesFit(h: Heap, es: seq<Entry>, seen: Seen, idx: nat, base: set<nat>, ts: set<nat>)
    requires GoodHeap(h) && (forall i | 0 <= i < |es| :: GoodValue(es[i].key, |h|) && GoodValue(es[i].value, |h|))
    requires IsClosed(h, base, ts) && AllInside(es, ts) && base <= seen.Keys <= ts
    requires SizeOf(es) + All(h, ts) < LIMIT + All(h, seen.Keys)
    ensures EncodeEntries(h, es, seen, idx).Code? && EncodeEntries(h, es, seen, idx).seen.Keys <= ts
    decreases |Unseen(h, seen)|, 1, |es|
  {
    hide TablesSize, EncodeValue, IsClosed;
    if es != [] {
      ValueFits(h, es[0].key, seen, idx, base, ts);
      var k := EncodeValue(h, es[0].key, seen, idx);
      SeenLess(h, seen, k.seen);
      MoreTables(h, seen.Keys, k.seen.Keys, |h|);
      ValueFits(h, es[0].value, k.seen, k.idx, base, ts);
      var x := EncodeValue(h, es[0].value, k.seen, k.idx);
      SeenLess(h, k.seen, x.seen);
      MoreTables(h, k.seen.Keys, x.seen.Keys, |h|);
      EntriesFit(h, es[1..], x.seen, x.idx, base, ts);
    }
  }

  /** Constants, and what can be reached from a value without going through one: in every closed set it is inside of. */
  ghost function Reached(h: Heap, base: set<nat>, v: Value): set<nat> {
    base + set t: nat | t < |h| && InEvery(h, base, v, t)
  }

  ghost predicate InEvery(h: Heap, base: set<nat>, v: Value, t: nat) {
    forall ts {:trigger IsClosed(h, base, ts)} | IsClosed(h, base, ts) && Inside(v, ts) :: t in ts
  }

  lemma {:induction false} ReachedClosed(h: Heap, base: set<nat>, v: Value)
    requires GoodHeap(h) && GoodValue(v, |h|)
    ensures IsClosed(h, base, Reached(h, base, v)) && Inside(v, Reached(h, base, v))
  {
    var r := Reached(h, base, v);
    forall t | t in r && t !in base
      ensures AllInside(h[t], r)
    {
      forall i | 0 <= i < |h[t]|
        ensures Inside(h[t][i].key, r) && Inside(h[t][i].value, r)
      {
        assert GoodEntries(h[t], |h|);
        EntryReached(h, base, v, t, i);
      }
    }
  }

  lemma {:induction false} EntryReached(h: Heap, base: set<nat>, v: Value, t: nat, i: nat)
    requires t < |h| && t !in base && InEvery(h, base, v, t) && i < |h[t]|
    ensures h[t][i].key.Table? ==> InEvery(h, base, v, h[t][i].key.t)
    ensures h[t][i].value.Table? ==> InEvery(h, base, v, h[t][i].value.t)
  {
    forall ts | IsClosed(h, base, ts) && Inside(v, ts)
      ensures Inside(h[t][i].key, ts) && Inside(h[t][i].value, ts)
    {
      assert AllInside(h[t], ts);
    }
  }

  /** It is inside of every closed set that the value is inside of. */
  lemma {:induction false} ReachedLeast(h: Heap, base: set<nat>, v: Value, ts: set<nat>)
    requires IsClosed(h, base, ts) && Inside(v, ts)
    ensures Reached(h, base, v) <= ts
  {
  }

  /** What encoding writes of tables: all that can be reached but the constants. */
  ghost function Written(h: Heap, base: set<nat>, v: Value): nat {
    MoreTables(h, base, Reached(h, base, v), |h|);
    All(h, Reached(h, base, v)) - All(h, base)
  }

  /**
   * Whether a graph can be encoded: a string by its length, a table by the size of all that can be reached from it.
   * No constant may be a NaN.
   */
  ghost predicate CanEncode(h: Heap, v: Value, cs: Constants) {
    && (forall i | 0 <= i < |cs| :: !IsNaN(cs[i]))
    && match v
      case Str(s) => |s| < LIMIT
      case Table(_) => Written(h, Numbered(cs).Keys, v) < LIMIT
      case _ => true
  }

  /** What the tables that can be reached take is enough room for all numbers of bytes in the code of a table. */
  lemma {:induction false} TableFits(h: Heap, v: Value, seen: Seen, idx: nat)
    requires GoodHeap(h) && GoodValue(v, |h|) && v.Table? && Written(h, seen.Keys, v) < LIMIT
    ensures EncodeValue(h, v, seen, idx).Code? && EncodeValue(h, v, seen, idx).seen.Keys <= Reached(h, seen.Keys, v)
  {
    hide TablesSize, IsClosed, Reached;
    var base := seen.Keys;
    var r := Reached(h, base, v);
    ReachedClosed(h, base, v);
    HoldsBase(h, base, r);
    if v.t !in seen {
      var met := seen[v.t := idx];
      TableInside(h, v.t, base, r);
      assert met.Keys == base + {v.t};
      OneTable(h, base, v.t, |h|);
      EntriesFit(h, h[v.t], met, idx + 1, base, r);
      EntriesLength(h, h[v.t], met, idx + 1);
      MoreTables(h, EncodeEntries(h, h[v.t], met, idx + 1).seen.Keys, r, |h|);
    }
  }

  lemma {:induction false} HoldsBase(h: Heap, base: set<nat>, ts: set<nat>)
    requires IsClosed(h, base, ts)
    ensures base <= ts
  {
  }

  lemma {:induction false} TableInside(h: Heap, t: nat, base: set<nat>, ts: set<nat>)
    requires IsClosed(h, base, ts) && t in ts && t !in base
    ensures t < |h| && AllInside(h[t], ts)
  {
  }

  /** All that can be reached is met when encoding succeeds. */
  lemma {:induction false} MetClosed(h: Heap, v: Value, seen: Seen, idx: nat)
    requires GoodHeap(h) && GoodValue(v, |h|) && EncodeValue(h, v, seen, idx).Code?
    ensures var met := EncodeValue(h, v, seen, idx).seen.Keys;
      Inside(v, met) && forall t | t in met && t !in seen :: t < |h| && AllInside(h[t], met)
    decreases |Unseen(h, seen)|, 0
  {
    if v.Table? && v.t !in seen {
      SeenMore(h, seen, v.t, idx);
      EntriesMetClosed(h, h[v.t], seen[v.t := idx], idx + 1);
    }
  }

  lemma {:induction false} EntriesMetClosed(h: Heap, es: seq<Entry>, seen: Seen, idx: nat)
    requires GoodHeap(h) && (forall i | 0 <= i < |es| :: GoodValue(es[i].key, |h|) && GoodValue(es[i].value, |h|))
    requires EncodeEntries(h, es, seen, idx).Code?
    ensures var met := EncodeEntries(h, es, seen, idx).seen.Keys;
      AllInside(es, met) && forall t | t in met && t !in seen :: t < |h| && AllInside(h[t], met)
    decreases |Unseen(h, seen)|, 1, |es|
  {
    hide EncodeValue, AllInside;
    if es == [] {
      NoneInside(EncodeEntries(h, es, seen, idx).seen.Keys);
    } else {
      var k := EncodeValue(h, es[0].key, seen, idx);
      SeenLess(h, seen, k.seen);
      MetClosed(h, es[0].key, seen, idx);
      var x := EncodeValue(h, es[0].value, k.seen, k.idx);
      SeenLess(h, k.seen, x.seen);
      MetClosed(h, es[0].value, k.seen, k.idx);
      EntriesMetClosed(h, es[1..], x.seen, x.idx);
      var met := EncodeEntries(h, es, seen, idx).seen.Keys;
      OneInside(es, met);
      forall t | t in met && t !in seen ensures t < |h| && AllInside(h[t], met) {
        if t in k.seen { StaysInside(h[t], k.seen.Keys, met); } else if t in x.seen {
          StaysInside(h[t], x.seen.Keys, met);
        }
      }
    }
  }

  lemma {:induction false} NoneInside(ts: set<nat>)
    ensures AllInside([], ts)
  {
  }

  lemma {:induction false} OneInside(es: seq<Entry>, ts: set<nat>)
    requires es != [] && Inside(es[0].key, ts) && Inside(es[0].value, ts) && AllInside(es[1..], ts)
    ensures AllInside(es, ts)
  {
    forall i | 0 <= i < |es| ensures Inside(es[i].key, ts) && Inside(es[i].value, ts) {
      if i > 0 { assert es[i] == es[1..][i - 1]; }
    }
  }

  lemma {:induction false} StaysInside(es: seq<Entry>, ts: set<nat>, us: set<nat>)
    requires AllInside(es, ts) && ts <= us
    ensures AllInside(es, us)
  {
  }

  lemma {:induction false} NothingReached(h: Heap, base: set<nat>, v: Value)
    requires !v.Table?
    ensures Reached(h, base, v) == base
  {
    assert IsClosed(h, base, base) && Inside(v, base);
  }

  /**
   * Encoding succeeds just for these graphs. It then meets just the tables that can be reached, and the code has the
   * bytes of each of them once, the constants' left out.
   */
  lemma {:induction false} EncodesExactly(h: Heap, v: Value, cs: Constants)
    requires GoodHeap(h) && GoodValue(v, |h|)
    ensures MarshalRoundTrip.Marshal(h, v, cs).Code? <==> CanEncode(h, v, cs)
    ensures CanEncode(h, v, cs) ==>
      var c, base := MarshalRoundTrip.Marshal(h, v, cs), Numbered(cs).Keys;
      c.seen.Keys == Reached(h, base, v) && |c.bytes| == 1 + Size(v) + Written(h, base, v)
  {
    hide TablesSize, EncodeEntries, IsClosed, Reached, Numbered, IsNaN;
    ValueExactly(h, v, Numbered(cs), |cs| + 1);
  }

  lemma {:induction false} ValueExactly(h: Heap, v: Value, seen: Seen, idx: nat)
    requires GoodHeap(h) && GoodValue(v, |h|)
    ensures var c := EncodeValue(h, v, seen, idx);
      c.Code? <==> (v.Str? ==> |v.s| < LIMIT) && (v.Table? ==> Written(h, seen.Keys, v) < LIMIT)
    ensures var c := EncodeValue(h, v, seen, idx);
      c.Code? ==> c.seen.Keys == Reached(h, seen.Keys, v) && |c.bytes| == Size(v) + Written(h, seen.Keys, v)
  {
    hide TablesSize, EncodeEntries, Reached;
    var base := seen.Keys;
    if EncodeValue(h, v, seen, idx).Code? {
      ValueLength(h, v, seen, idx);
      MetClosed(h, v, seen, idx);
      ReachedLeast(h, base, v, EncodeValue(h, v, seen, idx).seen.Keys);
      MoreTables(h, Reached(h, base, v), EncodeValue(h, v, seen, idx).seen.Keys, |h|);
    }
    if v.Table? && Written(h, base, v) < LIMIT { TableFits(h, v, seen, idx); }
    if !v.Table? { NothingReached(h, base, v); }
  }
}
