/**
 * Decoding undoes encoding on every graph of tables, shared and cyclic ones included: both sides number the tables in
 * the order in which they first meet them, so number i of the one is number i of the other.
 */
module MarshalRoundTrip {
  import opened Rotations
  import opened MarshalData

  /** Where the decoder has the copies of the tables met; a constant's is the table it was given for it. */
  type Places = map<nat, nat>

  ghost predicate OneToOne(phi: Places) {
    forall t, u | t in phi && u in phi && t != u :: phi[t] != phi[u]
  }

  /** A table's number on the one side is that of its copy on the other. */
  ghost function PlacesOf(seen: Seen, m: Made): Places {
    map t | t in seen && seen[t] in m.seen && m.seen[seen[t]].Table? :: m.seen[seen[t]].t
  }

  /** Both sides have come to the same number, and have given the same numbers to the same tables. */
  ghost predicate InStep(seen: Seen, idx: nat, m: Made) {
    && idx == m.idx >= 1
    && (forall t | t in seen ::
        1 <= seen[t] < idx && seen[t] in m.seen && m.seen[seen[t]].Table? && m.seen[seen[t]].t < |m.heap|)
    && OneToOne(PlacesOf(seen, m))
  }

  /** A value with each table in place of the one it is a copy of. */
  function Copy(phi: Places, v: Value): Value {
    match v
    case Table(t) => if t in phi then Table(phi[t]) else Nil
    case _ => v
  }

  function CopyEntry(phi: Places, e: Entry): Entry {
    Entry(Copy(phi, e.key), Copy(phi, e.value))
  }

  function Copies(phi: Places, es: seq<Entry>): (r: seq<Entry>)
    ensures |r| == |es| && forall i | 0 <= i < |es| :: r[i] == CopyEntry(phi, es[i])
  {
    seq(|es|, i requires 0 <= i < |es| => CopyEntry(phi, es[i]))
  }

  predicate Known(phi: Places, v: Value) {
    v.Table? ==> v.t in phi
  }

  predicate AllKnown(phi: Places, es: seq<Entry>) {
    forall i | 0 <= i < |es| :: Known(phi, es[i].key) && Known(phi, es[i].value)
  }

  ghost predicate Extends(a: Places, c: Places) {
    forall t | t in a :: t in c && c[t] == a[t]
  }

  /** The tables met between a and c have been copied, to places from lo on. */
  ghost predicate Copied(h: Heap, a: Places, c: Places, lo: nat, heap: Heap) {
    forall t | t in c && t !in a ::
      t < |h| && lo <= c[t] < |heap| && AllKnown(c, h[t]) && heap[c[t]] == Copies(c, h[t])
  }

  /** The tables made before are as they were. */
  ghost predicate Kept(a: Heap, c: Heap) {
    |a| <= |c| && forall i | 0 <= i < |a| :: c[i] == a[i]
  }

  lemma {:induction false} CopyStays(a: Places, c: Places, v: Value)
    requires Extends(a, c) && Known(a, v)
    ensures Known(c, v) && Copy(c, v) == Copy(a, v)
  {
  }

  lemma {:induction false} CopiesStay(a: Places, c: Places, es: seq<Entry>)
    requires Extends(a, c) && AllKnown(a, es)
    ensures AllKnown(c, es) && Copies(c, es) == Copies(a, es)
  {
    forall i | 0 <= i < |es|
      ensures Known(c, es[i].key) && Known(c, es[i].value) && CopyEntry(c, es[i]) == CopyEntry(a, es[i])
    {
      CopyStays(a, c, es[i].key);
      CopyStays(a, c, es[i].value);
    }
  }

  lemma {:induction false} ExtendsThrough(a: Places, b: Places, c: Places)
    requires Extends(a, b) && Extends(b, c)
    ensures Extends(a, c)
  {
  }

  /** What is copied by the first part stays so, and the second part copies the rest. */
  lemma {:induction false} CopiedThrough(h: Heap, a: Places, b: Places, c: Places, lo: nat, mid: nat, hb: Heap,
    hc: Heap)
    requires Copied(h, a, b, lo, hb) && Copied(h, b, c, mid, hc) && Extends(b, c) && lo <= mid && |hb| <= |hc|
    requires forall i | lo <= i < |hb| :: hc[i] == hb[i]
    ensures Copied(h, a, c, lo, hc)
  {
    forall t | t in c && t !in a
      ensures t < |h| && lo <= c[t] < |hc| && AllKnown(c, h[t]) && hc[c[t]] == Copies(c, h[t])
    {
      if t in b { CopiesStay(b, c, h[t]); }
    }
  }

  /** Different values have different copies. */
  lemma {:induction false} CopyInjective(phi: Places, v: Value, w: Value)
    requires OneToOne(phi) && Known(phi, v) && Known(phi, w) && Copy(phi, v) == Copy(phi, w)
    ensures v == w
  {
  }

  lemma {:induction false} CopyIsKey(phi: Places, v: Value)
    requires IsKey(v) && Known(phi, v)
    ensures IsKey(Copy(phi, v))
  {
  }

  /** A new key's entry goes to the end. */
  lemma {:induction false} RawSetNew(es: seq<Entry>, k: Value, v: Value)
    requires v != Nil && forall i | 0 <= i < |es| :: es[i].key != k
    ensures RawSet(es, k, v) == es + [Entry(k, v)]
  {
    if es != [] { RawSetNew(es[1..], k, v); }
  }

  lemma {:induction false} CopyNotNil(phi: Places, v: Value)
    requires v != Nil && Known(phi, v)
    ensures Copy(phi, v) != Nil
  {
  }

  // ---- numbers stay small

  /** Every table costs six bytes of code at least. */
  lemma {:induction false} NumbersCost(h: Heap, v: Value, seen: Seen, idx: nat)
    requires GoodHeap(h) && GoodValue(v, |h|) && EncodeValue(h, v, seen, idx).Code?
    ensures var c := EncodeValue(h, v, seen, idx); idx <= c.idx && 6 * (c.idx - idx) <= |c.bytes|
    decreases |Unseen(h, seen)|, 0
  {
    if v.Table? && v.t !in seen {
      SeenMore(h, seen, v.t, idx);
      EntriesCost(h, h[v.t], seen[v.t := idx], idx + 1);
    }
  }

  lemma {:induction false} EntriesCost(h: Heap, es: seq<Entry>, seen: Seen, idx: nat)
    requires GoodHeap(h) && (forall i | 0 <= i < |es| :: GoodValue(es[i].key, |h|) && GoodValue(es[i].value, |h|))
    requires EncodeEntries(h, es, seen, idx).Code?
    ensures var c := EncodeEntries(h, es, seen, idx); idx <= c.idx && 6 * (c.idx - idx) <= |c.bytes|
    decreases |Unseen(h, seen)|, 1, |es|
  {
    if es != [] {
      var k := EncodeValue(h, es[0].key, seen, idx);
      SeenLess(h, seen, k.seen);
      NumbersCost(h, es[0].key, seen, idx);
      var x := EncodeValue(h, es[0].value, k.seen, k.idx);
      SeenLess(h, k.seen, x.seen);
      NumbersCost(h, es[0].value, k.seen, k.idx);
      EntriesCost(h, es[1..], x.seen, x.idx);
    }
  }

  // ---- one value, or a table's entries

  /** Decoding the code of v gives its copy, and the copies of all tables met on the way. */
  ghost predicate ValueBack(h: Heap, v: Value, phi: Places, c: Code, m: Made, d: Decoded, rest: seq<Byte>) {
    && c.Code? && d.Got? && d.rest == rest && InStep(c.seen, c.idx, d.m)
    && var psi := PlacesOf(c.seen, d.m);
      && d.v == Copy(psi, v) && Known(psi, v) && Extends(phi, psi)
      && Copied(h, phi, psi, |m.heap|, d.m.heap) && Kept(m.heap, d.m.heap)
  }

  /** Decoding the code of a table's remaining entries into its copy at place t. */
  ghost predicate EntriesBack(h: Heap, before: seq<Entry>, es: seq<Entry>, phi: Places, c: Code, m: Made, t: nat,
    d: Decoded) {
    && c.Code? && d.Filled? && t < |m.heap| && InStep(c.seen, c.idx, d.m)
    && var psi := PlacesOf(c.seen, d.m);
      && Extends(phi, psi) && AllKnown(psi, before + es)
      && |m.heap| <= |d.m.heap| && d.m.heap[t] == Copies(psi, before + es)
      && (forall i | 0 <= i < |m.heap| && i != t :: d.m.heap[i] == m.heap[i])
      && Copied(h, phi, psi, |m.heap|, d.m.heap)
  }

  lemma {:induction false} NothingMet(h: Heap, phi: Places, lo: nat, heap: Heap)
    ensures Extends(phi, phi) && Copied(h, phi, phi, lo, heap) && Kept(heap, heap)
  {
  }

  lemma {:induction false} ScalarBack(h: Heap, v: Value, seen: Seen, idx: nat, m: Made, rest: seq<Byte>)
    requires GoodHeap(h) && GoodValue(v, |h|) && InStep(seen, idx, m) && !v.Table?
    requires EncodeValue(h, v, seen, idx).Code?
    ensures var c := EncodeValue(h, v, seen, idx);
      ValueBack(h, v, PlacesOf(seen, m), c, m, DecodeValue(c.bytes + rest, m), rest)
  {
    hide InStep, PlacesOf;
    NothingMet(h, PlacesOf(seen, m), |m.heap|, m.heap);
    var c := EncodeValue(h, v, seen, idx);
    var s := c.bytes + rest;
    match v
    case Nil => assert s[1..] == rest;
    case Bool(b) => assert s[2..] == rest;
    case Num(bytes) => assert s[1..9] == bytes && s[9..] == rest;
    case Str(x) =>
      assert s[1..] == Le32(|x|) + (x + rest);
      Le32Back(|x|, x + rest);
      assert s[5..5 + |x|] == x && s[5 + |x|..] == rest;
  }

  lemma {:induction false} DecodesRef(n: nat, rest: seq<Byte>, m: Made)
    requires n < 0x8000_0000
    ensures DecodeValue([TTABLE, MAR_TREF] + Le32(n) + rest, m) == Got(if n in m.seen then m.seen[n] else Nil, rest, m)
  {
    var s := [TTABLE, MAR_TREF] + Le32(n) + rest;
    assert s[2..] == Le32(n) + rest && s[6..] == rest;
    Le32Back(n, rest);
    hide Le32, ReadLe32;
    assert s[0] == TTABLE && s[1] == MAR_TREF;
  }

  lemma {:induction false} RefBack(h: Heap, v: Value, seen: Seen, idx: nat, m: Made, rest: seq<Byte>)
    requires GoodHeap(h) && GoodValue(v, |h|) && InStep(seen, idx, m) && v.Table? && v.t in seen && idx <= 0x8000_0000
    ensures var c := EncodeValue(h, v, seen, idx);
      ValueBack(h, v, PlacesOf(seen, m), c, m, DecodeValue(c.bytes + rest, m), rest)
  {
    hide Le32, OneToOne;
    NothingMet(h, PlacesOf(seen, m), |m.heap|, m.heap);
    DecodesRef(seen[v.t], rest, m);
  }

  /** The state in which the decoder reads a new table's entries. */
  function WithTable(m: Made): Made {
    Made(m.heap + [[]], m.seen[m.idx := Table(|m.heap|)], m.idx + 1)
  }

  lemma {:induction false} TableStarts(seen: Seen, idx: nat, m: Made, t: nat)
    requires InStep(seen, idx, m) && t !in seen
    ensures InStep(seen[t := idx], idx + 1, WithTable(m))
    ensures PlacesOf(seen[t := idx], WithTable(m)) == PlacesOf(seen, m)[t := |m.heap|] && t !in PlacesOf(seen, m)
    ensures Extends(PlacesOf(seen, m), PlacesOf(seen, m)[t := |m.heap|])
  {
    NumberAdded(seen, idx, m, t);
    PlaceAdded(seen, idx, m, t);
    hide PlacesOf;
    AddedOneToOne(PlacesOf(seen, m), t, |m.heap|);
  }

  lemma {:induction false} NumberAdded(seen: Seen, idx: nat, m: Made, t: nat)
    requires InStep(seen, idx, m) && t !in seen
    ensures var seen', m' := seen[t := idx], WithTable(m);
      && (forall u | u in seen' ::
          1 <= seen'[u] < idx + 1 && seen'[u] in m'.seen && m'.seen[seen'[u]].Table? &&
          m'.seen[seen'[u]].t < |m'.heap|)
      && (forall u | u in seen' :: m'.seen[seen'[u]].t == if u == t then |m.heap| else m.seen[seen[u]].t)
  {
    hide OneToOne, PlacesOf;
    var seen', m' := seen[t := idx], WithTable(m);
    forall u | u in seen'
      ensures 1 <= seen'[u] < idx + 1 && seen'[u] in m'.seen && m'.seen[seen'[u]].Table?
      ensures m'.seen[seen'[u]].t < |m'.heap| && m'.seen[seen'[u]].t == if u == t then |m.heap| else m.seen[seen[u]].t
    {
      if u != t { assert u in seen && seen[u] < m.idx; }
    }
  }

  lemma {:induction false} PlaceAdded(seen: Seen, idx: nat, m: Made, t: nat)
    requires InStep(seen, idx, m) && t !in seen
    ensures PlacesOf(seen[t := idx], WithTable(m)) == PlacesOf(seen, m)[t := |m.heap|] && t !in PlacesOf(seen, m)
    ensures forall u | u in PlacesOf(seen, m) :: PlacesOf(seen, m)[u] < |m.heap|
  {
    hide OneToOne, WithTable;
    NumberAdded(seen, idx, m, t);
    var phi, psi := PlacesOf(seen, m), PlacesOf(seen[t := idx], WithTable(m));
    assert forall u | u in phi :: u in seen && phi[u] == m.seen[seen[u]].t;
    assert psi.Keys == seen.Keys + {t} && phi.Keys == seen.Keys;
    assert forall u | u in psi :: psi[u] == phi[t := |m.heap|][u];
  }

  lemma {:induction false} AddedOneToOne(phi: Places, t: nat, p: nat)
    requires OneToOne(phi) && t !in phi && forall u | u in phi :: phi[u] < p
    ensures OneToOne(phi[t := p]) && Extends(phi, phi[t := p])
  {
  }

  lemma {:induction false} DecodesTable(content: seq<Byte>, rest: seq<Byte>, m: Made)
    requires |content| < LIMIT
    ensures var s := [TTABLE, MAR_TVAL] + Le32(|content|) + content + rest;
      var d := DecodeEntries(content, WithTable(m), |m.heap|);
      DecodeValue(s, m) == if d.Failed? then Failed else Got(Table(|m.heap|), rest, d.m)
  {
    var s := [TTABLE, MAR_TVAL] + Le32(|content|) + content + rest;
    assert s[2..] == Le32(|content|) + (content + rest);
    Le32Back(|content|, content + rest);
    assert s[6..6 + |content|] == content && s[6 + |content|..] == rest;
    hide Le32, ReadLe32, DecodeEntries;
    assert s[0] == TTABLE && s[1] == MAR_TVAL;
  }

  lemma {:induction false} TableBack(h: Heap, v: Value, seen: Seen, idx: nat, m: Made, rest: seq<Byte>, e: Code)
    requires GoodHeap(h) && GoodValue(v, |h|) && InStep(seen, idx, m) && v.Table? && v.t !in seen
    requires EncodeValue(h, v, seen, idx).Code? && e == EncodeEntries(h, h[v.t], seen[v.t := idx], idx + 1) && e.Code?
    requires EntriesBack(h, [], h[v.t], PlacesOf(seen[v.t := idx], WithTable(m)), e, WithTable(m), |m.heap|,
      DecodeEntries(e.bytes, WithTable(m), |m.heap|))
    ensures var c := EncodeValue(h, v, seen, idx);
      ValueBack(h, v, PlacesOf(seen, m), c, m, DecodeValue(c.bytes + rest, m), rest)
  {
    hide EncodeEntries, DecodeEntries, EncodeValue, DecodeValue, Le32, InStep, AllKnown, Copies, WithTable, Extends,
      Copied, Kept, PlacesOf;
    EncodesTable(h, v, seen, idx, e);
    DecodesTable(e.bytes, rest, m);
    var d := DecodeEntries(e.bytes, WithTable(m), |m.heap|);
    var phi, psi := PlacesOf(seen, m), PlacesOf(e.seen, d.m);
    TableStarts(seen, idx, m, v.t);
    ExtendsThrough(phi, phi[v.t := |m.heap|], psi);
    TableMet(h, v.t, phi, psi, m, d.m);
  }

  lemma {:induction false} EncodesTable(h: Heap, v: Value, seen: Seen, idx: nat, e: Code)
    requires GoodHeap(h) && GoodValue(v, |h|) && v.Table? && v.t !in seen && EncodeValue(h, v, seen, idx).Code?
    requires e == EncodeEntries(h, h[v.t], seen[v.t := idx], idx + 1) && e.Code?
    ensures EncodeValue(h, v, seen, idx) == Code([TTABLE, MAR_TVAL] + Le32(|e.bytes|) + e.bytes, e.seen, e.idx) &&
      |e.bytes| < LIMIT
  {
    hide EncodeEntries, Le32;
  }

  /** With its entries copied, the table itself counts among those met. */
  lemma {:induction false} TableMet(h: Heap, t: nat, phi: Places, psi: Places, m: Made, m': Made)
    requires t < |h| && t !in phi && Extends(phi[t := |m.heap|], psi)
    requires AllKnown(psi, [] + h[t]) && |WithTable(m).heap| <= |m'.heap| && m'.heap[|m.heap|] == Copies(psi, [] + h[t])
    requires forall i | 0 <= i < |WithTable(m).heap| && i != |m.heap| :: m'.heap[i] == WithTable(m).heap[i]
    requires Copied(h, phi[t := |m.heap|], psi, |WithTable(m).heap|, m'.heap)
    ensures Copy(psi, Table(t)) == Table(|m.heap|) && Known(psi, Table(t))
    ensures Copied(h, phi, psi, |m.heap|, m'.heap) && Kept(m.heap, m'.heap)
  {
    hide AllKnown, Copies;
    assert [] + h[t] == h[t];
    assert t in phi[t := |m.heap|] && psi[t] == |m.heap|;
    forall u | u in psi && u !in phi
      ensures u < |h| && |m.heap| <= psi[u] < |m'.heap| && AllKnown(psi, h[u]) && m'.heap[psi[u]] == Copies(psi, h[u])
    {
      if u != t { assert u !in phi[t := |m.heap|]; }
    }
  }

  // ---- one entry

  /** The state after one more entry has been decoded into the table at place t. */
  ghost predicate EntryDone(h: Heap, before: seq<Entry>, phi: Places, m: Made, t: nat, seen': Seen, idx': nat,
    m': Made) {
    && t < |m.heap| <= |m'.heap| && InStep(seen', idx', m')
    && var psi := PlacesOf(seen', m');
      && Extends(phi, psi) && AllKnown(psi, before) && m'.heap[t] == Copies(psi, before)
      && (forall i | 0 <= i < |m.heap| && i != t :: m'.heap[i] == m.heap[i]) && Copied(h, phi, psi, |m.heap|, m'.heap)
  }

  function WithEntry(m: Made, t: nat, k: Value, x: Value): Made
    requires t < |m.heap|
  {
    Made(m.heap[t := RawSet(m.heap[t], k, x)], m.seen, m.idx)
  }

  lemma {:induction false} InStepStill(seen: Seen, idx: nat, m: Made, t: nat, k: Value, x: Value)
    requires InStep(seen, idx, m) && t < |m.heap|
    ensures InStep(seen, idx, WithEntry(m, t, k, x)) && PlacesOf(seen, WithEntry(m, t, k, x)) == PlacesOf(seen, m)
    ensures OneToOne(PlacesOf(seen, m))
  {
  }

  /** A key not used before is appended. */
  lemma {:induction false} EntryAppended(phi: Places, before: seq<Entry>, e: Entry)
    requires OneToOne(phi) && AllKnown(phi, before) && Known(phi, e.key) && Known(phi, e.value)
    requires IsKey(e.key) && e.value != Nil && forall i | 0 <= i < |before| :: before[i].key != e.key
    ensures RawSet(Copies(phi, before), Copy(phi, e.key), Copy(phi, e.value)) == Copies(phi, before + [e])
    ensures IsKey(Copy(phi, e.key)) && AllKnown(phi, before + [e])
  {
    CopyIsKey(phi, e.key);
    CopyNotNil(phi, e.value);
    var es := Copies(phi, before);
    forall i | 0 <= i < |es| ensures es[i].key != Copy(phi, e.key) {
      if es[i].key == Copy(phi, e.key) { CopyInjective(phi, before[i].key, e.key); }
    }
    RawSetNew(es, Copy(phi, e.key), Copy(phi, e.value));
    assert Copies(phi, before + [e]) == es + [CopyEntry(phi, e)];
  }

  lemma {:induction false} KeptAt(a: Heap, c: Heap, t: nat)
    requires Kept(a, c) && t < |a|
    ensures |a| <= |c| && c[t] == a[t]
  {
  }

  lemma {:induction false} KeptThrough(a: Heap, b: Heap, c: Heap)
    requires Kept(a, b) && Kept(b, c)
    ensures Kept(a, c)
  {
  }

  lemma {:induction false} CopiedBoth(h: Heap, a: Places, b: Places, c: Places, ha: Heap, hb: Heap, hc: Heap)
    requires Copied(h, a, b, |ha|, hb) && Copied(h, b, c, |hb|, hc) && Extends(b, c) && Kept(ha, hb) && Kept(hb, hc)
    ensures Copied(h, a, c, |ha|, hc)
  {
    hide Copied, Extends;
    CopiedThrough(h, a, b, c, |ha|, |hb|, hb, hc);
  }

  lemma {:induction false} CopiedStill(h: Heap, a: Places, c: Places, lo: nat, heap: Heap, heap': Heap, t: nat)
    requires Copied(h, a, c, lo, heap) && t < lo && |heap| == |heap'| &&
      forall i | 0 <= i < |heap| && i != t :: heap'[i] == heap[i]
    ensures Copied(h, a, c, lo, heap')
  {
  }

  lemma {:induction false} EntryStep(h: Heap, before: seq<Entry>, e: Entry, phi: Places, m: Made, t: nat, k: Code,
    d1: Decoded, rest1: seq<Byte>, x: Code, d2: Decoded, rest2: seq<Byte>)
    requires ValueBack(h, e.key, phi, k, m, d1, rest1) && k.Code? && d1.Got? &&
      ValueBack(h, e.value, PlacesOf(k.seen, d1.m), x, d1.m, d2, rest2)
    requires t < |m.heap| && AllKnown(phi, before) && m.heap[t] == Copies(phi, before)
    requires IsKey(e.key) && e.value != Nil && forall i | 0 <= i < |before| :: before[i].key != e.key
    ensures x.Code? && d2.Got? && d1.v == Copy(PlacesOf(x.seen, d2.m), e.key) && IsKey(d1.v) && t < |d2.m.heap|
    ensures EntryDone(h, before + [e], phi, m, t, x.seen, x.idx, WithEntry(d2.m, t, d1.v, d2.v))
  {
    hide InStep, Copied, AllKnown, Copies, Extends, Kept, Copy, Known, RawSet, PlacesOf;
    var chi, psi := PlacesOf(k.seen, d1.m), PlacesOf(x.seen, d2.m);
    ExtendsThrough(phi, chi, psi);
    CopyStays(chi, psi, e.key);
    CopiesStay(phi, psi, before);
    KeptThrough(m.heap, d1.m.heap, d2.m.heap);
    KeptAt(m.heap, d2.m.heap, t);
    InStepStill(x.seen, x.idx, d2.m, t, d1.v, d2.v);
    EntryAppended(psi, before, e);
    CopiedBoth(h, phi, chi, psi, m.heap, d1.m.heap, d2.m.heap);
    var m3 := WithEntry(d2.m, t, d1.v, d2.v);
    CopiedStill(h, phi, psi, |m.heap|, d2.m.heap, m3.heap, t);
    forall i | 0 <= i < |m.heap| && i != t ensures m3.heap[i] == m.heap[i] { KeptAt(m.heap, d2.m.heap, i); }
  }

  lemma {:induction false} EntriesJoin(h: Heap, before: seq<Entry>, e: Entry, es: seq<Entry>, phi: Places, m: Made,
    t: nat, seen': Seen, idx': nat, m': Made, c: Code, d: Decoded)
    requires EntryDone(h, before + [e], phi, m, t, seen', idx', m') &&
      EntriesBack(h, before + [e], es, PlacesOf(seen', m'), c, m', t, d)
    ensures EntriesBack(h, before, [e] + es, phi, c, m, t, d)
  {
    hide InStep, Copied, AllKnown, Copies, Extends, PlacesOf;
    var chi, psi := PlacesOf(seen', m'), PlacesOf(c.seen, d.m);
    ExtendsThrough(phi, chi, psi);
    assert (before + [e]) + es == before + ([e] + es);
    JoinedCopies(h, phi, chi, psi, |m.heap|, m'.heap, d.m.heap, t);
  }

  lemma {:induction false} JoinedCopies(h: Heap, a: Places, b: Places, c: Places, lo: nat, hb: Heap, hc: Heap, t: nat)
    requires Copied(h, a, b, lo, hb) && Copied(h, b, c, |hb|, hc) && Extends(b, c) && t < lo <= |hb| <= |hc|
    requires forall i | 0 <= i < |hb| && i != t :: hc[i] == hb[i]
    ensures Copied(h, a, c, lo, hc)
  {
    hide Copied, Extends;
    CopiedThrough(h, a, b, c, lo, |hb|, hb, hc);
  }

  // ---- the induction

  /** Decoding a value's code, with anything behind it, gives back the value's copy. */
  lemma {:induction false} ValueIsBack(h: Heap, v: Value, seen: Seen, idx: nat, m: Made, rest: seq<Byte>)
    requires GoodHeap(h) && GoodValue(v, |h|) && InStep(seen, idx, m)
    requires EncodeValue(h, v, seen, idx).Code? && EncodeValue(h, v, seen, idx).idx <= 0x8000_0000
    ensures var c := EncodeValue(h, v, seen, idx);
      ValueBack(h, v, PlacesOf(seen, m), c, m, DecodeValue(c.bytes + rest, m), rest)
    decreases |Unseen(h, seen)|, 0
  {
    hide InStep, ValueBack, EntriesBack, DecodeValue, DecodeEntries, Unseen, PlacesOf;
    NumbersCost(h, v, seen, idx);
    if !v.Table? {
      ScalarBack(h, v, seen, idx, m, rest);
    } else if v.t in seen {
      RefBack(h, v, seen, idx, m, rest);
    } else {
      SeenMore(h, seen, v.t, idx);
      var e := EncodeEntries(h, h[v.t], seen[v.t := idx], idx + 1);
      TableStarts(seen, idx, m, v.t);
      NewTable(m);
      EntriesAreBack(h, v.t, 0, seen[v.t := idx], idx + 1, WithTable(m), |m.heap|);
      assert h[v.t][0..] == h[v.t] && h[v.t][..0] == [];
      TableBack(h, v, seen, idx, m, rest, e);
    }
  }

  lemma {:induction false} NewTable(m: Made)
    ensures |WithTable(m).heap| == |m.heap| + 1 && WithTable(m).heap[|m.heap|] == []
    ensures forall phi :: Copies(phi, []) == [] && AllKnown(phi, [])
  {
  }

  /** Decoding the code of a table's entries from entry j on completes its copy. */
  lemma {:induction false} EntriesAreBack(h: Heap, tt: nat, j: nat, seen: Seen, idx: nat, m: Made, t: nat)
    requires GoodHeap(h) && tt < |h| && j <= |h[tt]| && InStep(seen, idx, m) && t < |m.heap|
    requires EncodeEntries(h, h[tt][j..], seen, idx).Code? &&
      EncodeEntries(h, h[tt][j..], seen, idx).idx <= 0x8000_0000
    requires AllKnown(PlacesOf(seen, m), h[tt][..j]) && m.heap[t] == Copies(PlacesOf(seen, m), h[tt][..j])
    ensures var c := EncodeEntries(h, h[tt][j..], seen, idx);
      EntriesBack(h, h[tt][..j], h[tt][j..], PlacesOf(seen, m), c, m, t, DecodeEntries(c.bytes, m, t))
    decreases |Unseen(h, seen)|, 1, |h[tt]| - j
  {
    hide InStep, ValueBack, EntriesBack, DecodeValue, DecodeEntries, Unseen, AllKnown, Copies, EntryDone, Known, Copy,
      EncodeValue, EncodeEntries, GoodHeap, GoodValue, WithEntry, PlacesOf;
    var es := h[tt][j..];
    if es == [] {
      EntriesEnd(h, h[tt][..j], seen, idx, m, t);
    } else {
      var e, before := es[0], h[tt][..j];
      GoodEntry(h, tt, j);
      assert es[1..] == h[tt][j + 1..] && h[tt][..j + 1] == before + [e];
      var c, k, x, r := EncodesEntry(h, tt, j, seen, idx);
      ValueIsBack(h, e.key, seen, idx, m, x.bytes + r.bytes);
      var d1 := DecodeValue(k.bytes + (x.bytes + r.bytes), m);
      var phi := PlacesOf(seen, m);
      BackInStep(h, e.key, phi, k, m, d1, x.bytes + r.bytes);
      ValueIsBack(h, e.value, k.seen, k.idx, d1.m, r.bytes);
      var d2 := DecodeValue(x.bytes + r.bytes, d1.m);
      BackInStep(h, e.value, PlacesOf(k.seen, d1.m), x, d1.m, d2, r.bytes);
      EntryStep(h, before, e, phi, m, t, k, d1, x.bytes + r.bytes, x, d2, r.bytes);
      var m3 := WithEntry(d2.m, t, d1.v, d2.v);
      StepReady(h, before + [e], phi, m, t, x.seen, x.idx, m3);
      EntriesAreBack(h, tt, j + 1, x.seen, x.idx, m3, t);
      var d := DecodeEntries(r.bytes, m3, t);
      EntriesJoin(h, before, e, h[tt][j + 1..], phi, m, t, x.seen, x.idx, m3, r, d);
      DecodesEntry(k.bytes, x.bytes, r.bytes, m, t, d1, d2);
      assert [e] + h[tt][j + 1..] == es;
      EntriesAre(h, before, es, phi, c, r, m, t, d);
    }
  }

  /** The code of entry j and those behind it, in its three parts. */
  lemma {:induction false} EncodesEntry(h: Heap, tt: nat, j: nat, seen: Seen, idx: nat)
    returns (c: Code, k: Code, x: Code, r: Code)
    requires GoodHeap(h) && tt < |h| && j < |h[tt]| && GoodValue(h[tt][j].key, |h|) && GoodValue(h[tt][j].value, |h|)
    requires EncodeEntries(h, h[tt][j..], seen, idx).Code?
    ensures k == EncodeValue(h, h[tt][j].key, seen, idx) && k.Code? &&
      x == EncodeValue(h, h[tt][j].value, k.seen, k.idx) && x.Code?
    ensures r == EncodeEntries(h, h[tt][j + 1..], x.seen, x.idx) && r.Code?
    ensures c == EncodeEntries(h, h[tt][j..], seen, idx) == Code(k.bytes + x.bytes + r.bytes, r.seen, r.idx)
    ensures k.idx <= x.idx <= r.idx && |Unseen(h, k.seen)| <= |Unseen(h, seen)| &&
      |Unseen(h, x.seen)| <= |Unseen(h, seen)|
  {
    hide EncodeValue, Unseen;
    var es := h[tt][j..];
    assert es[0] == h[tt][j] && es[1..] == h[tt][j + 1..];
    c := EncodeEntries(h, es, seen, idx);
    k := EncodeValue(h, es[0].key, seen, idx);
    x := EncodeValue(h, es[0].value, k.seen, k.idx);
    r := EncodeEntries(h, h[tt][j + 1..], x.seen, x.idx);
    KeysGrow(h, es[0].key, seen, idx);
    KeysGrow(h, es[0].value, k.seen, k.idx);
    SeenLess(h, seen, k.seen);
    SeenLess(h, k.seen, x.seen);
    NumbersCost(h, es[0].value, k.seen, k.idx);
    EntriesCost(h, h[tt][j + 1..], x.seen, x.idx);
  }

  lemma {:induction false} KeysGrow(h: Heap, v: Value, seen: Seen, idx: nat)
    requires GoodHeap(h) && GoodValue(v, |h|) && EncodeValue(h, v, seen, idx).Code?
    ensures seen.Keys <= EncodeValue(h, v, seen, idx).seen.Keys
  {
  }

  lemma {:induction false} EntriesEnd(h: Heap, before: seq<Entry>, seen: Seen, idx: nat, m: Made, t: nat)
    requires GoodHeap(h) && InStep(seen, idx, m) && t < |m.heap|
    requires AllKnown(PlacesOf(seen, m), before) && m.heap[t] == Copies(PlacesOf(seen, m), before)
    ensures var c := EncodeEntries(h, [], seen, idx);
      c == Code([], seen, idx) &&
      EntriesBack(h, before, [], PlacesOf(seen, m), c, m, t, DecodeEntries(c.bytes, m, t))
  {
    hide InStep, PlacesOf;
    NothingMet(h, PlacesOf(seen, m), |m.heap|, m.heap);
    assert before + [] == before;
  }

  lemma {:induction false} BackInStep(h: Heap, v: Value, phi: Places, c: Code, m: Made, d: Decoded, rest: seq<Byte>)
    requires ValueBack(h, v, phi, c, m, d, rest)
    ensures c.Code? && d.Got? && d.rest == rest && InStep(c.seen, c.idx, d.m) && |m.heap| <= |d.m.heap|
  {
  }

  lemma {:induction false} GoodEntry(h: Heap, tt: nat, j: nat)
    requires GoodHeap(h) && tt < |h| && j < |h[tt]|
    ensures IsKey(h[tt][j].key) && h[tt][j].value != Nil && GoodValue(h[tt][j].key, |h|) &&
      GoodValue(h[tt][j].value, |h|)
    ensures forall i | 0 <= i < j :: h[tt][..j][i].key != h[tt][j].key
  {
    hide IsKey;
    assert GoodEntries(h[tt], |h|);
  }

  lemma {:induction false} StepReady(h: Heap, before: seq<Entry>, phi: Places, m: Made, t: nat, seen': Seen, idx': nat,
    m': Made)
    requires EntryDone(h, before, phi, m, t, seen', idx', m')
    ensures InStep(seen', idx', m') && t < |m'.heap|
    ensures AllKnown(PlacesOf(seen', m'), before) && m'.heap[t] == Copies(PlacesOf(seen', m'), before)
  {
  }

  /** One turn of the decoder's loop. */
  lemma {:induction false} DecodesEntry(a: seq<Byte>, b: seq<Byte>, r: seq<Byte>, m: Made, t: nat, d1: Decoded,
    d2: Decoded)
    requires t < |m.heap| && d1 == DecodeValue(a + (b + r), m) && d1.Got? && d1.rest == b + r
    requires d2 == DecodeValue(b + r, d1.m) && d2.Got? && d2.rest == r && IsKey(d1.v) && t < |d2.m.heap|
    ensures DecodeEntries(a + b + r, m, t) == DecodeEntries(r, WithEntry(d2.m, t, d1.v, d2.v), t)
  {
    hide DecodeValue, RawSet;
    assert a + b + r == a + (b + r);
    NothingDecoded(m);
    assert a + b + r != [];
  }

  lemma {:induction false} NothingDecoded(m: Made)
    ensures DecodeValue([], m) == Failed
  {
  }

  lemma {:induction false} EntriesAre(h: Heap, before: seq<Entry>, es: seq<Entry>, phi: Places, c: Code, r: Code,
    m: Made, t: nat, d: Decoded)
    requires c.Code? && r.Code? && c.seen == r.seen && c.idx == r.idx && EntriesBack(h, before, es, phi, r, m, t, d)
    ensures EntriesBack(h, before, es, phi, c, m, t, d)
  {
  }

  // ---- the round trip

  /** mar_encode: a constant that is a NaN cannot be stored. */
  function Marshal(h: Heap, v: Value, cs: Constants): Code
    requires GoodHeap(h) && GoodValue(v, |h|)
  {
    if exists i | 0 <= i < |cs| :: IsNaN(cs[i]) then Refused
    else
      var c := EncodeValue(h, v, Numbered(cs), |cs| + 1);
      if c.Refused? then Refused else Code([MAR_MAGIC] + c.bytes, c.seen, c.idx)
  }

  /** mar_decode, with the tables of h there already: what follows the first value is not looked at. */
  function Unmarshal(s: seq<Byte>, h: Heap, cs: Constants): Decoded {
    if |s| < 1 || s[0] != MAR_MAGIC then Failed else DecodeValue(s[1..], Before(h, cs))
  }

  /** What the decoder is given for the tables among the encoder's constants. */
  ghost function Given(cs: Constants, cs': Constants): map<nat, Value>
    requires |cs| == |cs'|
  {
    map t | t in Numbered(cs) :: cs'[Numbered(cs)[t] - 1]
  }

  /** The decoder's constants fit the encoder's: a table for each table, different ones for different ones. */
  ghost predicate Fit(cs: Constants, cs': Constants, h': Heap) {
    && |cs| == |cs'|
    && var g := Given(cs, cs');
      && (forall t | t in g :: g[t].Table? && g[t].t < |h'|)
      && (forall t, u | t in g && u in g && t != u :: g[t] != g[u])
  }

  /**
   * The decoded graph is the encoded one: phi, one to one, takes constants to constants and every other table met to
   * its copy, entry by entry. The copies are new tables, all there are, and the tables there before are as they were.
   */
  ghost predicate IsCopy(h: Heap, v: Value, cs: Constants, phi: Places, v': Value, old': Heap, h': Heap, cs': Constants)
    requires Fit(cs, cs', old')
  {
    var g := Given(cs, cs');
    && Known(phi, v) && v' == Copy(phi, v) && OneToOne(phi) && Kept(old', h')
    && (forall t | t in g :: t in phi && Table(phi[t]) == g[t])
    && (forall t | t in phi && t !in g ::
        t < |h| && |old'| <= phi[t] < |h'| && AllKnown(phi, h[t]) && h'[phi[t]] == Copies(phi, h[t]))
    && |phi.Keys| - |g.Keys| == |h'| - |old'|
  }

  lemma {:induction false} BeforeInStep(cs: Constants, cs': Constants, h': Heap)
    requires Fit(cs, cs', h')
    ensures InStep(Numbered(cs), |cs| + 1, Before(h', cs')) && Given(cs, cs').Keys == Numbered(cs).Keys
    ensures var phi := PlacesOf(Numbered(cs), Before(h', cs'));
      phi.Keys == Given(cs, cs').Keys && forall t | t in phi :: Table(phi[t]) == Given(cs, cs')[t]
  {
    hide Numbered, OneToOne, Stored, InStep;
    var g, seen, m := Given(cs, cs'), Numbered(cs), Before(h', cs');
    ConstantsAt(cs, cs', h');
    var phi := PlacesOf(seen, m);
    assert phi.Keys == seen.Keys;
    DifferentPlaces(phi, g);
    hide PlacesOf;
    StartsInStep(seen, |cs| + 1, m);
  }

  lemma {:induction false} DifferentPlaces(phi: Places, g: map<nat, Value>)
    requires forall t | t in phi :: t in g && Table(phi[t]) == g[t]
    requires forall t, u | t in g && u in g && t != u :: g[t] != g[u]
    ensures OneToOne(phi)
  {
    forall t, u | t in phi && u in phi && t != u ensures phi[t] != phi[u] {
      assert g[t] != g[u];
    }
  }

  lemma {:induction false} ConstantsAt(cs: Constants, cs': Constants, h': Heap)
    requires Fit(cs, cs', h')
    ensures var g, seen, m := Given(cs, cs'), Numbered(cs), Before(h', cs');
      && g.Keys == seen.Keys
      && forall t | t in seen ::
        1 <= seen[t] < m.idx && seen[t] in m.seen && m.seen[seen[t]] == g[t] && g[t].Table? && g[t].t < |m.heap|
  {
    hide Numbered;
    var g, seen, m := Given(cs, cs'), Numbered(cs), Before(h', cs');
    forall t | t in seen ensures seen[t] in m.seen && m.seen[seen[t]] == g[t] {
      assert 1 <= seen[t] <= |cs| && t in g;
    }
  }

  lemma {:induction false} StartsInStep(seen: Seen, idx: nat, m: Made)
    requires idx == m.idx >= 1 && OneToOne(PlacesOf(seen, m)) && forall t | t in seen ::
      1 <= seen[t] < idx && seen[t] in m.seen && m.seen[seen[t]].Table? && m.seen[seen[t]].t < |m.heap|
    ensures InStep(seen, idx, m)
  {
  }

  /** A number is given to each table met. */
  lemma {:induction false} ValueNumbers(h: Heap, v: Value, seen: Seen, idx: nat)
    requires GoodHeap(h) && GoodValue(v, |h|) && EncodeValue(h, v, seen, idx).Code?
    ensures var c := EncodeValue(h, v, seen, idx); c.idx - idx == |c.seen.Keys| - |seen.Keys|
    decreases |Unseen(h, seen)|, 0
  {
    if v.Table? && v.t !in seen {
      SeenMore(h, seen, v.t, idx);
      assert seen[v.t := idx].Keys == seen.Keys + {v.t};
      EntriesNumbers(h, h[v.t], seen[v.t := idx], idx + 1);
    }
  }

  lemma {:induction false} EntriesNumbers(h: Heap, es: seq<Entry>, seen: Seen, idx: nat)
    requires GoodHeap(h) && (forall i | 0 <= i < |es| :: GoodValue(es[i].key, |h|) && GoodValue(es[i].value, |h|))
    requires EncodeEntries(h, es, seen, idx).Code?
    ensures var c := EncodeEntries(h, es, seen, idx); c.idx - idx == |c.seen.Keys| - |seen.Keys|
    decreases |Unseen(h, seen)|, 1, |es|
  {
    if es != [] {
      var k := EncodeValue(h, es[0].key, seen, idx);
      SeenLess(h, seen, k.seen);
      ValueNumbers(h, es[0].key, seen, idx);
      var x := EncodeValue(h, es[0].value, k.seen, k.idx);
      SeenLess(h, k.seen, x.seen);
      ValueNumbers(h, es[0].value, k.seen, k.idx);
      EntriesNumbers(h, es[1..], x.seen, x.idx);
    }
  }

  /** The code of a value is short enough that all numbers fit into an int, if those of the constants do. */
  lemma {:induction false} NumbersFit(h: Heap, v: Value, seen: Seen, idx: nat)
    requires GoodHeap(h) && GoodValue(v, |h|) && EncodeValue(h, v, seen, idx).Code? && idx <= 0x4000_0000
    ensures EncodeValue(h, v, seen, idx).idx <= 0x8000_0000
  {
    if v.Table? && v.t !in seen {
      EntriesCost(h, h[v.t], seen[v.t := idx], idx + 1);
    }
  }

  /**
   * Every graph that can be encoded comes back as a copy of itself, with tables shared, and cycles closed, where they
   * were. There are less than 2^30 constants, which is all that a table can have.
   */
  lemma {:induction false} MarshalRoundTrip(h: Heap, v: Value, cs: Constants, rest: seq<Byte>, h': Heap, cs': Constants)
    returns (phi: Places)
    requires GoodHeap(h) && GoodValue(v, |h|) && Marshal(h, v, cs).Code? && Fit(cs, cs', h') && |cs| < 0x4000_0000
    ensures var d := Unmarshal(Marshal(h, v, cs).bytes + rest, h', cs');
      d.Got? && d.rest == rest && IsCopy(h, v, cs, phi, d.v, h', d.m.heap, cs')
    ensures phi.Keys == Marshal(h, v, cs).seen.Keys
  {
    hide EncodeValue, DecodeValue, AllKnown, Copies, Copy, InStep, Numbered, Stored, PlacesOf, Kept, OneToOne, Known,
      Given, IsCopy;
    var seen, idx, m := Numbered(cs), |cs| + 1, Before(h', cs');
    var c := EncodeValue(h, v, seen, idx);
    NumbersFit(h, v, seen, idx);
    ValueNumbers(h, v, seen, idx);
    assert ([MAR_MAGIC] + c.bytes + rest)[1..] == c.bytes + rest;
    BeforeInStep(cs, cs', h');
    ValueIsBack(h, v, seen, idx, m, rest);
    var d := DecodeValue(c.bytes + rest, m);
    InStepMeans(c.seen, c.idx, d.m);
    phi := PlacesOf(c.seen, d.m);
    CopyMade(h, v, cs, cs', h', PlacesOf(seen, m), phi, d.v, d.m.heap);
  }

  lemma {:induction false} CopyMade(h: Heap, v: Value, cs: Constants, cs': Constants, old': Heap, phi: Places,
    psi: Places, v': Value, h': Heap)
    requires Fit(cs, cs', old') && phi.Keys == Given(cs, cs').Keys
    requires forall t | t in phi :: Table(phi[t]) == Given(cs, cs')[t]
    requires Known(psi, v) && v' == Copy(psi, v) && Extends(phi, psi) && OneToOne(psi) && Kept(old', h')
    requires Copied(h, phi, psi, |old'|, h') && |psi.Keys| - |phi.Keys| == |h'| - |old'|
    ensures IsCopy(h, v, cs, psi, v', old', h', cs')
  {
    hide Known, Copy, Given, OneToOne, Kept, AllKnown, Copies;
  }

  lemma {:induction false} InStepMeans(seen: Seen, idx: nat, m: Made)
    requires InStep(seen, idx, m)
    ensures idx == m.idx && OneToOne(PlacesOf(seen, m)) && PlacesOf(seen, m).Keys == seen.Keys
  {
  }
}
