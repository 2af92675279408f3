/**
 * Eluna's timed events: a list of events by due time, a map of the same events by function reference, and a queue of
 * operations asked for during an update, carried out after it.
 */
module TimedEvents {

  datatype EventState = Run | Abort | Erase

  class LuaEvent {
    const min: nat
    const max: nat
    const funcRef: int
    /** How often it was meant to run; 0 for ever. */
    ghost const times: nat
    var delay: nat
    var repeats: nat
    var state: EventState
    /** How often it has run. */
    ghost var called: nat

    constructor (funcRef: int, min: nat, max: nat, repeats: nat)
      requires min <= max
      ensures this.funcRef == funcRef && this.min == min && this.max == max && times == repeats &&
        this.repeats == repeats
      ensures state == Run && called == 0 && delay == 0
    {
      this.funcRef, this.min, this.max, this.times := funcRef, min, max, repeats;
      this.delay, this.repeats, this.state, this.called := 0, repeats, Run, 0;
    }

    /** Runs used and runs left make up the runs meant. */
    ghost predicate Counted()
      reads this`repeats, this`called
    {
      min <= max && if times == 0 then repeats == 0 else called + repeats == times
    }

    /** An erased event stays erased. */
    method SetState(s: EventState)
      modifies this`state
      ensures state == if old(state) == Erase then Erase else s
    {
      if state != Erase { state := s; }
    }

    /** Any delay from min to max. */
    method GenerateDelay()
      requires min <= max
      modifies this`delay
      ensures min <= delay <= max
    {
      var d :| min <= d <= max;
      delay := d;
    }
  }

  datatype Op = Add(e: LuaEvent) | SetState(id: int, s: EventState) | SetStates(s: EventState) | ClearAll

  /** An entry of the list: when it is due, and the event. */
  datatype Due = Due(time: nat, e: LuaEvent)

  /** What the list says of an event: not there, or there in this state. */
  datatype Standing = Absent | Present(s: EventState)

  /** What one operation makes of it. */
  function Turned(op: Op, e: LuaEvent, was: Standing): Standing {
    match op
    case Add(f) => if f == e then Present(Run) else was
    case ClearAll => Absent
    case SetState(id, s) => if was.Present? && was.s != Erase && e.funcRef == id then Present(s) else was
    case SetStates(s) => if was.Present? && was.s != Erase then Present(s) else was
  }

  /** What the operations make of it, one after the other. */
  function Fate(ops: seq<Op>, e: LuaEvent, was: Standing): Standing {
    if ops == [] then was else Turned(ops[|ops| - 1], e, Fate(ops[..|ops| - 1], e, was))
  }

  /** An operation that keeps the event from running. */
  predicate Cancels(op: Op, e: LuaEvent) {
    match op
    case Add(_) => false
    case ClearAll => true
    case SetState(id, s) => id == e.funcRef && s != Run
    case SetStates(s) => s != Run
  }

  /** An operation that could make the event run again. */
  predicate SetsToRun(op: Op, e: LuaEvent) {
    op == Add(e) || op == SetState(e.funcRef, Run) || op == SetStates(Run)
  }

  /** Cancelled by one of the operations, and not set to run by a later one: the event will not run. */
  lemma {:induction false} CancelledStays(ops: seq<Op>, k: nat, e: LuaEvent, was: Standing)
    requires k < |ops| && Cancels(ops[k], e)
    requires forall j | k < j < |ops| :: !SetsToRun(ops[j], e)
    ensures Fate(ops, e, was) != Present(Run)
  {
    var n := |ops| - 1;
    if k < n {
      assert forall j | k < j < n :: ops[..n][j] == ops[j];
      CancelledStays(ops[..n], k, e, was);
    }
  }

  /** An erased event that is not added again stays erased, or goes. */
  lemma {:induction false} ErasedStays(ops: seq<Op>, e: LuaEvent)
    requires Add(e) !in ops
    ensures Fate(ops, e, Present(Erase)) in {Present(Erase), Absent} && Fate(ops, e, Absent) == Absent
  {
    if ops != [] {
      ErasedStays(ops[..|ops| - 1], e);
      assert ops[|ops| - 1] in ops;
    }
  }

  lemma {:induction false} FateMore(ops: seq<Op>, op: Op, e: LuaEvent, was: Standing)
    ensures Fate(ops + [op], e, was) == Turned(op, e, Fate(ops, e, was))
  {
    assert (ops + [op])[..|ops|] == ops;
  }

  // ---- the indexes

  ghost predicate Sorted(list: seq<Due>) {
    forall i, j | 0 <= i < j < |list| :: list[i].time <= list[j].time && list[i].e != list[j].e
  }

  /** The event stands in the list. */
  predicate Listed(list: seq<Due>, e: LuaEvent) {
    exists i :: 0 <= i < |list| && list[i].e == e
  }

  /** The event waits to be added. */
  ghost predicate Queued(ops: seq<Op>, e: LuaEvent) {
    exists k :: 0 <= k < |ops| && ops[k] == Add(e)
  }

  /** No event is to be added twice, or while it stands in the list. */
  ghost predicate Separate(list: seq<Due>, ops: seq<Op>) {
    && (forall k, l | 0 <= k < l < |ops| && ops[k].Add? && ops[l].Add? :: ops[k].e != ops[l].e)
    && (forall k | 0 <= k < |ops| && ops[k].Add? :: !Listed(list, ops[k].e))
  }

  /** Different events have different references. */
  ghost predicate Distinct(live: set<LuaEvent>) {
    forall e, f | e in live && f in live && e != f :: e.funcRef != f.funcRef
  }

  /** The list with one more entry, behind those that are due at the same time. */
  function Inserted(list: seq<Due>, d: Due): seq<Due> {
    if list == [] then [d]
    else if list[|list| - 1].time <= d.time then list + [d]
    else Inserted(list[..|list| - 1], d) + [list[|list| - 1]]
  }

  lemma {:induction false} InsertedIs(list: seq<Due>, d: Due) returns (k: nat)
    requires forall i, j | 0 <= i < j < |list| :: list[i].time <= list[j].time
    ensures k <= |list| && Inserted(list, d) == list[..k] + [d] + list[k..]
    ensures (forall i | 0 <= i < k :: list[i].time <= d.time) && forall i | k <= i < |list| :: d.time < list[i].time
  {
    if list == [] {
      k := 0;
    } else {
      var n := |list| - 1;
      if list[n].time <= d.time {
        k := |list|;
        assert list[k..] == [] && list[..k] == list;
      } else {
        k := InsertedIs(list[..n], d);
        assert list[..n][..k] == list[..k] && list[..n][k..] + [list[n]] == list[k..];
      }
    }
  }

  /** Position i of the list after d has been inserted at k. */
  lemma {:induction false} InsertedAt(list: seq<Due>, d: Due, k: nat)
    requires k <= |list|
    ensures var l := list[..k] + [d] + list[k..];
      |l| == |list| + 1 && l[k] == d && (forall i | 0 <= i < k :: l[i] == list[i]) &&
        forall i | k < i < |l| :: l[i] == list[i - 1]
  {
  }

  lemma {:induction false} InsertedListed(list: seq<Due>, d: Due, e: LuaEvent)
    requires forall i, j | 0 <= i < j < |list| :: list[i].time <= list[j].time
    ensures Listed(Inserted(list, d), e) <==> e == d.e || Listed(list, e)
  {
    var k := InsertedIs(list, d);
    InsertedAt(list, d, k);
    var l := Inserted(list, d);
    if Listed(list, e) {
      var i :| 0 <= i < |list| && list[i].e == e;
      assert l[if i < k then i else i + 1].e == e;
    }
    if e == d.e { assert l[k].e == e; }
    if Listed(l, e) && e != d.e {
      var i :| 0 <= i < |l| && l[i].e == e;
      assert list[if i < k then i else i - 1].e == e;
    }
  }

  lemma {:induction false} InsertedSorted(list: seq<Due>, d: Due)
    requires Sorted(list) && !Listed(list, d.e)
    ensures Sorted(Inserted(list, d))
  {
    var k := InsertedIs(list, d);
    InsertedAt(list, d, k);
    var l := Inserted(list, d);
    forall i | 0 <= i < |list| ensures list[i].e != d.e { assert !(list[i].e == d.e); }
    forall i, j | 0 <= i < j < |l| ensures l[i].time <= l[j].time && l[i].e != l[j].e {
      hide Listed;
      assert i != k ==> l[i] == list[if i < k then i else i - 1];
      assert j != k ==> l[j] == list[if j < k then j else j - 1];
    }
  }

  // ---- what the processor keeps, as said of its fields

  type States = map<LuaEvent, EventState>

  /** The map has just the events of the list that are not erased. */
  ghost predicate Mapped(list: seq<Due>, m: map<int, LuaEvent>, st: States) {
    && (forall i | 0 <= i < |list| ::
        list[i].e in st && (st[list[i].e] != Erase ==> list[i].e.funcRef in m && m[list[i].e.funcRef] == list[i].e))
    && (forall r | r in m :: Listed(list, m[r]) && m[r].funcRef == r && m[r] in st && st[m[r]] != Erase)
  }

  /** Every event is listed, queued, or in the hands of the update; the latter two kinds are to run. */
  ghost predicate Owned(list: seq<Due>, st: States, pending: seq<Op>, loose: set<LuaEvent>) {
    && (forall e | e in loose :: e in st && !Listed(list, e) && !Queued(pending, e) && st[e] == Run)
    && (forall k | 0 <= k < |pending| && pending[k].Add? :: pending[k].e in st && st[pending[k].e] == Run)
    && (forall e | e in st :: Listed(list, e) || Queued(pending, e) || e in loose)
  }

  ghost predicate Kept(list: seq<Due>, m: map<int, LuaEvent>, st: States, pending: seq<Op>, loose: set<LuaEvent>) {
    Sorted(list) && Separate(list, pending) && Distinct(st.Keys) && Mapped(list, m, st) &&
      Owned(list, st, pending, loose)
  }

  /** Where an event stands. */
  ghost function At(list: seq<Due>, st: States, e: LuaEvent): Standing {
    if Listed(list, e) && e in st then Present(st[e]) else Absent
  }

  /** The operations, and nothing else, lead from the first list to the second. */
  ghost predicate Explained(ops: seq<Op>, list0: seq<Due>, st0: States, list: seq<Due>, st: States) {
    st.Keys <= st0.Keys && forall e | e in st0 :: At(list, st, e) == Fate(ops, e, At(list0, st0, e))
  }

  ghost predicate Applied(op: Op, list0: seq<Due>, st0: States, list: seq<Due>, st: States) {
    st.Keys <= st0.Keys && forall e | e in st0 :: At(list, st, e) == Turned(op, e, At(list0, st0, e))
  }

  lemma {:induction false} ExplainedFirst(list: seq<Due>, st: States)
    ensures Explained([], list, st, list, st)
  {
  }

  lemma {:induction false} ExplainedOn(ops: seq<Op>, op: Op, list0: seq<Due>, st0: States, list: seq<Due>, st: States,
    list': seq<Due>, st': States)
    requires Explained(ops, list0, st0, list, st) && Applied(op, list, st, list', st') && (op.Add? ==> op.e in st)
    ensures Explained(ops + [op], list0, st0, list', st')
  {
    forall e | e in st0 ensures At(list', st', e) == Fate(ops + [op], e, At(list0, st0, e)) {
      hide Listed, Fate;
      FateMore(ops, op, e, At(list0, st0, e));
    }
  }

  // ---- when events are due

  /** The list after one operation; an event that is added is due so much later than now. */
  function Moved(op: Op, list: seq<Due>, now: nat, delay: nat): seq<Due> {
    match op
    case Add(e) => Inserted(list, Due(now + delay, e))
    case ClearAll => []
    case _ => list
  }

  /** The list after the operations, carried out one after the other. */
  function Replayed(ops: seq<Op>, list: seq<Due>, now: nat, delays: seq<nat>): seq<Due>
    requires |delays| == |ops|
  {
    if ops == [] then list
    else
      var k := |ops| - 1;
      Moved(ops[k], Replayed(ops[..k], list, now, delays[..k]), now, delays[k])
  }

  lemma {:induction false} ReplayedNone(list: seq<Due>, now: nat)
    ensures Replayed([], list, now, []) == list
  {
  }

  lemma {:induction false} ReplayedMore(ops: seq<Op>, op: Op, list: seq<Due>, now: nat, delays: seq<nat>, delay: nat)
    requires |delays| == |ops|
    ensures Replayed(ops + [op], list, now, delays + [delay]) == Moved(op, Replayed(ops, list, now, delays), now, delay)
  {
    assert (ops + [op])[..|ops|] == ops && (delays + [delay])[..|ops|] == delays;
  }

  /** The delay of every event that is added is one it may have. */
  predicate AreDelays(ops: seq<Op>, delays: seq<nat>) {
    |delays| == |ops| && forall k | 0 <= k < |ops| && ops[k].Add? :: ops[k].e.min <= delays[k] <= ops[k].e.max
  }

  lemma {:induction false} InsertedHas(list: seq<Due>, d: Due, x: Due)
    ensures x in Inserted(list, d) <==> x == d || x in list
  {
    if list != [] && list[|list| - 1].time > d.time {
      var n := |list| - 1;
      InsertedHas(list[..n], d, x);
      assert list == list[..n] + [list[n]];
    }
  }

  /** An entry keeps its due time, unless everything is cleared. */
  lemma {:induction false} EntryStays(ops: seq<Op>, list: seq<Due>, now: nat, delays: seq<nat>, x: Due)
    requires |delays| == |ops| && x in list && ClearAll !in ops
    ensures x in Replayed(ops, list, now, delays)
  {
    if ops != [] {
      var k := |ops| - 1;
      EntryStays(ops[..k], list, now, delays[..k], x);
      if ops[k].Add? {
        InsertedHas(Replayed(ops[..k], list, now, delays[..k]), Due(now + delays[k], ops[k].e), x);
      }
    }
  }

  /** An event that is added is due its delay later than now, unless everything is cleared behind it. */
  lemma {:induction false} AddedIsDue(ops: seq<Op>, list: seq<Due>, now: nat, delays: seq<nat>, k: nat)
    requires |delays| == |ops| && k < |ops| && ops[k].Add? && ClearAll !in ops[k + 1..]
    ensures Due(now + delays[k], ops[k].e) in Replayed(ops, list, now, delays)
  {
    var n, x := |ops| - 1, Due(now + delays[k], ops[k].e);
    var before := Replayed(ops[..n], list, now, delays[..n]);
    if k < n {
      assert ops[..n][k + 1..] == ops[k + 1..][..n - k - 1] && ops[n] == ops[k + 1..][n - k - 1];
      AddedIsDue(ops[..n], list, now, delays[..n], k);
    }
    if ops[n].Add? { InsertedHas(before, Due(now + delays[n], ops[n].e), x); }
  }

  /** Nothing else is on the list. */
  lemma {:induction false} EntryFrom(ops: seq<Op>, list: seq<Due>, now: nat, delays: seq<nat>, x: Due)
    requires |delays| == |ops| && x in Replayed(ops, list, now, delays)
    ensures (x in list && ClearAll !in ops) || exists k ::
      0 <= k < |ops| && ops[k] == Add(x.e) && x.time == now + delays[k] && ClearAll !in ops[k + 1..]
  {
    if ops != [] {
      var n := |ops| - 1;
      var before := Replayed(ops[..n], list, now, delays[..n]);
      if ops[n].Add? { InsertedHas(before, Due(now + delays[n], ops[n].e), x); }
      if ops[n].Add? && x == Due(now + delays[n], ops[n].e) {
        assert ops[n + 1..] == [];
      } else {
        EntryFrom(ops[..n], list, now, delays[..n], x);
        assert ops == ops[..n] + [ops[n]];
        if !(x in list && ClearAll !in ops[..n]) {
          var k :| 0 <= k < n && ops[..n][k] == Add(x.e) && x.time == now + delays[..n][k] &&
            ClearAll !in ops[..n][k + 1..];
          assert ops[k + 1..] == ops[..n][k + 1..] + [ops[n]];
        }
      }
    }
  }

  /** What is true of every event there is: the operations lead from where it stood to where it stands. */
  lemma {:induction false} FateOfAll(ops: seq<Op>, list0: seq<Due>, st0: States, list: seq<Due>, st: States,
    e: LuaEvent)
    requires Explained(ops, list0, st0, list, st) && (e !in st0 ==> Add(e) !in ops)
    ensures At(list, st, e) == Fate(ops, e, At(list0, st0, e))
  {
    if e !in st0 { ErasedStays(ops, e); }
  }

  /** An event goes into the list and the map. */
  lemma {:induction false} Entered(list: seq<Due>, m: map<int, LuaEvent>, st: States, pending: seq<Op>,
    loose: set<LuaEvent>, d: Due)
    requires Kept(list, m, st, pending, loose) && d.e in loose
    ensures Kept(Inserted(list, d), m[d.e.funcRef := d.e], st, pending, loose - {d.e})
  {
    var l, m' := Inserted(list, d), m[d.e.funcRef := d.e];
    InsertedSorted(list, d);
    forall e ensures Listed(l, e) <==> e == d.e || Listed(list, e) { InsertedListed(list, d, e); }
    hide Inserted, Sorted, Listed;
    EnteredSeparate(list, l, st, pending, loose, d.e);
    EnteredMapped(list, l, m, st, d.e);
    EnteredOwned(list, l, st, pending, loose, d.e);
  }

  lemma {:induction false} EnteredSeparate(list: seq<Due>, l: seq<Due>, st: States, pending: seq<Op>,
    loose: set<LuaEvent>, e: LuaEvent)
    requires Separate(list, pending) && Owned(list, st, pending, loose) && e in loose
    requires forall f :: Listed(l, f) <==> f == e || Listed(list, f)
    ensures Separate(l, pending)
  {
    hide Listed;
    forall k | 0 <= k < |pending| && pending[k].Add? ensures !Listed(l, pending[k].e) {
      assert pending[k] == Add(pending[k].e);
      assert Queued(pending, pending[k].e);
    }
  }

  lemma {:induction false} ListedAt(list: seq<Due>, i: int)
    requires 0 <= i < |list|
    ensures Listed(list, list[i].e)
  {
  }

  lemma {:induction false} EnteredMapped(list: seq<Due>, l: seq<Due>, m: map<int, LuaEvent>, st: States, e: LuaEvent)
    requires Mapped(list, m, st) && Distinct(st.Keys) && e in st && st[e] != Erase && !Listed(list, e)
    requires forall f :: Listed(l, f) <==> f == e || Listed(list, f)
    ensures Mapped(l, m[e.funcRef := e], st)
  {
    var m' := m[e.funcRef := e];
    forall i | 0 <= i < |l|
      ensures l[i].e in st && (st[l[i].e] != Erase ==> l[i].e.funcRef in m' && m'[l[i].e.funcRef] == l[i].e)
    {
      var f := l[i].e;
      ListedAt(l, i);
      if f != e {
        assert Listed(list, f);
        var j :| 0 <= j < |list| && list[j].e == f;
      }
    }
    forall r | r in m' ensures Listed(l, m'[r]) && m'[r].funcRef == r && m'[r] in st && st[m'[r]] != Erase {
      hide Listed;
      if r != e.funcRef { assert r in m; }
    }
  }

  lemma {:induction false} EnteredOwned(list: seq<Due>, l: seq<Due>, st: States, pending: seq<Op>, loose: set<LuaEvent>,
    e: LuaEvent)
    requires Owned(list, st, pending, loose) && e in loose
    requires forall f :: Listed(l, f) <==> f == e || Listed(list, f)
    ensures Owned(l, st, pending, loose - {e})
  {
    hide Listed, Queued;
  }

  // ---- how each step keeps it

  lemma {:induction false} QueuedMore(ops: seq<Op>, op: Op, e: LuaEvent)
    ensures Queued(ops + [op], e) <==> Queued(ops, e) || op == Add(e)
  {
    if Queued(ops, e) {
      var k :| 0 <= k < |ops| && ops[k] == Add(e);
      assert (ops + [op])[k] == Add(e);
    }
    if op == Add(e) { assert (ops + [op])[|ops|] == Add(e); }
  }

  lemma {:induction false} QueuedLess(op: Op, ops: seq<Op>, e: LuaEvent)
    ensures Queued([op] + ops, e) <==> Queued(ops, e) || op == Add(e)
  {
    if Queued(ops, e) {
      var k :| 0 <= k < |ops| && ops[k] == Add(e);
      assert ([op] + ops)[k + 1] == Add(e);
    }
    if op == Add(e) { assert ([op] + ops)[0] == Add(e); }
  }

  lemma {:induction false} AddQueued(list: seq<Due>, m: map<int, LuaEvent>, st: States, pending: seq<Op>,
    loose: set<LuaEvent>, e: LuaEvent)
    requires Kept(list, m, st, pending, loose) && e in loose
    ensures Kept(list, m, st, pending + [Add(e)], loose - {e})
  {
    hide Sorted, Listed, Mapped, Distinct;
    var p := pending + [Add(e)];
    forall f ensures Queued(p, f) <==> Queued(pending, f) || f == e { QueuedMore(pending, Add(e), f); }
    forall k | 0 <= k < |pending| && pending[k].Add? ensures pending[k].e != e {
      assert pending[k] == Add(pending[k].e);
      assert Queued(pending, pending[k].e);
    }
  }

  lemma {:induction false} OtherQueued(list: seq<Due>, m: map<int, LuaEvent>, st: States, pending: seq<Op>,
    loose: set<LuaEvent>, op: Op)
    requires Kept(list, m, st, pending, loose) && !op.Add?
    ensures Kept(list, m, st, pending + [op], loose)
  {
    hide Sorted, Listed, Mapped, Distinct;
    forall f ensures Queued(pending + [op], f) <==> Queued(pending, f) { QueuedMore(pending, op, f); }
  }

  lemma {:induction false} OpTaken(list: seq<Due>, m: map<int, LuaEvent>, st: States, op: Op, rest: seq<Op>,
    loose: set<LuaEvent>)
    requires Kept(list, m, st, [op] + rest, loose)
    ensures Kept(list, m, st, rest, if op.Add? then loose + {op.e} else loose)
  {
    hide Sorted, Listed, Mapped, Distinct, Separate, Owned;
    TakenSeparate(list, op, rest);
    TakenOwned(list, st, op, rest, loose);
  }

  lemma {:induction false} TakenSeparate(list: seq<Due>, op: Op, rest: seq<Op>)
    requires Separate(list, [op] + rest)
    ensures Separate(list, rest) && (op.Add? ==> !Listed(list, op.e) && !Queued(rest, op.e))
  {
    hide Listed;
    var p := [op] + rest;
    assert forall k | 0 <= k < |rest| :: rest[k] == p[k + 1];
    assert p[0] == op;
  }

  lemma {:induction false} TakenOwned(list: seq<Due>, st: States, op: Op, rest: seq<Op>, loose: set<LuaEvent>)
    requires Owned(list, st, [op] + rest, loose) && (op.Add? ==> !Listed(list, op.e) && !Queued(rest, op.e))
    ensures Owned(list, st, rest, if op.Add? then loose + {op.e} else loose)
  {
    hide Listed;
    var p := [op] + rest;
    forall f
      ensures Queued(p, f) <==> Queued(rest, f) || op == Add(f)
    {
      QueuedLess(op, rest, f);
    }
    hide Queued;
    assert p[0] == op;
    forall k | 0 <= k < |rest| && rest[k].Add?
      ensures rest[k].e in st && st[rest[k].e] == Run
    {
      assert rest[k] == p[k + 1];
    }
  }

  /** A new event, with a reference no other has. */
  lemma {:induction false} Born(list: seq<Due>, m: map<int, LuaEvent>, st: States, pending: seq<Op>,
    loose: set<LuaEvent>, e: LuaEvent)
    requires Kept(list, m, st, pending, loose) && e !in st && forall f | f in st :: f.funcRef != e.funcRef
    ensures Kept(list, m, st[e := Run], pending, loose + {e})
  {
    hide Sorted;
  }

  lemma {:induction false} RestListed(list: seq<Due>, e: LuaEvent)
    requires Sorted(list) && list != []
    ensures Sorted(list[1..]) && (Listed(list[1..], e) <==> Listed(list, e) && e != list[0].e)
  {
    var l := list[1..];
    if Listed(l, e) {
      var i :| 0 <= i < |l| && l[i].e == e;
      assert list[i + 1].e == e;
    }
    if Listed(list, e) && e != list[0].e {
      var i :| 0 <= i < |list| && list[i].e == e;
      assert l[i - 1].e == e;
    }
  }

  /** The first event of the list is taken off. */
  lemma {:induction false} FirstTaken(list: seq<Due>, m: map<int, LuaEvent>, st: States, pending: seq<Op>,
    loose: set<LuaEvent>)
    requires Kept(list, m, st, pending, loose) && list != []
    ensures list[0].e in st && list[0].e !in loose
    ensures var e, m' := list[0].e, if st[list[0].e] == Erase then m else m - {list[0].e.funcRef};
      if st[e] == Run then Kept(list[1..], m', st, pending, loose + {e})
        else Kept(list[1..], m', st - {e}, pending, loose)
  {
    var e := list[0].e;
    ListedAt(list, 0);
    forall f ensures Sorted(list[1..]) && (Listed(list[1..], f) <==> Listed(list, f) && f != e) { RestListed(list, f); }
    FirstUnmapped(list, m, st);
    hide Mapped, Sorted, Listed;
    forall k | 0 <= k < |pending| && pending[k].Add?
      ensures pending[k].e != e
    {
      assert pending[k] == Add(pending[k].e);
    }
  }

  lemma {:induction false} FirstUnmapped(list: seq<Due>, m: map<int, LuaEvent>, st: States)
    requires Mapped(list, m, st) && Sorted(list) && Distinct(st.Keys) && list != []
    ensures list[0].e in st
    ensures var e, m' := list[0].e, if st[list[0].e] == Erase then m else m - {list[0].e.funcRef};
      if st[e] == Run then Mapped(list[1..], m', st) else Mapped(list[1..], m', st - {e})
  {
    var e := list[0].e;
    var m' := if st[e] == Erase then m else m - {e.funcRef};
    forall i | 0 <= i < |list[1..]|
      ensures list[1..][i].e != e && list[1..][i].e in st && list[1..][i].e.funcRef != e.funcRef
    {
      assert list[0].e != list[i + 1].e;
    }
    forall r | r in m' ensures m'[r] != e && Listed(list[1..], m'[r]) {
      RestListed(list, m'[r]);
    }
  }

  /** An event in the update's hands is done with. */
  lemma {:induction false} LooseDropped(list: seq<Due>, m: map<int, LuaEvent>, st: States, pending: seq<Op>,
    loose: set<LuaEvent>, e: LuaEvent)
    requires Kept(list, m, st, pending, loose) && e in loose
    ensures Kept(list, m, st - {e}, pending, loose - {e})
  {
    hide Sorted;
    forall i | 0 <= i < |list| ensures list[i].e != e { ListedAt(list, i); }
    forall k | 0 <= k < |pending| && pending[k].Add? ensures pending[k].e != e {
      assert pending[k] == Add(pending[k].e);
      assert Queued(pending, pending[k].e);
    }
  }

  /** SetState on the event the map has for id. */
  lemma {:induction false} OneSet(list: seq<Due>, m: map<int, LuaEvent>, st: States, pending: seq<Op>,
    loose: set<LuaEvent>, id: int, s: EventState)
    requires Kept(list, m, st, pending, loose)
    ensures id in m ==> m[id] in st && st[m[id]] != Erase && m[id].funcRef == id
    ensures Kept(list, if s == Erase then m - {id} else m, if id in m then st[m[id] := s] else st, pending, loose)
  {
    hide Sorted;
    var m', st' := if s == Erase then m - {id} else m, if id in m then st[m[id] := s] else st;
    if id in m {
      var e := m[id];
      assert Listed(list, e);
      forall k | 0 <= k < |pending| && pending[k].Add? ensures pending[k].e != e { }
      OneSetMapped(list, m, st, id, s);
    }
  }

  lemma {:induction false} OneSetMapped(list: seq<Due>, m: map<int, LuaEvent>, st: States, id: int, s: EventState)
    requires Mapped(list, m, st) && Distinct(st.Keys) && id in m
    ensures Mapped(list, if s == Erase then m - {id} else m, st[m[id] := s])
  {
    hide Listed;
  }

  /** The states after SetStates. */
  ghost function AllSet(list: seq<Due>, st: States, s: EventState): States {
    map e | e in st :: if Listed(list, e) && st[e] != Erase then s else st[e]
  }

  lemma {:induction false} EverySet(list: seq<Due>, m: map<int, LuaEvent>, st: States, pending: seq<Op>,
    loose: set<LuaEvent>, s: EventState)
    requires Kept(list, m, st, pending, loose)
    ensures Kept(list, if s == Erase then map[] else m, AllSet(list, st, s), pending, loose)
  {
    hide Sorted, Listed;
    var st' := AllSet(list, st, s);
    assert st'.Keys == st.Keys;
    EverySetMapped(list, m, st, s);
  }

  lemma {:induction false} EverySetMapped(list: seq<Due>, m: map<int, LuaEvent>, st: States, s: EventState)
    requires Mapped(list, m, st)
    ensures Mapped(list, if s == Erase then map[] else m, AllSet(list, st, s))
  {
    forall i | 0 <= i < |list| ensures Listed(list, list[i].e) { ListedAt(list, i); }
    hide Listed;
  }

  /** The states after ClearAllEvents: those of the events not in the list. */
  ghost function Unlisted(list: seq<Due>, st: States): States {
    map e | e in st && !Listed(list, e) :: st[e]
  }

  lemma {:induction false} AllCleared(list: seq<Due>, m: map<int, LuaEvent>, st: States, pending: seq<Op>,
    loose: set<LuaEvent>)
    requires Kept(list, m, st, pending, loose)
    ensures Kept([], map[], Unlisted(list, st), pending, loose)
  {
    forall e ensures !Listed([], e) { }
    hide Listed;
  }
}
