/** Eluna's event processor: what every operation keeps, and what an update calls. */
module EventProcessor {
  import opened TimedEvents

  /** The events among the list's that are to run, as far as w says that their object is in the world. */
  ghost function Called(list: seq<Due>, st: States, w: seq<bool>): seq<LuaEvent>
    requires |w| == |list|
  {
    if list == [] then []
    else
      var n := |list| - 1;
      Called(list[..n], st, w[..n]) + if list[n].e in st && st[list[n].e] == Run && w[n] then [list[n].e] else []
  }

  lemma {:induction false} CalledListed(list: seq<Due>, st: States, w: seq<bool>, e: LuaEvent)
    requires |w| == |list| && e in Called(list, st, w)
    ensures Listed(list, e) && e in st && st[e] == Run
  {
    var n := |list| - 1;
    if e in Called(list[..n], st, w[..n]) {
      CalledListed(list[..n], st, w[..n], e);
      var i :| 0 <= i < n && list[..n][i].e == e;
      assert list[i].e == e;
    } else {
      assert list[n].e == e;
    }
  }

  /** An update calls no event twice. */
  lemma {:induction false} CalledOnce(list: seq<Due>, st: States, w: seq<bool>, i: nat, j: nat)
    requires |w| == |list| && Sorted(list) && i < j < |Called(list, st, w)|
    ensures Called(list, st, w)[i] != Called(list, st, w)[j]
  {
    var n := |list| - 1;
    var c := Called(list[..n], st, w[..n]);
    if j < |c| {
      CalledOnce(list[..n], st, w[..n], i, j);
    } else {
      CalledListed(list[..n], st, w[..n], c[i]);
      var x :| 0 <= x < n && list[..n][x].e == c[i];
      assert list[x].e != list[n].e;
    }
  }

  /** Called are just those of the list's events that were to run, with their object there when it was their turn. */
  lemma {:induction false} CalledIs(list: seq<Due>, st: States, w: seq<bool>, i: nat)
    requires |w| == |list| && Sorted(list) && i < |list| && list[i].e in st
    ensures list[i].e in Called(list, st, w) <==> st[list[i].e] == Run && w[i]
  {
    var n := |list| - 1;
    if i < n {
      CalledIs(list[..n], st, w[..n], i);
      assert list[i].e != list[n].e;
    } else {
      NotYetCalled(list, st, w[..n], n);
    }
  }

  lemma {:induction false} NotYetCalled(list: seq<Due>, st: States, w: seq<bool>, n: nat)
    requires n < |list| && |w| == n && Sorted(list)
    ensures list[n].e !in Called(list[..n], st, w)
  {
    forall e | e in Called(list[..n], st, w)
      ensures e != list[n].e
    {
      CalledListed(list[..n], st, w, e);
      var x :| 0 <= x < n && list[..n][x].e == e;
      assert list[x].e == e;
    }
  }

  /** Runs left after a call, or without one; 0 stands for any number. */
  function Left(repeats: nat, called: bool): nat {
    if called && repeats > 0 then repeats - 1 else repeats
  }

  lemma {:induction false} CalledMore(list: seq<Due>, st: States, w: seq<bool>, d: Due, b: bool)
    requires |w| == |list|
    ensures Called(list + [d], st, w + [b]) == Called(list, st, w) + if d.e in st && st[d.e] == Run && b then [d.e]
      else []
  {
    assert (list + [d])[..|list|] == list && (w + [b])[..|w|] == w;
  }

  /** Of the runs each event had, one is used if it has been called. */
  ghost predicate Spent(had: map<LuaEvent, nat>, left: map<LuaEvent, nat>, called: seq<LuaEvent>) {
    left.Keys == had.Keys && forall e | e in had :: left[e] == Left(had[e], e in called)
  }

  lemma {:induction false} NoneSpent(had: map<LuaEvent, nat>, list: seq<Due>, st: States)
    ensures Spent(had, had, Called(list[..0], st, []))
  {
  }

  /** One event's turn changes whether it has been called, and no other's. */
  lemma {:induction false} SpentOn(had: map<LuaEvent, nat>, left: map<LuaEvent, nat>, left': map<LuaEvent, nat>,
    list: seq<Due>, st: States, w: seq<bool>, n: nat, b: bool)
    requires n < |list| && |w| == n && Sorted(list) && list[n].e in st && list[n].e in had
    requires Spent(had, left, Called(list[..n], st, w)) && left'.Keys == left.Keys
    requires forall e | e in had && e != list[n].e :: left'[e] == left[e]
    requires left'[list[n].e] == Left(left[list[n].e], st[list[n].e] == Run && b)
    ensures Spent(had, left', Called(list[..n + 1], st, w + [b]))
  {
    assert list[..n + 1] == list[..n] + [list[n]];
    CalledMore(list[..n], st, w, list[n], b);
    NotYetCalled(list, st, w, n);
  }

  lemma {:induction false} NotSpent(had: map<LuaEvent, nat>, left: map<LuaEvent, nat>, list: seq<Due>, st: States,
    w: seq<bool>, n: nat)
    requires n < |list| && |w| == n && Sorted(list) && list[n].e in had
    requires Spent(had, left, Called(list[..n], st, w))
    ensures list[n].e in left && left[list[n].e] == had[list[n].e]
  {
    NotYetCalled(list, st, w, n);
  }

  /** What an update queues: each event that runs again, and behind it what its call asks for. */
  ghost function Asked(list: seq<Due>, st: States, last: set<LuaEvent>, scripts: seq<seq<Op>>): seq<Op>
    requires |scripts| == |list|
  {
    if list == [] then []
    else
      var n := |list| - 1;
      Asked(list[..n], st, last, scripts[..n]) + Again(list[n].e, st, last) + scripts[n]
  }

  /** An event that is to run, and not for the last time, is queued to be added again. */
  ghost function Again(e: LuaEvent, st: States, last: set<LuaEvent>): seq<Op> {
    if e in st && st[e] == Run && e !in last then [Add(e)] else []
  }

  lemma {:induction false} AskedMore(list: seq<Due>, st: States, last: set<LuaEvent>, scripts: seq<seq<Op>>, d: Due,
    ops: seq<Op>)
    requires |scripts| == |list|
    ensures Asked(list + [d], st, last, scripts + [ops]) == Asked(list, st, last, scripts) + Again(d.e, st, last) + ops
  {
    assert (list + [d])[..|list|] == list && (scripts + [ops])[..|scripts|] == scripts;
  }

  lemma {:induction false} AskedHas(list: seq<Due>, st: States, last: set<LuaEvent>, scripts: seq<seq<Op>>, i: nat)
    requires |scripts| == |list| && i < |list| && list[i].e in st && st[list[i].e] == Run && list[i].e !in last
    ensures Add(list[i].e) in Asked(list, st, last, scripts)
  {
    var n := |list| - 1;
    if i < n { AskedHas(list[..n], st, last, scripts[..n], i); }
  }

  /**
   * An event that was due and to run, and not for the last time, is on the list again, due a delay it may have from
   * now, unless one of the calls had everything cleared.
   */
  lemma {:induction false} ComesBack(list: seq<Due>, st: States, last: set<LuaEvent>, scripts: seq<seq<Op>>,
    rest: seq<Due>, now: nat, delays: seq<nat>, i: nat)
    returns (k: nat)
    requires |scripts| == |list| && i < |list| && list[i].e in st && st[list[i].e] == Run && list[i].e !in last
    requires AreDelays(Asked(list, st, last, scripts), delays) && ClearAll !in Asked(list, st, last, scripts)
    ensures k < |delays| && list[i].e.min <= delays[k] <= list[i].e.max
    ensures Due(now + delays[k], list[i].e) in Replayed(Asked(list, st, last, scripts), rest, now, delays)
  {
    hide Replayed, Asked;
    var ops := Asked(list, st, last, scripts);
    AskedHas(list, st, last, scripts, i);
    k :| 0 <= k < |ops| && ops[k] == Add(list[i].e);
    AddedIsDue(ops, rest, now, delays, k);
  }

  /** An operation that a call asks for stands behind the return of its own event; only later ones follow it. */
  lemma {:induction false} AskedAt(list: seq<Due>, st: States, last: set<LuaEvent>, scripts: seq<seq<Op>>, i: nat,
    k: nat)
    returns (p: nat)
    requires |scripts| == |list| && Sorted(list) && i < |list| && k < |scripts[i]|
    requires forall j | k < j < |scripts[i]| :: !SetsToRun(scripts[i][j], list[i].e)
    requires forall m, j | i < m < |list| && 0 <= j < |scripts[m]| :: !SetsToRun(scripts[m][j], list[i].e)
    ensures var ops := Asked(list, st, last, scripts);
      p < |ops| && ops[p] == scripts[i][k] && forall j | p < j < |ops| :: !SetsToRun(ops[j], list[i].e)
  {
    var n := |list| - 1;
    var front := Asked(list[..n], st, last, scripts[..n]) + Again(list[n].e, st, last);
    var ops := Asked(list, st, last, scripts);
    assert ops == front + scripts[n];
    if i == n {
      p := |front| + k;
      forall j | p < j < |ops| ensures !SetsToRun(ops[j], list[i].e) { assert ops[j] == scripts[n][j - |front|]; }
    } else {
      p := AskedAt(list[..n], st, last, scripts[..n], i, k);
      assert list[i].e != list[n].e;
      forall j | p < j < |ops| ensures !SetsToRun(ops[j], list[i].e) {
        if j >= |front| { assert ops[j] == scripts[n][j - |front|]; }
      }
    }
  }

  /** A call that cancels its own event, with nothing setting it to run after that: the event will not run again. */
  lemma {:induction false} CancelsItself(list: seq<Due>, st: States, last: set<LuaEvent>, scripts: seq<seq<Op>>, i: nat,
    k: nat, was: Standing)
    requires |scripts| == |list| && Sorted(list) && i < |list| && k < |scripts[i]| && Cancels(scripts[i][k], list[i].e)
    requires forall j | k < j < |scripts[i]| :: !SetsToRun(scripts[i][j], list[i].e)
    requires forall m, j | i < m < |list| && 0 <= j < |scripts[m]| :: !SetsToRun(scripts[m][j], list[i].e)
    ensures Fate(Asked(list, st, last, scripts), list[i].e, was) != Present(Run)
  {
    hide Asked;
    var p := AskedAt(list, st, last, scripts, i, k);
    CancelledStays(Asked(list, st, last, scripts), p, list[i].e, was);
  }

  /** The update has dealt with the first n events of the list, all of them due. */
  ghost predicate Went(list: seq<Due>, now: nat, st: States, last: set<LuaEvent>, calls0: seq<LuaEvent>,
    n: nat, w: seq<bool>, scripts: seq<seq<Op>>, calls: seq<LuaEvent>, ops: seq<Op>)
  {
    && n <= |list| && |w| == n && |scripts| == n
    && (forall i | 0 <= i < n :: list[i].time <= now)
    && calls == calls0 + Called(list[..n], st, w)
    && ops == Asked(list[..n], st, last, scripts)
  }

  lemma {:induction false} WentNone(list: seq<Due>, now: nat, st: States, last: set<LuaEvent>, calls0: seq<LuaEvent>)
    ensures Went(list, now, st, last, calls0, 0, [], [], calls0, [])
  {
  }

  lemma {:induction false} WentOn(list: seq<Due>, now: nat, st: States, last: set<LuaEvent>, calls0: seq<LuaEvent>,
    n: nat, w: seq<bool>, scripts: seq<seq<Op>>, calls: seq<LuaEvent>, ops: seq<Op>, b: bool,
    asked: seq<Op>)
    requires Went(list, now, st, last, calls0, n, w, scripts, calls, ops) && n < |list| && list[n].time <= now
    requires list[n].e in st
    ensures Went(list, now, st, last, calls0, n + 1, w + [b], scripts + [asked],
      calls + (if st[list[n].e] == Run && b then [list[n].e] else []), ops + Again(list[n].e, st, last) + asked)
  {
    hide Called, Asked;
    CalledMore(list[..n], st, w, list[n], b);
    AskedMore(list[..n], st, last, scripts, list[n], asked);
    assert list[..n] + [list[n]] == list[..n + 1];
  }

  class Processor {
    /** Whether it belongs to an object, whose presence in the world its events need. */
    const hasObject: bool
    var m_time: nat
    var isUpdating: bool
    var deferredOps: seq<Op>
    var eventList: seq<Due>
    var eventMap: map<int, LuaEvent>
    /** All events there are. Their references are taken in the Lua registry. */
    var live: set<LuaEvent>
    /** Every call made so far. */
    ghost var calls: seq<LuaEvent>

    ghost function Now(): States
      reads this`live, live`state
    {
      map e | e in live :: e.state
    }

    /** Runs used and runs left, of every event; those not in the update's hands have some left. */
    ghost predicate Counts(loose: set<LuaEvent>)
      reads this`live, this`calls, live`repeats, live`called
    {
      && (forall e | e in live ::
          e.Counted() && e.called == multiset(calls)[e] && (e !in loose && e.times > 0 ==> e.repeats > 0))
      && (forall e | e in calls && e.times > 0 :: multiset(calls)[e] <= e.times)
    }

    /** What holds at any time: pending operations, and events in the update's hands, being given. */
    ghost predicate Valid(pending: seq<Op>, loose: set<LuaEvent>)
      reads this, live
    {
      Kept(eventList, eventMap, Now(), pending, loose) && Counts(loose)
    }

    /** Between updates: nothing is deferred, every event is listed, and the map has those not erased. */
    ghost predicate AtRest()
      reads this, live
    {
      !isUpdating && deferredOps == [] && Valid([], {})
    }

    constructor (hasObject: bool)
      ensures AtRest() && live == {} && calls == [] && this.hasObject == hasObject
    {
      this.hasObject := hasObject;
      m_time, isUpdating, deferredOps, eventList, eventMap, live, calls := 0, false, [], [], map[], {}, [];
    }

    lemma {:induction false} Has(pending: seq<Op>, loose: set<LuaEvent>, e: LuaEvent)
      requires Valid(pending, loose) && (e in loose || Listed(eventList, e))
      ensures e in live && e.Counted() && (e in loose ==> e.state == Run)
    {
      if Listed(eventList, e) {
        var i :| 0 <= i < |eventList| && eventList[i].e == e;
      }
    }

    /** AddEvent on an event of its own. */
    method AddEvent(e: LuaEvent, ghost pending: seq<Op>, ghost loose: set<LuaEvent>)
      requires Valid(pending, loose) && e in loose && (isUpdating ==> pending == deferredOps) &&
        (e.times > 0 ==> e.repeats > 0)
      modifies this`deferredOps, this`eventList, this`eventMap, e`delay
      ensures if isUpdating then Valid(deferredOps, loose - {e}) else Valid(pending, loose - {e})
      ensures isUpdating ==>
        deferredOps == old(deferredOps) + [Add(e)] && eventList == old(eventList) && eventMap == old(eventMap)
      ensures !isUpdating ==>
        deferredOps == old(deferredOps) && e.min <= e.delay <= e.max && eventMap == old(eventMap)[e.funcRef := e]
      ensures !isUpdating ==> eventList == Inserted(old(eventList), Due(m_time + e.delay, e))
    {
      hide Kept, Counts, Now, Inserted;
      KeptLoose(pending, loose, e);
      Has(pending, loose, e);
      ghost var st := Now();
      if isUpdating {
        deferredOps := deferredOps + [Add(e)];
        AddQueued(eventList, eventMap, st, pending, loose, e);
      } else {
        e.GenerateDelay();
        Entered(eventList, eventMap, st, pending, loose, Due(m_time + e.delay, e));
        eventList := Inserted(eventList, Due(m_time + e.delay, e));
        eventMap := eventMap[e.funcRef := e];
      }
      CountsLess(loose, e);
    }

    lemma {:induction false} CountsLess(loose: set<LuaEvent>, e: LuaEvent)
      requires Counts(loose) && (e.times > 0 ==> e.repeats > 0)
      ensures Counts(loose - {e})
    {
    }

    lemma {:induction false} KeptLoose(pending: seq<Op>, loose: set<LuaEvent>, e: LuaEvent)
      requires Valid(pending, loose) && e in loose
      ensures e in live
    {
    }

    /** SetState */
    method SetState(eventId: int, s: EventState, ghost pending: seq<Op>, ghost loose: set<LuaEvent>)
      requires Valid(pending, loose) && (isUpdating ==> pending == deferredOps)
      modifies this`deferredOps, this`eventMap, live`state
      ensures if isUpdating then Valid(deferredOps, loose) else Valid(pending, loose)
      ensures isUpdating ==>
        deferredOps == old(deferredOps) + [Op.SetState(eventId, s)] && Now() == old(Now()) && eventMap == old(eventMap)
      ensures !isUpdating ==>
        deferredOps == old(deferredOps) && Applied(Op.SetState(eventId, s), eventList, old(Now()), eventList, Now())
    {
      hide Counts;
      ghost var st, m := Now(), eventMap;
      if isUpdating {
        OtherQueued(eventList, eventMap, st, pending, loose, Op.SetState(eventId, s));
        deferredOps := deferredOps + [Op.SetState(eventId, s)];
        return;
      }
      OneSet(eventList, m, st, pending, loose, eventId, s);
      OneSetApplied(eventList, m, st, pending, loose, eventId, s);
      MapFinds(eventList, m, st, pending, loose, eventId);
      hide Kept, Applied;
      if eventId in eventMap {
        eventMap[eventId].SetState(s);
        assert Now() == st[m[eventId] := s];
      }
      if s == Erase { eventMap := eventMap - {eventId}; }
    }

    /** SetStates: every listed event. */
    method SetStates(s: EventState, ghost pending: seq<Op>, ghost loose: set<LuaEvent>)
      requires Valid(pending, loose) && (isUpdating ==> pending == deferredOps)
      modifies this`deferredOps, this`eventMap, live`state
      ensures if isUpdating then Valid(deferredOps, loose) else Valid(pending, loose)
      ensures isUpdating ==>
        deferredOps == old(deferredOps) + [Op.SetStates(s)] && Now() == old(Now()) && eventMap == old(eventMap)
      ensures !isUpdating ==>
        deferredOps == old(deferredOps) && Applied(Op.SetStates(s), eventList, old(Now()), eventList, Now())
    {
      hide Counts;
      ghost var st := Now();
      if isUpdating {
        OtherQueued(eventList, eventMap, st, pending, loose, Op.SetStates(s));
        deferredOps := deferredOps + [Op.SetStates(s)];
        return;
      }
      EverySet(eventList, eventMap, st, pending, loose, s);
      SetListed(s, st, pending, loose);
      if s == Erase { eventMap := map[]; }
    }

    /** Every event of the list gets the state, unless it is erased. */
    method SetListed(s: EventState, ghost st: States, ghost pending: seq<Op>, ghost loose: set<LuaEvent>)
      requires Kept(eventList, eventMap, st, pending, loose) && st == Now()
      modifies live`state
      ensures Now() == AllSet(eventList, st, s)
    {
      hide Listed;
      ListedLive(st, pending, loose);
      NoneListed();
      assert eventList[..0] == [];
      for i := 0 to |eventList|
        invariant forall e | e in live :: e.state == if Listed(eventList[..i], e) && st[e] != Erase then s else st[e]
      {
        ListedAt(eventList, i);
        ListedMore(eventList, i);
        var e := eventList[i].e;
        e.SetState(s);
      }
      assert eventList[..|eventList|] == eventList;
    }

    lemma {:induction false} ListedLive(st: States, pending: seq<Op>, loose: set<LuaEvent>)
      requires Kept(eventList, eventMap, st, pending, loose) && st == Now()
      ensures forall e | Listed(eventList, e) :: e in live
    {
    }

    /** ClearAllEvents, when it is not deferred. */
    method ClearAllEvents(ghost pending: seq<Op>, ghost loose: set<LuaEvent>)
      requires Valid(pending, loose) && (isUpdating ==> pending == deferredOps)
      modifies this`deferredOps, this`eventList, this`eventMap, this`live
      ensures if isUpdating then Valid(deferredOps, loose) else Valid(pending, loose)
      ensures isUpdating ==>
        deferredOps == old(deferredOps) + [ClearAll] && eventList == old(eventList) && eventMap == old(eventMap) &&
        live == old(live)
      ensures !isUpdating ==> deferredOps == [] && eventList == [] && eventMap == map[] && live <= old(live)
      ensures !isUpdating ==> Applied(ClearAll, old(eventList), old(Now()), eventList, Now())
    {
      hide Kept, Counts, Applied;
      ghost var st := Now();
      if isUpdating {
        OtherQueued(eventList, eventMap, st, pending, loose, ClearAll);
        deferredOps := deferredOps + [ClearAll];
        return;
      }
      RemoveAll(pending, loose);
    }

    twostate lemma {:induction false} CountsFewer(loose: set<LuaEvent>)
      requires old(Counts(loose)) && live <= old(live) && calls == old(calls)
      requires forall e | e in live :: e.repeats == old(e.repeats) && e.called == old(e.called)
      ensures Counts(loose)
    {
    }

    /** The events of the list are deleted, and everything is cleared. */
    method RemoveAll(ghost pending: seq<Op>, ghost loose: set<LuaEvent>)
      requires !isUpdating && Valid(pending, loose)
      modifies this`deferredOps, this`eventList, this`eventMap, this`live
      ensures Valid(pending, loose) && deferredOps == [] && eventList == [] && eventMap == map[] && live <= old(live)
      ensures Applied(ClearAll, old(eventList), old(Now()), eventList, Now())
    {
      hide Kept, Listed, Applied, Counts;
      ghost var st := Now();
      AllCleared(eventList, eventMap, st, pending, loose);
      ClearedApplied(eventList, st);
      ghost var st' := Unlisted(eventList, st);
      live := set e | e in live && !Listed(eventList, e);
      deferredOps, eventList, eventMap := [], [], map[];
      CountsFewer(loose);
      assert Now() == st';
    }

    lemma {:induction false} HandedOut(e: LuaEvent, rest: seq<Op>)
      requires Valid([Add(e)] + rest, {})
      ensures Valid(rest, {e}) && e in live && e.state == Run && (e.times > 0 ==> e.repeats > 0)
    {
      OpTaken(eventList, eventMap, Now(), Add(e), rest, {});
      assert {} + {e} == {e};
      KeptLoose(rest, {e}, e);
    }

    /** An event that was to be added is added: it is due a delay of its own from now. */
    method HandleAdd(e: LuaEvent, ghost rest: seq<Op>) returns (ghost delay: nat)
      requires !isUpdating && deferredOps == [] && Valid([Add(e)] + rest, {})
      modifies this`deferredOps, this`eventList, this`eventMap, live`delay
      ensures deferredOps == [] && Valid(rest, {}) && live == old(live)
      ensures Applied(Add(e), old(eventList), old(Now()), eventList, Now())
      ensures e.min <= delay <= e.max && eventList == Moved(Add(e), old(eventList), m_time, delay)
    {
      hide Counts, Kept, Inserted;
      HandedOut(e, rest);
      ghost var list := eventList;
      ListInOrder(rest, {e});
      AddEvent(e, rest, {e});
      delay := e.delay;
      assert {e} - {e} == {};
      forall f
        ensures Listed(eventList, f) <==> Listed(list, f) || f == e
      {
        InsertedListed(list, Due(m_time + e.delay, e), f);
      }
    }

    lemma {:induction false} ListInOrder(pending: seq<Op>, loose: set<LuaEvent>)
      requires Valid(pending, loose)
      ensures forall i, j | 0 <= i < j < |eventList| :: eventList[i].time <= eventList[j].time
    {
    }

    /** One of the handlers. */
    method Handle(op: Op, ghost rest: seq<Op>) returns (ghost delay: nat)
      requires !isUpdating && deferredOps == [] && Valid([op] + rest, {})
      modifies this`deferredOps, this`eventList, this`eventMap, this`live, live`state, live`delay
      ensures deferredOps == [] && Valid(rest, {}) && live <= old(live) && (op.Add? ==> op.e in old(live))
      ensures Applied(op, old(eventList), old(Now()), eventList, Now())
      ensures (op.Add? ==> op.e.min <= delay <= op.e.max) && eventList == Moved(op, old(eventList), m_time, delay)
    {
      hide Counts, Kept, Applied;
      delay := 0;
      if op.Add? { HandedOut(op.e, rest); } else { OpTaken(eventList, eventMap, Now(), op, rest, {}); }
      match op
      case Add(e) => delay := HandleAdd(e, rest);
      case SetState(id, s) => SetState(id, s, rest, {});
      case SetStates(s) => SetStates(s, rest, {});
      case ClearAll => ClearAllEvents(rest, {});
    }

    /** One round of the loop. */
    method HandleNext(op: Op, ghost rest: seq<Op>, ghost ops: seq<Op>, ghost list0: seq<Due>, ghost st0: States,
      ghost delays: seq<nat>)
      returns (ghost delays': seq<nat>)
      requires !isUpdating && deferredOps == [] && Valid([op] + rest, {}) &&
        Explained(ops, list0, st0, eventList, Now())
      requires AreDelays(ops, delays) && eventList == Replayed(ops, list0, m_time, delays)
      modifies this`deferredOps, this`eventList, this`eventMap, this`live, live`state, live`delay
      ensures deferredOps == [] && Valid(rest, {}) && live <= old(live)
      ensures Explained(ops + [op], list0, st0, eventList, Now())
      ensures AreDelays(ops + [op], delays') && eventList == Replayed(ops + [op], list0, m_time, delays')
    {
      hide Counts, Kept, Applied, Explained, Moved, Replayed;
      ghost var list, st := eventList, Now();
      ghost var delay := Handle(op, rest);
      ReplayedMore(ops, op, list0, m_time, delays, delay);
      delays' := delays + [delay];
      ExplainedOn(ops, op, list0, st0, list, st, eventList, Now());
    }

    /**
     * ProcessDeferredOps: afterwards no operation waits, and the list is what the operations make of it, one after the
     * other, with a delay from now that each event added may have.
     */
    method ProcessDeferredOps() returns (ghost delays: seq<nat>)
      requires !isUpdating && Valid(deferredOps, {})
      modifies this`deferredOps, this`eventList, this`eventMap, this`live, live`state, live`delay
      ensures AtRest() && live <= old(live)
      ensures forall e: LuaEvent {:trigger At(eventList, Now(), e)} ::
        At(eventList, Now(), e) == Fate(old(deferredOps), e, At(old(eventList), old(Now()), e))
      ensures AreDelays(old(deferredOps), delays) &&
        eventList == Replayed(old(deferredOps), old(eventList), m_time, delays)
    {
      hide Kept, Counts, Explained, Replayed;
      var ops := deferredOps;
      ghost var list0, st0 := eventList, Now();
      ExplainedFirst(list0, st0);
      ReplayedNone(list0, m_time);
      QueuedLive(ops, {});
      delays := [];
      if |deferredOps| == 0 {
        FatesOfAll(ops, list0, st0);
        return;
      }
      deferredOps := [];
      assert ops[0..] == ops && ops[..0] == [];
      for i := 0 to |ops|
        invariant deferredOps == [] && Valid(ops[i..], {}) && live <= old(live)
        invariant Explained(ops[..i], list0, st0, eventList, Now())
        invariant AreDelays(ops[..i], delays) && eventList == Replayed(ops[..i], list0, m_time, delays)
      {
        assert ops[i..] == [ops[i]] + ops[i + 1..] && ops[..i + 1] == ops[..i] + [ops[i]];
        delays := HandleNext(ops[i], ops[i + 1..], ops[..i], list0, st0, delays);
      }
      assert ops[|ops|..] == [] && ops[..|ops|] == ops;
      FatesOfAll(ops, list0, st0);
    }

    lemma {:induction false} QueuedLive(pending: seq<Op>, loose: set<LuaEvent>)
      requires Valid(pending, loose)
      ensures forall e: LuaEvent | Add(e) in pending :: e in Now()
    {
    }

    lemma {:induction false} FatesOfAll(ops: seq<Op>, list0: seq<Due>, st0: States)
      requires Explained(ops, list0, st0, eventList, Now()) && forall e: LuaEvent | Add(e) in ops :: e in st0
      ensures forall e: LuaEvent {:trigger At(eventList, Now(), e)} ::
        At(eventList, Now(), e) == Fate(ops, e, At(list0, st0, e))
    {
      forall e: LuaEvent
        ensures At(eventList, Now(), e) == Fate(ops, e, At(list0, st0, e))
      {
        FateOfAll(ops, list0, st0, eventList, Now(), e);
      }
    }

    /** AddEvent for a new event, whose reference Lua has just handed out. */
    method RegisterEvent(funcRef: int, min: nat, max: nat, repeats: nat, ghost loose: set<LuaEvent>)
      returns (e: LuaEvent)
      requires Valid(deferredOps, loose) && min <= max && (forall f | f in live :: f.funcRef != funcRef)
      requires !isUpdating ==> AtRest() && loose == {}
      modifies this`deferredOps, this`eventList, this`eventMap, this`live
      ensures Valid(deferredOps, loose) && fresh(e) && live == old(live) + {e} && (!isUpdating ==> AtRest())
      ensures e.funcRef == funcRef && e.times == repeats && e.state == Run
      ensures if isUpdating
        then deferredOps == old(deferredOps) + [Add(e)] && eventList == old(eventList) && eventMap == old(eventMap)
        else eventList == Inserted(old(eventList), Due(m_time + e.delay, e)) && min <= e.delay <= max
    {
      hide Kept, Inserted;
      ghost var ops, st := deferredOps, Now();
      e := new LuaEvent(funcRef, min, max, repeats);
      Born(eventList, eventMap, st, ops, loose, e);
      live := live + {e};
      assert Now() == st[e := Run];
      AddEvent(e, ops, loose + {e});
      assert loose + {e} - {e} == loose;
    }

    /**
     * What a Lua function does when it is called: it asks for new events and sets states, and all of it is deferred.
     */
    method Callback(ghost loose: set<LuaEvent>)
      requires isUpdating && Valid(deferredOps, loose)
      modifies this`deferredOps, this`eventList, this`eventMap, this`live, live`state
      ensures isUpdating && Valid(deferredOps, loose) && eventList == old(eventList) && eventMap == old(eventMap)
      ensures old(deferredOps) <= deferredOps && old(live) <= live && fresh(live - old(live))
      ensures forall e | e in old(live) :: e.state == old(e.state)
      ensures forall k | |old(deferredOps)| <= k < |deferredOps| && deferredOps[k].Add? :: fresh(deferredOps[k].e)
    {
      hide Kept, Counts;
      var n: int := *;
      var i := 0;
      while i < n
        invariant Valid(deferredOps, loose) && eventList == old(eventList) && eventMap == old(eventMap)
        invariant old(deferredOps) <= deferredOps && old(live) <= live && fresh(live - old(live))
        invariant forall e | e in old(live) :: e.state == old(e.state)
        invariant forall k | |old(deferredOps)| <= k < |deferredOps| && deferredOps[k].Add? :: fresh(deferredOps[k].e)
      {
        CallbackStep(loose);
        i := i + 1;
      }
    }

    method CallbackStep(ghost loose: set<LuaEvent>)
      requires isUpdating && Valid(deferredOps, loose)
      modifies this`deferredOps, this`eventList, this`eventMap, this`live, live`state
      ensures isUpdating && Valid(deferredOps, loose) && eventList == old(eventList) && eventMap == old(eventMap)
      ensures old(deferredOps) <= deferredOps && old(live) <= live && fresh(live - old(live))
      ensures forall e | e in old(live) :: e.state == old(e.state)
      ensures forall k | |old(deferredOps)| <= k < |deferredOps| && deferredOps[k].Add? :: fresh(deferredOps[k].e)
    {
      hide Kept, Counts;
      var choice: int, s: EventState, id: int, min: int, max: int, repeats: int := *, *, *, *, *, *;
      ghost var st := Now();
      if choice == 0 {
        if 0 <= min <= max && 0 <= repeats && forall f | f in live :: f.funcRef != id {
          var e := RegisterEvent(id, min, max, repeats, loose);
        }
      } else if choice == 1 {
        SetState(id, s, deferredOps, loose);
        SameStates(st);
      } else if choice == 2 {
        SetStates(s, deferredOps, loose);
        SameStates(st);
      } else {
        ClearAllEvents(deferredOps, loose);
      }
    }

    lemma {:induction false} SameStates(st: States)
      requires Now() == st
      ensures st.Keys == live && forall e | e in live :: e.state == st[e]
    {
    }

    /** What Counts says, of the values of the fields. */
    ghost predicate Tallied(loose: set<LuaEvent>, calls: seq<LuaEvent>, repeats: map<LuaEvent, nat>,
      called: map<LuaEvent, nat>)
      reads this`live
    {
      && repeats.Keys == live && called.Keys == live &&
          (forall f | f in calls && f.times > 0 :: multiset(calls)[f] <= f.times)
      && (forall f | f in live :: f.min <= f.max && called[f] == multiset(calls)[f])
      && (forall f | f in live :: if f.times == 0 then repeats[f] == 0 else called[f] + repeats[f] == f.times)
      && (forall f | f in live && f !in loose && f.times > 0 :: repeats[f] > 0)
    }

    ghost function Repeats(): map<LuaEvent, nat>
      reads this`live, live`repeats
    {
      map f | f in live :: f.repeats
    }

    ghost function Runs(): map<LuaEvent, nat>
      reads this`live, live`called
    {
      map f | f in live :: f.called
    }

    lemma {:induction false} Tally(loose: set<LuaEvent>)
      ensures Counts(loose) <==> Tallied(loose, calls, Repeats(), Runs())
    {
    }

    /** One more run of e; it is left some runs unless this was the last. */
    lemma {:induction false} TallyCall(loose: set<LuaEvent>, calls0: seq<LuaEvent>, repeats: map<LuaEvent, nat>,
      called: map<LuaEvent, nat>, e: LuaEvent)
      requires Tallied(loose, calls0, repeats, called) && e in live
      requires e.times > 0 ==> repeats[e] > 0 && (e !in loose ==> repeats[e] > 1)
      ensures Tallied(loose, calls0 + [e], repeats[e := if repeats[e] > 0 then repeats[e] - 1 else 0],
        called[e := called[e] + 1])
    {
      assert multiset(calls0 + [e]) == multiset(calls0) + multiset{e};
    }

    /** OnTimedEvent: the call is counted, and then made. */
    method OnTimedEvent(e: LuaEvent, ghost loose: set<LuaEvent>)
      requires isUpdating && Valid(deferredOps, loose) && e in live &&
        (e.times > 0 ==> e.repeats > 0 && (e !in loose ==> e.repeats > 1))
      modifies this`deferredOps, this`eventList, this`eventMap, this`live, this`calls, live`state, e`repeats, e`called
      ensures isUpdating && Valid(deferredOps, loose) && eventList == old(eventList) && eventMap == old(eventMap)
      ensures old(deferredOps) <= deferredOps && old(live) <= live && fresh(live - old(live))
      ensures forall f | f in old(live) :: f.state == old(f.state)
      ensures calls == old(calls) + [e] && e.repeats == Left(old(e.repeats), true)
      ensures forall k | |old(deferredOps)| <= k < |deferredOps| && deferredOps[k].Add? :: fresh(deferredOps[k].e)
    {
      hide Kept, Counts;
      CountCall(e, loose);
      Callback(loose);
    }

    method CountCall(e: LuaEvent, ghost loose: set<LuaEvent>)
      requires Valid(deferredOps, loose) && e in live &&
        (e.times > 0 ==> e.repeats > 0 && (e !in loose ==> e.repeats > 1))
      modifies this`calls, e`repeats, e`called
      ensures Valid(deferredOps, loose) && calls == old(calls) + [e] && e.repeats == Left(old(e.repeats), true)
    {
      hide Kept, Counts, Tallied;
      ghost var calls0, repeats0, runs0 := calls, Repeats(), Runs();
      Tally(loose);
      TallyCall(loose, calls, repeats0, runs0, e);
      if e.repeats > 0 { e.repeats := e.repeats - 1; }
      e.called, calls := e.called + 1, calls + [e];
      assert Repeats() == repeats0[e := if repeats0[e] > 0 then repeats0[e] - 1 else 0] &&
        Runs() == runs0[e := runs0[e] + 1];
      Tally(loose);
    }

    /** RemoveEvent, for an event that has run for the last time. */
    method RemoveEvent(e: LuaEvent)
      requires Valid(deferredOps, {e})
      modifies this`live
      ensures Valid(deferredOps, {}) && live == old(live) - {e}
    {
      hide Kept;
      LooseDropped(eventList, eventMap, Now(), deferredOps, {e}, e);
      assert {e} - {e} == {};
      ghost var st := Now();
      live := live - {e};
      assert Now() == st - {e};
    }

    /** An event that is to run, off the list and the map; inWorld tells whether the object is there. */
    method RunTaken(e: LuaEvent, inWorld: bool) returns (ghost asked: seq<Op>)
      requires isUpdating && Valid(deferredOps, {e}) && e in live && e.state == Run && (e.times > 0 ==> e.repeats > 0)
      modifies this`deferredOps, this`eventList, this`eventMap, this`live, this`calls, live`state, e`repeats, e`called,
        e`delay
      ensures isUpdating && Valid(deferredOps, {}) && eventList == old(eventList)
      ensures calls == old(calls) + if Here(inWorld) then [e] else []
      ensures e.repeats == Left(old(e.repeats), Here(inWorld))
      ensures deferredOps == old(deferredOps) + (if old(e.repeats) != 1 then [Add(e)] else []) + asked
      ensures old(live) - {e} <= live && fresh(live - old(live))
      ensures forall f | f in old(live) :: f.state == old(f.state)
      ensures forall k | 0 <= k < |asked| && asked[k].Add? :: fresh(asked[k].e)
    {
      hide Kept, Counts;
      ghost var loose := {e};
      var remove := e.repeats == 1;
      if !remove {
        AddEvent(e, deferredOps, {e});
        loose := {};
        assert {e} - {e} == {};
      }
      ghost var ops := deferredOps;
      if !hasObject || inWorld { OnTimedEvent(e, loose); }
      asked := deferredOps[|ops|..];
      if remove { RemoveEvent(e); }
    }

    /** Events of no object are always called, those of an object if it is in the world. */
    predicate Here(inWorld: bool) {
      !hasObject || inWorld
    }

    lemma {:induction false} FirstKnown()
      requires Valid(deferredOps, {}) && eventList != []
      ensures var e := eventList[0].e;
        e in live && Now().Keys == live && Now()[e] == e.state && e.Counted() && (e.times > 0 ==> e.repeats > 0)
      ensures Counts({eventList[0].e})
    {
    }

    /** The first event of the list is taken off it, and off the map. */
    method TakeFirst() returns (e: LuaEvent)
      requires Valid(deferredOps, {}) && eventList != []
      modifies this`eventList, this`eventMap
      ensures e == old(eventList)[0].e && e in live && eventList == old(eventList)[1..] && e.Counted() &&
        (e.times > 0 ==> e.repeats > 0)
      ensures Counts({}) && Counts({e})
      ensures e.state == Run ==> Valid(deferredOps, {e})
      ensures e.state != Run ==> Kept(eventList, eventMap, Now() - {e}, deferredOps, {})
    {
      hide Kept, Counts, Now;
      FirstKnown();
      e := eventList[0].e;
      FirstTaken(eventList, eventMap, Now(), deferredOps, {});
      assert {} + {e} == {e};
      eventList := eventList[1..];
      if e.state != Erase { eventMap := eventMap - {e.funcRef}; }
    }

    /** An event that is not to run is deleted. */
    method Discard(e: LuaEvent)
      requires e in live && Kept(eventList, eventMap, Now() - {e}, deferredOps, {}) && Counts({})
      modifies this`live
      ensures Valid(deferredOps, {}) && live == old(live) - {e}
    {
      hide Kept;
      ghost var st := Now();
      live := live - {e};
      assert Now() == st - {e};
    }

    /** The first event of the list, which is due: it is queued again if it runs on, called, and otherwise deleted. */
    method RunFirst(inWorld: bool) returns (ghost asked: seq<Op>)
      requires isUpdating && Valid(deferredOps, {}) && eventList != []
      modifies this`deferredOps, this`eventList, this`eventMap, this`live, this`calls, live`state,
        eventList[0].e`repeats, eventList[0].e`called, eventList[0].e`delay
      ensures isUpdating && Valid(deferredOps, {}) && eventList == old(eventList)[1..]
      ensures old(eventList[0].e) in old(live) && old(live) - {old(eventList[0].e)} <= live && fresh(live - old(live))
      ensures calls == old(calls) +
        if old(eventList[0].e.state) == Run && Here(inWorld) then [old(eventList[0].e)] else []
      ensures old(eventList)[0].e.repeats ==
        Left(old(eventList[0].e.repeats), old(eventList[0].e.state) == Run && Here(inWorld))
      ensures deferredOps == old(deferredOps) +
        (if old(eventList[0].e.state) == Run &&
        old(eventList[0].e.repeats) != 1 then [Add(old(eventList[0].e))] else []) + asked
      ensures forall f | f in old(live) :: f.state == old(f.state)
      ensures forall k | 0 <= k < |asked| && asked[k].Add? :: fresh(asked[k].e)
    {
      hide Kept, Counts, Now;
      var e := TakeFirst();
      asked := [];
      if e.state == Run {
        asked := RunTaken(e, inWorld);
      } else {
        Discard(e);
      }
    }

    /** The runs that these events have left. */
    ghost function LeftOf(es: set<LuaEvent>): map<LuaEvent, nat>
      reads es`repeats
    {
      map e | e in es :: e.repeats
    }

    /** One event's turn. */
    method RunNext(inWorld: bool, ghost list0: seq<Due>, ghost st0: States, ghost last: set<LuaEvent>,
      ghost had: map<LuaEvent, nat>, ghost calls0: seq<LuaEvent>, ghost n: nat, ghost w: seq<bool>,
      ghost scripts: seq<seq<Op>>)
      returns (ghost asked: seq<Op>)
      requires isUpdating && Valid(deferredOps, {}) && eventList != [] && eventList[0].time <= m_time
      requires n < |list0| && eventList == list0[n..] && Sorted(list0) && |w| == n
      requires Went(list0, m_time, st0, last, calls0, n, w, scripts, calls, deferredOps)
      requires Spent(had, LeftOf(had.Keys), Called(list0[..n], st0, w)) && list0[n].e in st0 && list0[n].e in had
      requires had.Keys == st0.Keys && last == set e | e in had && had[e] == 1
      requires list0[n].e.state == st0[list0[n].e]
      modifies this`deferredOps, this`eventList, this`eventMap, this`live, this`calls, live`state,
        eventList[0].e`repeats, eventList[0].e`called, eventList[0].e`delay
      ensures isUpdating && Valid(deferredOps, {}) && eventList == list0[n + 1..]
      ensures Went(list0, m_time, st0, last, calls0, n + 1, w + [Here(inWorld)], scripts + [asked], calls, deferredOps)
      ensures Spent(had, LeftOf(had.Keys), Called(list0[..n + 1], st0, w + [Here(inWorld)]))
      ensures old(live) - {list0[n].e} <= live && fresh(live - old(live))
      ensures forall f | f in old(live) :: f.state == old(f.state)
      ensures forall k | 0 <= k < |asked| && asked[k].Add? :: fresh(asked[k].e)
    {
      hide Kept, Counts, Went, Called, Asked, Spent;
      ghost var left := LeftOf(had.Keys);
      NotSpent(had, left, list0, st0, w, n);
      ghost var calls1, ops1 := calls, deferredOps;
      asked := RunFirst(inWorld);
      SpentOn(had, left, LeftOf(had.Keys), list0, st0, w, n, Here(inWorld));
      WentOn(list0, m_time, st0, last, calls0, n, w, scripts, calls1, ops1, Here(inWorld), asked);
    }

    lemma {:induction false} Beginning()
      ensures Now().Keys == Repeats().Keys == live && Repeats() == LeftOf(live)
      ensures Last() == (set e | e in Repeats() && Repeats()[e] == 1) && forall e | e in live :: Now()[e] == e.state
    {
    }

    /** The loop of Update, over the events that are due. */
    method RunDue(inWorld: nat -> bool) returns (n: nat, ghost w: seq<bool>, ghost scripts: seq<seq<Op>>)
      requires isUpdating && deferredOps == [] && Valid([], {})
      modifies this`deferredOps, this`eventList, this`eventMap, this`live, this`calls, live
      ensures isUpdating && Valid(deferredOps, {})
      ensures Went(old(eventList), m_time, old(Now()), old(Last()), old(calls), n, w, scripts, calls, deferredOps)
      ensures forall i | 0 <= i < n :: w[i] == Here(inWorld(i))
      ensures Spent(old(Repeats()), LeftOf(old(live)), Called(old(eventList)[..n], old(Now()), w))
      ensures n < |old(eventList)| ==> old(eventList)[n].time > m_time
      ensures eventList == old(eventList)[n..] && fresh(live - old(live))
      ensures forall e | e in live && e in old(live) :: e.state == old(e.state)
      ensures forall i, k | 0 <= i < |scripts| && 0 <= k < |scripts[i]| && scripts[i][k].Add? :: fresh(scripts[i][k].e)
    {
      hide Kept, Counts, Went, Called, Asked, Spent, Now, Last, Repeats, LeftOf;
      ghost var list0, st0, last, had := eventList, Now(), Last(), Repeats();
      AllLive();
      Beginning();
      n, w, scripts := 0, [], [];
      WentNone(list0, m_time, st0, last, calls);
      NoneSpent(had, list0, st0);
      while eventList != [] && eventList[0].time <= m_time
        invariant isUpdating && Valid(deferredOps, {})
        invariant Went(list0, m_time, st0, last, old(calls), n, w, scripts, calls, deferredOps)
        invariant n <= |list0| && eventList == list0[n..] && |w| == n
        invariant Spent(had, LeftOf(had.Keys), Called(list0[..n], st0, w))
        invariant forall i | 0 <= i < n :: w[i] == Here(inWorld(i))
        invariant forall e | e in live && e in old(live) :: e.state == old(e.state)
        invariant forall i | n <= i < |list0| :: list0[i].e in live
        invariant fresh(live - old(live))
        invariant forall i, k | 0 <= i < |scripts| && 0 <= k < |scripts[i]| && scripts[i][k].Add? ::
          fresh(scripts[i][k].e)
        decreases |eventList|
      {
        ghost var asked := RunNext(inWorld(n), list0, st0, last, had, old(calls), n, w, scripts);
        n, w, scripts := n + 1, w + [Here(inWorld(n))], scripts + [asked];
      }
    }

    /**
     * Update: of the events of the list just those that are due are taken off. inWorld tells for each of them whether
     * the processor's object, if it has one, is in the world when it is the event's turn. Those that were to run, with
     * their object there, are called, in order, and have one run less. Those to run again are queued, and behind each
     * what its call asked for; calls can add only new events. The list is then what these operations make of the rest
     * of it: entries that are neither due nor cleared keep their time, and events added are due a delay from now.
     */
    method Update(diff: nat, inWorld: nat -> bool)
      returns (ghost n: nat, ghost w: seq<bool>, ghost scripts: seq<seq<Op>>, ghost delays: seq<nat>)
      requires AtRest()
      modifies this, live
      ensures AtRest() && m_time == old(m_time) + diff && n <= |old(eventList)| && |w| == n && |scripts| == n
      ensures forall i | 0 <= i < |old(eventList)| :: i < n <==> old(eventList)[i].time <= m_time
      ensures forall i | 0 <= i < n :: w[i] == Here(inWorld(i))
      ensures calls == old(calls) + Called(old(eventList)[..n], old(Now()), w)
      ensures forall e | e in old(live) ::
        e.repeats == Left(old(e.repeats), e in Called(old(eventList)[..n], old(Now()), w))
      ensures forall i, k | 0 <= i < |scripts| && 0 <= k < |scripts[i]| && scripts[i][k].Add? :: fresh(scripts[i][k].e)
      ensures var ops := Asked(old(eventList)[..n], old(Now()), old(Last()), scripts);
        && AreDelays(ops, delays) && eventList == Replayed(ops, old(eventList)[n..], m_time, delays)
        && (forall e: LuaEvent {:trigger At(eventList, Now(), e)} ::
            At(eventList, Now(), e) == Fate(ops, e, At(old(eventList)[n..], old(Now()), e)))
    {
      hide Kept, Counts, Explained, Called, Asked, Replayed, AreDelays, Fate;
      ghost var st0, had := Now(), Repeats();
      AllLive();
      isUpdating := true;
      m_time := m_time + diff;
      n, w, scripts := RunDue(inWorld);
      SameStandings(st0);
      isUpdating := false;
      delays := ProcessDeferredOps();
    }

    /** The list says the same of every event by states that agree on its entries. */
    lemma {:induction false} SameStandings(st0: States)
      requires Valid(deferredOps, {}) && forall e | e in live && e in st0 :: e.state == st0[e]
      requires forall i | 0 <= i < |eventList| :: eventList[i].e in st0
      ensures forall e: LuaEvent :: At(eventList, Now(), e) == At(eventList, st0, e)
    {
      AllLive();
    }

    /** The events with one run left. */
    ghost function Last(): set<LuaEvent>
      reads this`live, live`repeats
    {
      set e | e in live && e.repeats == 1
    }

    lemma {:induction false} AllLive()
      requires Valid(deferredOps, {})
      ensures Sorted(eventList) && forall i | 0 <= i < |eventList| :: eventList[i].e in live
    {
    }
  }

  lemma {:induction false} ClearedApplied(list: seq<Due>, st: States)
    ensures Applied(ClearAll, list, st, [], Unlisted(list, st))
  {
    forall e ensures !Listed([], e) { }
    hide Listed;
  }

  lemma {:induction false} OneSetApplied(list: seq<Due>, m: map<int, LuaEvent>, st: States, pending: seq<Op>,
    loose: set<LuaEvent>, id: int, s: EventState)
    requires Kept(list, m, st, pending, loose)
    ensures Applied(Op.SetState(id, s), list, st, list, if id in m then st[m[id] := s] else st)
  {
    MapFinds(list, m, st, pending, loose, id);
    hide Kept, Listed;
  }

  lemma {:induction false} NoneListed()
    ensures forall e :: !Listed([], e)
  {
  }

  lemma {:induction false} ListedMore(list: seq<Due>, i: nat)
    requires i < |list|
    ensures forall e :: Listed(list[..i + 1], e) <==> Listed(list[..i], e) || e == list[i].e
  {
    var l := list[..i + 1];
    forall e | Listed(list[..i], e) ensures Listed(l, e) {
      var k :| 0 <= k < i && list[..i][k].e == e;
      assert l[k].e == e;
    }
    assert l[i].e == list[i].e;
    forall e | Listed(l, e) && e != list[i].e ensures Listed(list[..i], e) {
      var k :| 0 <= k < |l| && l[k].e == e;
      assert list[..i][k].e == e;
    }
  }

  /** The map finds the listed event with a reference, unless it is erased. */
  lemma {:induction false} MapFinds(list: seq<Due>, m: map<int, LuaEvent>, st: States, pending: seq<Op>,
    loose: set<LuaEvent>, id: int)
    requires Kept(list, m, st, pending, loose)
    ensures forall e | e in st && Listed(list, e) && st[e] != Erase && e.funcRef == id :: id in m && m[id] == e
    ensures id in m ==> m[id] in st && Listed(list, m[id]) && m[id].funcRef == id && st[m[id]] != Erase
  {
    forall e | e in st && Listed(list, e) && st[e] != Erase && e.funcRef == id ensures id in m && m[id] == e {
      var i :| 0 <= i < |list| && list[i].e == e;
    }
  }
}
