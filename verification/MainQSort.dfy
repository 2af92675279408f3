/** The main sorter's string quicksort, with an explicit stack of 100 tasks. */
module MainQSort {
  import opened Bits
  import opened Rotations
  import opened FallbackQSort
  import opened Overlay
  import opened MainCompare
  import opened MainSimpleSort
  import opened MainPartition

  const MAIN_STACK_SIZE := 100
  const MAIN_SMALL_THRESH := 20
  const DEPTH_THRESH := 14

  /** A pending range whose rotations agree on d bytes; hi == lo - 1 when it is empty. */
  datatype Task = Task(lo: int, hi: int, d: int) {
    function Size(): int { hi - lo + 1 }

    predicate Holds(x: int, y: int) { lo <= x && y <= hi }

    predicate Within(l: int, h: int) { l <= lo <= hi + 1 <= h + 1 }

    predicate Apart(t: Task) { hi < t.lo || t.hi < lo }
  }

  // ---- how deep the stack gets

  function Load(st: seq<Task>): int {
    if st == [] then 0 else st[0].Size() + Load(st[1..])
  }

  /** What lies above a task is at most twice its size. */
  ghost predicate Balanced(st: seq<Task>) {
    st != [] ==> st[0].Size() >= 0 && Load(st[1..]) <= 2 * st[0].Size() && Balanced(st[1..])
  }

  /** Tasks that take the place of the top one, none of them larger in sum, keep the balance. */
  lemma {:induction false} LoadReplaced(rest: seq<Task>, top: Task, more: seq<Task>)
    requires Balanced(rest + [top]) && Balanced(more) && Load(more) <= top.Size()
    ensures Balanced(rest + more) && Load(rest + more) <= Load(rest + [top])
  {
    if rest == [] {
      assert rest + more == more && rest + [top] == [top];
      assert Load([top]) == top.Size() + Load([top][1..]);
    } else {
      assert (rest + [top])[1..] == rest[1..] + [top] && (rest + more)[1..] == rest[1..] + more;
      LoadReplaced(rest[1..], top, more);
    }
  }

  /** The least load of a stack of k + 1 tasks with a top of at least 21. */
  function LeastLoad(k: nat): int {
    if k == 0 then 21 else (3 * LeastLoad(k - 1) + 1) / 2
  }

  lemma {:induction false} LoadGrows(st: seq<Task>)
    requires Balanced(st) && st != [] && st[|st| - 1].Size() > MAIN_SMALL_THRESH
    ensures Load(st) >= LeastLoad(|st| - 1)
  {
    if |st| == 1 {
      assert st[1..] == [];
    } else {
      assert st[1..][|st| - 2] == st[|st| - 1];
      LoadGrows(st[1..]);
    }
  }

  lemma {:induction false} LeastLoadMono(k: nat, m: nat)
    requires k <= m
    ensures 21 <= LeastLoad(k) <= LeastLoad(m)
    decreases m
  {
    if k < m { LeastLoadMono(k, m - 1); }
    else if k > 0 { LeastLoadMono(k - 1, k - 1); }
  }

  /** Two more tasks at least double the load. */
  lemma {:induction false} LeastLoadDoubles(k: nat)
    ensures LeastLoad(2 * k) >= 21 * Pow2(k)
  {
    if k > 0 {
      LeastLoadDoubles(k - 1);
      LeastLoadMono(0, 2 * k - 2);
      assert LeastLoad(2 * k) >= 2 * LeastLoad(2 * k - 2);
    }
  }

  /** With at most 900000 rotations, a task that still gets split has at most 31 others below it. */
  lemma {:induction false} DepthBound(st: seq<Task>)
    requires Balanced(st) && st != [] && st[|st| - 1].Size() > MAIN_SMALL_THRESH && Load(st) <= 900_000
    ensures |st| <= 32
  {
    LoadGrows(st);
    if |st| > 32 {
      LeastLoadMono(32, |st| - 1);
      LeastLoadDoubles(16);
      Pow2Values();
    }
  }

  // ---- what the sorting loop keeps

  ghost predicate TasksOk(st: seq<Task>, lo: int, hi: int) {
    && (forall s | 0 <= s < |st| :: st[s].Within(lo, hi) && 0 <= st[s].d <= 15)
    && (forall s, t | 0 <= s < t < |st| :: st[s].Apart(st[t]))
    && Balanced(st)
  }

  /** Each pending range holds rotations that agree as far as it says. */
  ghost predicate TasksAlike(b: Block, g: seq<int>, st: seq<Task>) {
    forall s | 0 <= s < |st| :: st[s].d >= 0 && Alike(b, g, st[s].lo, st[s].hi, st[s].d)
  }

  /** Two positions in order, or in one pending range. */
  ghost predicate Placed(b: Block, g: seq<int>, st: seq<Task>, x: int, y: int)
    requires 0 <= x < |g| && 0 <= y < |g|
  {
    RotLe(b, g[x], g[y]) || exists s | 0 <= s < |st| :: st[s].Holds(x, y)
  }

  ghost predicate Underway(b: Block, f0: seq<int>, g: seq<int>, st: seq<Task>, lo: int, hi: int) {
    && 0 <= lo <= hi + 1 <= |f0| == |g|
    && Rearranged(f0, g, lo, hi) && TasksOk(st, lo, hi) && TasksAlike(b, g, st)
    && (forall x, y {:trigger Placed(b, g, st, x, y)} | lo <= x < y <= hi :: Placed(b, g, st, x, y))
  }

  /** What may replace the top task once its range has become part of g. */
  ghost predicate Replaces(b: Block, g: seq<int>, top: Task, more: seq<Task>) {
    && 0 <= top.lo <= top.hi + 1 <= |g|
    && TasksOk(more, top.lo, top.hi) && TasksAlike(b, g, more) && Load(more) <= top.Size()
    && (forall x, y {:trigger Placed(b, g, more, x, y)} | top.lo <= x < y <= top.hi :: Placed(b, g, more, x, y))
  }

  lemma {:induction false} TasksReplaced(rest: seq<Task>, top: Task, more: seq<Task>, lo: int, hi: int)
    requires TasksOk(rest + [top], lo, hi) && TasksOk(more, top.lo, top.hi) && Load(more) <= top.Size()
    ensures TasksOk(rest + more, lo, hi)
  {
    var st, st' := rest + [top], rest + more;
    assert st[|rest|] == top;
    LoadReplaced(rest, top, more);
    hide Balanced, Load;
    forall s | 0 <= s < |st'| ensures st'[s].Within(lo, hi) && 0 <= st'[s].d <= 15 {
      if s < |rest| { assert st'[s] == st[s]; } else { assert st'[s] == more[s - |rest|]; }
    }
    forall s, t | 0 <= s < t < |st'| ensures st'[s].Apart(st'[t]) {
      if t < |rest| {
        assert st'[s] == st[s] && st'[t] == st[t];
      } else if s < |rest| {
        assert st'[s] == st[s] && st'[t] == more[t - |rest|] && st[s].Apart(top);
      } else {
        assert st'[s] == more[s - |rest|] && st'[t] == more[t - |rest|];
      }
    }
  }

  lemma {:induction false} AlikeElsewhere(b: Block, f: seq<int>, g: seq<int>, t: Task, top: Task)
    requires t.d >= 0 && Alike(b, f, t.lo, t.hi, t.d) && Rearranged(f, g, top.lo, top.hi) && t.Apart(top)
    ensures Alike(b, g, t.lo, t.hi, t.d)
  {
    hide Agree;
    assert forall x | t.lo <= x <= t.hi :: g[x] == f[x];
    forall x, y | t.lo <= x <= t.hi && t.lo <= y <= t.hi ensures Agree(b, g[x], g[y], t.d) {
      assert Agree(b, f[x], f[y], t.d);
    }
  }

  lemma {:induction false} AlikeReplaced(b: Block, f: seq<int>, g: seq<int>, rest: seq<Task>, top: Task,
    more: seq<Task>, lo: int, hi: int)
    requires TasksOk(rest + [top], lo, hi) && TasksAlike(b, f, rest + [top]) && Rearranged(f, g, top.lo, top.hi) &&
      TasksAlike(b, g, more)
    ensures TasksAlike(b, g, rest + more)
  {
    var st, st' := rest + [top], rest + more;
    assert st[|rest|] == top;
    forall s | 0 <= s < |st'| ensures st'[s].d >= 0 && Alike(b, g, st'[s].lo, st'[s].hi, st'[s].d) {
      hide Alike, Rearranged, Balanced;
      if s < |rest| {
        assert st'[s] == st[s] && st[s].Apart(top);
        AlikeElsewhere(b, f, g, st[s], top);
      } else {
        assert st'[s] == more[s - |rest|];
      }
    }
  }

  /** Where the rotation now at x was before the range lo..hi was rearranged. */
  lemma {:induction false} CameFrom(f: seq<int>, g: seq<int>, lo: int, hi: int, x: int) returns (x0: int)
    requires Rearranged(f, g, lo, hi) && 0 <= lo <= hi + 1 <= |f| && 0 <= x < |f|
    ensures 0 <= x0 < |f| == |g| && f[x0] == g[x] && (lo <= x <= hi <==> lo <= x0 <= hi) &&
      (!(lo <= x <= hi) ==> x0 == x)
  {
    x0 := x;
    if lo <= x <= hi { x0 := RearrangedFrom(f, g, lo, hi, x); }
  }

  lemma {:induction false} PlacedReplaced(b: Block, f: seq<int>, g: seq<int>, rest: seq<Task>, top: Task,
    more: seq<Task>, lo: int, hi: int, x: int, y: int)
    requires 0 <= lo <= top.lo <= top.hi + 1 <= hi + 1 <= |f| && Rearranged(f, g, top.lo, top.hi) && |f| == |g|
    requires TasksOk(rest + [top], lo, hi) && lo <= x < y <= hi
    requires forall x, y {:trigger Placed(b, f, rest + [top], x, y)} | lo <= x < y <= hi ::
      Placed(b, f, rest + [top], x, y)
    requires top.lo <= x && y <= top.hi ==> Placed(b, g, more, x, y)
    ensures Placed(b, g, rest + more, x, y)
  {
    hide RotLe, Rearranged, Balanced;
    var st, st' := rest + [top], rest + more;
    assert st[|rest|] == top;
    if top.lo <= x && y <= top.hi {
      if !RotLe(b, g[x], g[y]) {
        var s :| 0 <= s < |more| && more[s].Holds(x, y);
        assert st'[|rest| + s].Holds(x, y);
      }
    } else {
      var x0 := CameFrom(f, g, top.lo, top.hi, x);
      var y0 := CameFrom(f, g, top.lo, top.hi, y);
      assert Placed(b, f, st, x0, y0);
      if !RotLe(b, f[x0], f[y0]) {
        var s :| 0 <= s < |st| && st[s].Holds(x0, y0);
        assert s != |rest|;
        assert st[s].Apart(top);
        assert st'[s] == st[s];
      }
    }
  }

  /** The step of the loop: the top task's range is rearranged, and the task makes way for others. */
  lemma {:induction false} Replaced(b: Block, f0: seq<int>, f: seq<int>, g: seq<int>, rest: seq<Task>, top: Task,
    more: seq<Task>, lo: int, hi: int)
    requires Underway(b, f0, f, rest + [top], lo, hi) && Rearranged(f, g, top.lo, top.hi) && Replaces(b, g, top, more)
    ensures Underway(b, f0, g, rest + more, lo, hi)
  {
    hide Placed, Alike, Balanced;
    assert (rest + [top])[|rest|] == top;
    TasksReplaced(rest, top, more, lo, hi);
    AlikeReplaced(b, f, g, rest, top, more, lo, hi);
    RearrangedWider(f0, f, g, top, lo, hi);
    forall x, y | lo <= x < y <= hi ensures Placed(b, g, rest + more, x, y) {
      PlacedReplaced(b, f, g, rest, top, more, lo, hi, x, y);
    }
  }

  lemma {:induction false} RearrangedWider(f0: seq<int>, f: seq<int>, g: seq<int>, top: Task, lo: int, hi: int)
    requires Rearranged(f0, f, lo, hi) && Rearranged(f, g, top.lo, top.hi) && top.Within(lo, hi)
    ensures Rearranged(f0, g, lo, hi) && |f0| == |f| == |g|
  {
  }

  // ---- the ways the top task goes

  lemma {:induction false} SortedReplaces(b: Block, g: seq<int>, top: Task)
    requires InOrder(b, g, top.lo, top.hi)
    ensures Replaces(b, g, top, [])
  {
    hide RotLe;
    forall x, y | top.lo <= x < y <= top.hi ensures Placed(b, g, [], x, y) {
      assert RotLe(b, g[x], g[y]);
    }
  }

  /** Rotations that agree on d bytes and have the same byte d agree on d + 1. */
  lemma {:induction false} DeeperAlike(b: Block, g: seq<int>, med: int, lo: int, hi: int, d: nat, l: int, h: int)
    requires Alike(b, g, lo, hi, d) && d <= 15 && |b| > N_OVERSHOOT && lo <= l <= h + 1 <= hi + 1
    requires forall x | l <= x <= h :: Key(g, KeysAt(b, d), x) == med
    ensures Alike(b, g, l, h, d + 1)
  {
    hide Key, KeysAt;
    forall x, y | l <= x <= h && l <= y <= h ensures Agree(b, g[x], g[y], d + 1) {
      assert Agree(b, g[x], g[y], d);
      KeyIs(b, g, x, d);
      KeyIs(b, g, y, d);
    }
  }

  lemma {:induction false} SameTask(b: Block, g: seq<int>, top: Task, d: int)
    requires d >= 0 && Alike(b, g, top.lo, top.hi, d) && 0 <= d <= 15
    ensures Replaces(b, g, top, [Task(top.lo, top.hi, d)])
  {
    var t := Task(top.lo, top.hi, d);
    assert [t][1..] == [];
    forall x, y | top.lo <= x < y <= top.hi ensures Placed(b, g, [t], x, y) {
      assert [t][0].Holds(x, y);
    }
  }

  /** A lesser byte d decides. */
  lemma {:induction false} LesserKey(b: Block, g: seq<int>, lo: int, hi: int, d: nat, x: int, y: int)
    requires Alike(b, g, lo, hi, d) && d <= 15 && |b| > N_OVERSHOOT && lo <= x <= hi && lo <= y <= hi
    requires Key(g, KeysAt(b, d), x) < Key(g, KeysAt(b, d), y)
    ensures RotLe(b, g[x], g[y])
  {
    KeyIs(b, g, x, d);
    KeyIs(b, g, y, d);
    hide Key, KeysAt;
    assert Agree(b, g[x], g[y], d);
    assert LessAt(b, g[x], g[y], d);
  }

  /** The three parts of a range. */
  function Lesser(top: Task, n: int): Task { Task(top.lo, n, top.d) }
  function Greater(top: Task, m: int): Task { Task(m, top.hi, top.d) }
  function Equal(top: Task, n: int, m: int): Task { Task(n + 1, m - 1, top.d + 1) }

  /** The tasks p, q and r are a, c and e in some order. */
  ghost predicate Shuffled(p: Task, q: Task, r: Task, a: Task, c: Task, e: Task) {
    || (p == a && ((q == c && r == e) || (q == e && r == c)))
    || (p == c && ((q == a && r == e) || (q == e && r == a)))
    || (p == e && ((q == a && r == c) || (q == c && r == a)))
  }

  /** more lists the three parts, the smallest last. */
  ghost predicate AreParts(more: seq<Task>, top: Task, n: int, m: int) {
    && |more| == 3 && more[0].Size() >= more[1].Size() >= more[2].Size()
    && Shuffled(more[0], more[1], more[2], Lesser(top, n), Greater(top, m), Equal(top, n, m))
  }

  lemma {:induction false} ThreeBalanced(more: seq<Task>)
    requires |more| == 3 && more[0].Size() >= more[1].Size() >= more[2].Size() >= 0
    ensures Balanced(more) && Load(more) == more[0].Size() + more[1].Size() + more[2].Size()
  {
    var two := more[1..];
    var one := two[1..];
    assert one == [more[2]] && one[1..] == [];
    assert Balanced([]) && Load([]) == 0;
    assert Balanced(one) && Load(one) == more[2].Size();
    assert two[0] == more[1];
    assert Balanced(two) && Load(two) == more[1].Size() + more[2].Size();
  }

  /** A pair of positions with lesser before equal before greater keys, or within one part. */
  lemma {:induction false} PartsPlace(b: Block, g: seq<int>, top: Task, med: int, n: int, m: int, more: seq<Task>,
    x: int, y: int)
    requires 0 <= top.d <= 15 && |b| > N_OVERSHOOT && Alike(b, g, top.lo, top.hi, top.d)
    requires ThreeWay(g, KeysAt(b, top.d), med, top.lo, n, m, top.hi) && AreParts(more, top, n, m) &&
      top.lo <= x < y <= top.hi
    ensures Placed(b, g, more, x, y)
  {
    hide RotLe, Alike, Key, KeysAt;
    var e := KeysAt(b, top.d);
    AlikeRange(b, g, top.lo, top.hi, top.d);
    if Key(g, e, x) < Key(g, e, y) {
      LesserKey(b, g, top.lo, top.hi, top.d, x, y);
    } else {
      var t := if y <= n then Lesser(top, n) else if x >= m then Greater(top, m) else Equal(top, n, m);
      assert t.Holds(x, y);
      var s := if more[0] == t then 0 else if more[1] == t then 1 else 2;
      assert more[s].Holds(x, y);
    }
  }

  lemma {:induction false} PartsAlike(b: Block, g: seq<int>, top: Task, med: int, n: int, m: int, t: Task)
    requires 0 <= top.d <= DEPTH_THRESH && |b| > N_OVERSHOOT && Alike(b, g, top.lo, top.hi, top.d)
    requires ThreeWay(g, KeysAt(b, top.d), med, top.lo, n, m, top.hi) && n + 1 < m
    requires t == Lesser(top, n) || t == Greater(top, m) || t == Equal(top, n, m)
    ensures t.d >= 0 && Alike(b, g, t.lo, t.hi, t.d)
  {
    if t == Equal(top, n, m) { DeeperAlike(b, g, med, top.lo, top.hi, top.d, t.lo, t.hi); }
  }

  lemma {:induction false} PartsReplace(b: Block, g: seq<int>, top: Task, med: int, n: int, m: int, more: seq<Task>)
    requires 0 <= top.d <= DEPTH_THRESH && |b| > N_OVERSHOOT && Alike(b, g, top.lo, top.hi, top.d)
    requires ThreeWay(g, KeysAt(b, top.d), med, top.lo, n, m, top.hi) && n + 1 < m && AreParts(more, top, n, m)
    ensures Replaces(b, g, top, more)
  {
    hide RotLe, Alike, Key, KeysAt, Placed, Balanced, Load;
    AlikeRange(b, g, top.lo, top.hi, top.d);
    ThreeBalanced(more);
    forall s | 0 <= s < |more| ensures more[s].d >= 0 && Alike(b, g, more[s].lo, more[s].hi, more[s].d) {
      PartsAlike(b, g, top, med, n, m, more[s]);
    }
    forall x, y | top.lo <= x < y <= top.hi ensures Placed(b, g, more, x, y) {
      PartsPlace(b, g, top, med, n, m, more, x, y);
    }
  }

  // ---- what is left to do

  function Weight(t: Task): int {
    4 * (t.Size() * (16 - t.d)) + 1
  }

  /** Shrinks with every turn of the loop. */
  function Work(st: seq<Task>): int {
    if st == [] then 0 else Work(st[..|st| - 1]) + Weight(st[|st| - 1])
  }

  lemma {:induction false} WorkPush(st: seq<Task>, t: Task)
    ensures Work(st + [t]) == Work(st) + Weight(t)
  {
    assert (st + [t])[..|st|] == st;
  }

  lemma {:induction false} WeightPositive(t: Task)
    requires t.Size() >= 0 && t.d <= 16
    ensures Weight(t) >= 1
  {
  }

  lemma {:induction false} WorkNonNegative(st: seq<Task>)
    requires forall s | 0 <= s < |st| :: st[s].Size() >= 0 && st[s].d <= 16
    ensures Work(st) >= 0
  {
    if st != [] {
      WeightPositive(st[|st| - 1]);
      WorkNonNegative(st[..|st| - 1]);
    }
  }

  lemma {:induction false} DeeperWeight(lo: int, hi: int, d: int)
    requires lo <= hi
    ensures Weight(Task(lo, hi, d + 1)) < Weight(Task(lo, hi, d))
  {
  }

  lemma {:induction false} PartsWeight(top: Task, n: int, m: int)
    requires n + 1 < m
    ensures Weight(Lesser(top, n)) + Weight(Greater(top, m)) + Weight(Equal(top, n, m)) < Weight(top)
  {
    var a, c, e, k := n - top.lo + 1, top.hi - m + 1, m - n - 1, 16 - top.d;
    assert top.Size() * k == a * k + c * k + e * k;
    assert e * (k - 1) == e * k - e;
  }

  lemma {:induction false} WorkParts(rest: seq<Task>, top: Task, n: int, m: int, more: seq<Task>)
    requires n + 1 < m && AreParts(more, top, n, m)
    ensures Work(rest + more) < Work(rest + [top])
  {
    hide Weight;
    PartsWeight(top, n, m);
    WorkPush(rest, top);
    WorkPush(rest, more[0]);
    WorkPush(rest + [more[0]], more[1]);
    WorkPush(rest + [more[0]] + [more[1]], more[2]);
    assert rest + [more[0]] + [more[1]] + [more[2]] == rest + more;
  }

  // ---- the stack and the loop

  ghost predicate Mirrors(stackLo: array<int>, stackHi: array<int>, stackD: array<int>, st: seq<Task>)
    reads stackLo, stackHi, stackD
  {
    && |st| <= stackLo.Length == stackHi.Length == stackD.Length == MAIN_STACK_SIZE
    && stackLo != stackHi && stackLo != stackD && stackHi != stackD
    && forall s | 0 <= s < |st| :: stackLo[s] == st[s].lo && stackHi[s] == st[s].hi && stackD[s] == st[s].d
  }

  /** mpush */
  method Push(stackLo: array<int>, stackHi: array<int>, stackD: array<int>, sp: int, t: Task, ghost st: seq<Task>)
    returns (sp': int)
    requires Mirrors(stackLo, stackHi, stackD, st) && |st| == sp < MAIN_STACK_SIZE
    modifies stackLo, stackHi, stackD
    ensures sp' == sp + 1 && Mirrors(stackLo, stackHi, stackD, st + [t])
  {
    stackLo[sp] := t.lo;
    stackHi[sp] := t.hi;
    stackD[sp] := t.d;
    sp' := sp + 1;
  }

  function Top(st: seq<Task>): Task
    requires st != []
  {
    st[|st| - 1]
  }

  function Rest(st: seq<Task>): (r: seq<Task>)
    requires st != []
    ensures r + [Top(st)] == st && |r| == |st| - 1
  {
    st[..|st| - 1]
  }

  /** mpop */
  method Pop(stackLo: array<int>, stackHi: array<int>, stackD: array<int>, sp: int, ghost st: seq<Task>)
    returns (sp': int, lo: int, hi: int, d: int)
    requires Mirrors(stackLo, stackHi, stackD, st) && |st| == sp > 0
    ensures sp' == sp - 1 && Task(lo, hi, d) == Top(st) && Mirrors(stackLo, stackHi, stackD, Rest(st))
  {
    sp' := sp - 1;
    lo, hi, d := stackLo[sp'], stackHi[sp'], stackD[sp'];
  }

  /** The three parts of a range, the larger ones first. */
  method Ordered(lo: int, hi: int, d: int, n: int, m: int) returns (t0: Task, t1: Task, t2: Task)
    ensures AreParts([t0, t1, t2], Task(lo, hi, d), n, m)
  {
    t0, t1, t2 := Task(lo, n, d), Task(m, hi, d), Task(n + 1, m - 1, d + 1);
    if t0.hi - t0.lo < t1.hi - t1.lo { t0, t1 := t1, t0; }
    if t1.hi - t1.lo < t2.hi - t2.lo { t1, t2 := t2, t1; }
    if t0.hi - t0.lo < t1.hi - t1.lo { t0, t1 := t1, t0; }
  }

  /** Pushes the three parts. */
  method PushParts(stackLo: array<int>, stackHi: array<int>, stackD: array<int>, sp: int, lo: int, hi: int, d: int,
    n: int, m: int, ghost st: seq<Task>)
    returns (sp': int, ghost more: seq<Task>)
    requires Mirrors(stackLo, stackHi, stackD, st) && |st| == sp < MAIN_STACK_SIZE - 2
    modifies stackLo, stackHi, stackD
    ensures AreParts(more, Task(lo, hi, d), n, m) && |more| == 3 && sp' == sp + 3 &&
      Mirrors(stackLo, stackHi, stackD, st + more)
  {
    var t0, t1, t2 := Ordered(lo, hi, d, n, m);
    sp' := Push(stackLo, stackHi, stackD, sp, t0, st);
    sp' := Push(stackLo, stackHi, stackD, sp', t1, st + [t0]);
    sp' := Push(stackLo, stackHi, stackD, sp', t2, st + [t0] + [t1]);
    more := [t0, t1, t2];
    assert st + [t0] + [t1] + [t2] == st + more;
  }

  /** The state of the loop, between two turns. */
  ghost predicate Sorting(b: Block, f0: seq<int>, g: seq<int>, st: seq<Task>, lo: int, hi: int) {
    Underway(b, f0, g, st, lo, hi) && |b| > N_OVERSHOOT && Load(st) <= 900_000
  }

  lemma {:induction false} TopReady(b: Block, f0: seq<int>, g: seq<int>, st: seq<Task>, lo: int, hi: int)
    requires Sorting(b, f0, g, st, lo, hi) && st != []
    ensures var t := Top(st); 0 <= t.d <= 15 && Alike(b, g, t.lo, t.hi, t.d) && t.Within(lo, hi)
    ensures Top(st).Size() > MAIN_SMALL_THRESH ==> |st| <= 32
    ensures 0 <= Work(Rest(st)) < Work(st)
  {
    hide Placed, Alike, Balanced;
    WorkPush(Rest(st), Top(st));
    WeightPositive(Top(st));
    WorkNonNegative(Rest(st));
    if Top(st).Size() > MAIN_SMALL_THRESH { DepthBound(st); }
  }

  lemma {:induction false} Turn(b: Block, f0: seq<int>, f: seq<int>, g: seq<int>, st: seq<Task>, more: seq<Task>,
    lo: int, hi: int)
    requires Sorting(b, f0, f, st, lo, hi) && st != []
    requires Rearranged(f, g, Top(st).lo, Top(st).hi) && Replaces(b, g, Top(st), more)
    ensures Sorting(b, f0, g, Rest(st) + more, lo, hi)
  {
    hide Placed, Alike;
    Replaced(b, f0, f, g, Rest(st), Top(st), more, lo, hi);
    LoadReplaced(Rest(st), Top(st), more);
  }

  lemma {:induction false} TurnSorted(b: Block, f0: seq<int>, f: seq<int>, g: seq<int>, st: seq<Task>, lo: int, hi: int)
    requires Sorting(b, f0, f, st, lo, hi) && st != []
    requires Rearranged(f, g, Top(st).lo, Top(st).hi) && InOrder(b, g, Top(st).lo, Top(st).hi)
    ensures Sorting(b, f0, g, Rest(st), lo, hi)
  {
    hide *;
    SortedReplaces(b, g, Top(st));
    Turn(b, f0, f, g, st, [], lo, hi);
    assert Rest(st) + [] == Rest(st);
  }

  /** All keys equal: the same range, one byte further. */
  lemma {:induction false} TurnDeeper(b: Block, f0: seq<int>, f: seq<int>, g: seq<int>, med: int, st: seq<Task>,
    t: Task, lo: int, hi: int)
    requires Sorting(b, f0, f, st, lo, hi) && st != [] && |b| > N_OVERSHOOT
    requires t == Top(st) && 0 <= t.d <= DEPTH_THRESH && 0 <= t.lo <= t.hi + 1 <= |g| && Alike(b, f, t.lo, t.hi, t.d)
    requires Rearranged(f, g, t.lo, t.hi) && AllKeys(g, KeysAt(b, t.d), med, t.lo, t.hi)
    ensures Sorting(b, f0, g, Rest(st) + [Task(t.lo, t.hi, t.d + 1)], lo, hi)
  {
    hide Sorting, Alike, Rearranged, Replaces, Key, KeysAt;
    AlikeStill(b, f, g, t.lo, t.hi, t.d);
    DeeperAlike(b, g, med, t.lo, t.hi, t.d, t.lo, t.hi);
    SameTask(b, g, t, t.d + 1);
    Turn(b, f0, f, g, st, [Task(t.lo, t.hi, t.d + 1)], lo, hi);
  }

  lemma {:induction false} TurnParts(b: Block, f0: seq<int>, f: seq<int>, g: seq<int>, med: int, n: int, m: int,
    st: seq<Task>, t: Task, more: seq<Task>, lo: int, hi: int)
    requires Sorting(b, f0, f, st, lo, hi) && st != [] && |b| > N_OVERSHOOT
    requires t == Top(st) && 0 <= t.d <= DEPTH_THRESH && Alike(b, f, t.lo, t.hi, t.d) && Rearranged(f, g, t.lo, t.hi)
    requires ThreeWay(g, KeysAt(b, t.d), med, t.lo, n, m, t.hi) && n + 1 < m && AreParts(more, t, n, m)
    ensures Sorting(b, f0, g, Rest(st) + more, lo, hi)
  {
    hide Sorting, Alike, Rearranged, Replaces, ThreeWay, AreParts;
    AlikeStill(b, f, g, t.lo, t.hi, t.d);
    PartsReplace(b, g, t, med, n, m, more);
    Turn(b, f0, f, g, st, more, lo, hi);
  }

  /** Splits the range just popped and pushes what is left of it. */
  method Divide(ptr: array<int>, arr2: array<int>, stackLo: array<int>, stackHi: array<int>, stackD: array<int>,
    sp: int, lo: int, hi: int, d: int, ghost f0: seq<int>, ghost st: seq<Task>, ghost b: Block, ghost q0: int,
    ghost quad: seq<int>, ghost loSt: int, ghost hiSt: int)
    returns (sp': int, ghost st': seq<Task>)
    requires ptr != arr2 && ptr !in [stackLo, stackHi, stackD] && arr2 !in [stackLo, stackHi, stackD]
    requires Ready(b, arr2[..], q0, quad) && 0 < |st| == sp + 1 <= 32 && Mirrors(stackLo, stackHi, stackD, Rest(st))
    requires Sorting(b, f0, ptr[..], st, loSt, hiSt) && Top(st) == Task(lo, hi, d) && lo < hi && d <= DEPTH_THRESH
    modifies ptr, stackLo, stackHi, stackD
    ensures |st'| == sp' <= 34 && Mirrors(stackLo, stackHi, stackD, st')
    ensures Sorting(b, f0, ptr[..], st', loSt, hiSt) && Work(st') < Work(st)
  {
    hide Ready, Sorting, Mirrors, Work, Alike, Rearranged, ThreeWay, AllKeys, AreParts, KeysAt, Rest, Top;
    ghost var f, rest := ptr[..], Rest(st);
    StackParts(st);
    SortingBlock(b, f0, f, st, loSt, hiSt);
    TopReady(b, f0, f, st, loSt, hiSt);
    var allEqual, n, m;
    ghost var med;
    allEqual, n, m, med := SplitRange(ptr, arr2, lo, hi, d, b, q0, quad);
    if allEqual {
      TurnDeeper(b, f0, f, ptr[..], med, st, Task(lo, hi, d), loSt, hiSt);
      sp' := Push(stackLo, stackHi, stackD, sp, Task(lo, hi, d + 1), rest);
      st' := rest + [Task(lo, hi, d + 1)];
      WorkPush(rest, Task(lo, hi, d + 1));
      WorkPush(rest, Task(lo, hi, d));
      DeeperWeight(lo, hi, d);
    } else {
      ghost var more;
      sp', more := PushParts(stackLo, stackHi, stackD, sp, lo, hi, d, n, m, rest);
      TurnParts(b, f0, f, ptr[..], med, n, m, st, Task(lo, hi, d), more, loSt, hiSt);
      st' := rest + more;
      WorkParts(rest, Task(lo, hi, d), n, m, more);
    }
  }

  lemma {:induction false} StackParts(st: seq<Task>)
    requires st != []
    ensures Rest(st) + [Top(st)] == st && |Rest(st)| == |st| - 1
  {
  }

  lemma {:induction false} SortingBlock(b: Block, f0: seq<int>, f: seq<int>, st: seq<Task>, lo: int, hi: int)
    requires Sorting(b, f0, f, st, lo, hi)
    ensures |b| > N_OVERSHOOT && 0 <= lo <= hi + 1 <= |f0| == |f| && Rearranged(f0, f, lo, hi)
  {
  }

  lemma {:induction false} Begin(b: Block, f0: seq<int>, lo: int, hi: int, d: int)
    requires 0 <= d <= 15 && Alike(b, f0, lo, hi, d) && |b| > N_OVERSHOOT && hi - lo + 1 <= 900_000
    ensures Sorting(b, f0, f0, [Task(lo, hi, d)], lo, hi)
  {
    var st := [Task(lo, hi, d)];
    assert st[1..] == [];
    forall x, y | lo <= x < y <= hi ensures Placed(b, f0, st, x, y) { assert st[0].Holds(x, y); }
  }

  lemma {:induction false} Finished(b: Block, f0: seq<int>, g: seq<int>, st: seq<Task>, lo: int, hi: int)
    requires Sorting(b, f0, g, st, lo, hi) && st == []
    ensures InOrder(b, g, lo, hi)
  {
    hide RotLe;
    forall x, y | lo <= x < y <= hi ensures RotLe(b, g[x], g[y]) { assert Placed(b, g, st, x, y); }
  }

  /**
   * mainQSort3: puts rotations that agree on dSt bytes in order, unless the budget runs out. The stack never holds more
   * than 34 tasks, so the overflow check against its 100 slots cannot fail.
   */
  method MainQSort3(ptr: array<int>, arr2: array<int>, q0: int, nblock: int, loSt: int, hiSt: int, dSt: int,
    budget0: int, ghost b: Block, ghost quad: seq<int>)
    returns (budget: int)
    requires ptr != arr2 && Ready(b, arr2[..], q0, quad) && N_OVERSHOOT < nblock == |b| <= 900_000
    requires 0 <= dSt <= 15 && Alike(b, ptr[..], loSt, hiSt, dSt) && hiSt - loSt + 1 <= nblock
    modifies ptr
    ensures Rearranged(old(ptr[..]), ptr[..], loSt, hiSt) && budget <= budget0
    ensures budget >= 0 ==> InOrder(b, ptr[..], loSt, hiSt)
  {
    hide Ready, Sorting, Mirrors, Work, Alike, Rearranged, InOrder, Rest, Top;
    ghost var f0 := ptr[..];
    budget := budget0;
    var stackLo, stackHi, stackD := new int[MAIN_STACK_SIZE], new int[MAIN_STACK_SIZE], new int[MAIN_STACK_SIZE];
    NoTasks(stackLo, stackHi, stackD);
    var sp := Push(stackLo, stackHi, stackD, 0, Task(loSt, hiSt, dSt), []);
    ghost var st := [Task(loSt, hiSt, dSt)];
    assert [] + st == st;
    Begin(b, f0, loSt, hiSt, dSt);
    SortingBlock(b, f0, ptr[..], st, loSt, hiSt);
    while sp > 0
      invariant |st| == sp <= 34 && Mirrors(stackLo, stackHi, stackD, st)
      invariant Sorting(b, f0, ptr[..], st, loSt, hiSt) && Rearranged(f0, ptr[..], loSt, hiSt) && budget <= budget0
      decreases Work(st)
    {
      assert sp < MAIN_STACK_SIZE - 2;
      var lo, hi, d;
      StackParts(st);
      TopReady(b, f0, ptr[..], st, loSt, hiSt);
      sp, lo, hi, d := Pop(stackLo, stackHi, stackD, sp, st);
      ghost var f := ptr[..];
      if hi - lo < MAIN_SMALL_THRESH || d > DEPTH_THRESH {
        budget := MainSimpleSort.MainSimpleSort(ptr, arr2, q0, nblock, lo, hi, d, budget, b, quad);
        RearrangedWider(f0, f, ptr[..], Task(lo, hi, d), loSt, hiSt);
        if budget < 0 { return; }
        TurnSorted(b, f0, f, ptr[..], st, loSt, hiSt);
        st := Rest(st);
      } else {
        sp, st := Divide(ptr, arr2, stackLo, stackHi, stackD, sp, lo, hi, d, f0, st, b, q0, quad, loSt, hiSt);
        SortingBlock(b, f0, ptr[..], st, loSt, hiSt);
      }
    }
    Finished(b, f0, ptr[..], st, loSt, hiSt);
  }

  lemma {:induction false} NoTasks(stackLo: array<int>, stackHi: array<int>, stackD: array<int>)
    requires stackLo.Length == stackHi.Length == stackD.Length == MAIN_STACK_SIZE
    requires stackLo != stackHi && stackLo != stackD && stackHi != stackD
    ensures Mirrors(stackLo, stackHi, stackD, [])
  {
  }
}
