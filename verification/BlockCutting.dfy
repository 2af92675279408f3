/**
 * Where the compressor ends its blocks, as a function of the input alone: runs are as long as they can be, a block ends
 * as soon as the runs in it take so many bytes, and a flush or the finish ends the block that is not full.
 */
module BlockCutting {
  import opened Rotations
  import opened RunLength

  /** A byte of input; or a flush or the finish. Joined: the byte in front was announced with it. */
  datatype Step = Take(c: Byte) | Close(joined: bool)

  /** The blocks that have ended, the runs of the present one, and the run not yet in it, if there is one. */
  datatype Cutting = Cutting(blocks: seq<seq<Run>>, runs: seq<Run>, last: seq<Run>)

  function Pairs(r: Run): nat {
    if r.len < 4 then r.len else 5
  }

  /** How many bytes the runs take in a block. */
  function Length(runs: seq<Run>): nat {
    if runs == [] then 0 else Length(runs[..|runs| - 1]) + Pairs(runs[|runs| - 1])
  }

  /** One more byte goes to the last run, if that has the same and not yet 255. */
  function Grown(x: Cutting, c: Byte): Cutting {
    if x.last != [] && x.last[0].ch == c && x.last[0].len < 255
      then x.(last := [Run(c, x.last[0].len + 1)])
    else Cutting(x.blocks, x.runs + x.last, [Run(c, 1)])
  }

  predicate Full(x: Cutting, most: nat) {
    Length(x.runs) >= most
  }

  /** A full block ends; the last run belongs to the next one. */
  function Cut(x: Cutting, most: nat): Cutting {
    if Full(x, most) then Cutting(x.blocks + [x.runs], [], x.last) else x
  }

  /** All that is there goes into the block, which ends. */
  function Closed(x: Cutting): Cutting {
    var all := x.runs + x.last;
    Cutting(if all == [] then x.blocks else x.blocks + [all], [], [])
  }

  function After(x: Cutting, step: Step, most: nat): Cutting {
    match step
    case Take(c) => Grown(Cut(x, most), c)
    case Close(joined) => Closed(if joined then x else Cut(x, most))
  }

  const NOTHING: Cutting := Cutting([], [], [])

  function Folded(steps: seq<Step>, most: nat): Cutting {
    if steps == [] then NOTHING else After(Folded(steps[..|steps| - 1], most), steps[|steps| - 1], most)
  }

  function Takes(s: seq<Byte>): (r: seq<Step>)
    ensures |r| == |s| && forall i | 0 <= i < |s| :: r[i] == Take(s[i])
  {
    seq(|s|, i requires 0 <= i < |s| => Take(s[i]))
  }

  lemma {:induction false} FoldedMore(steps: seq<Step>, step: Step, most: nat)
    ensures Folded(steps + [step], most) == After(Folded(steps, most), step, most)
  {
    assert (steps + [step])[..|steps|] == steps;
  }

  lemma {:induction false} TakesMore(s: seq<Byte>, c: Byte)
    ensures Takes(s + [c]) == Takes(s) + [Take(c)]
  {
  }

  lemma {:induction false} OneTaken(steps: seq<Step>, blocks: seq<seq<Run>>, x: Cutting, c: Byte, most: nat)
    requires Cut(Folded(steps, most), most) == Cutting(blocks, x.runs, x.last)
    ensures Folded(steps + [Take(c)], most) == Cutting(blocks, Grown(x, c).runs, Grown(x, c).last)
  {
    FoldedMore(steps, Take(c), most);
  }

  // ---- sizes

  lemma {:induction false} LengthMore(runs: seq<Run>, r: Run)
    ensures Length(runs + [r]) == Length(runs) + Pairs(r)
  {
    assert (runs + [r])[..|runs|] == runs;
  }

  /** That is what is written for the runs. */
  lemma {:induction false} LengthIs(runs: seq<Run>)
    requires forall i | 0 <= i < |runs| :: 1 <= runs[i].len <= 255
    ensures Length(runs) == |Encode(runs)|
  {
    if runs != [] {
      var n := |runs| - 1;
      LengthIs(runs[..n]);
      assert runs == runs[..n] + [runs[n]];
      EncodeAppend(runs[..n], runs[n]);
    }
  }

  /** Runs of 1 to 255 bytes, the last of them open. */
  predicate IsCutting(x: Cutting, most: nat) {
    && |x.last| <= 1 && (forall i | 0 <= i < |x.last| :: 1 <= x.last[i].len <= 255)
    && Length(x.runs) < most + 5
  }

  lemma {:induction false} StaysCutting(x: Cutting, step: Step, most: nat)
    requires IsCutting(x, most) && most > 0
    ensures IsCutting(After(x, step, most), most)
  {
    match step
    case Take(c) =>
      var y := Cut(x, most);
      assert Length([]) == 0;
      if y.last != [] {
        assert y.last == [y.last[0]];
        LengthMore(y.runs, y.last[0]);
      } else {
        assert y.runs + y.last == y.runs;
      }
    case Close(_) => assert Length([]) == 0;
  }

  lemma {:induction false} AlwaysCutting(steps: seq<Step>, most: nat)
    requires most > 0
    ensures IsCutting(Folded(steps, most), most)
  {
    if steps == [] {
      assert Length([]) == 0;
    } else {
      AlwaysCutting(steps[..|steps| - 1], most);
      StaysCutting(Folded(steps[..|steps| - 1], most), steps[|steps| - 1], most);
    }
  }

  /** Without flushes all blocks are full, and none by more than four bytes. */
  lemma {:induction false} BlocksAreFull(s: seq<Byte>, most: nat)
    requires most > 0
    ensures var x := Folded(Takes(s), most);
      forall i | 0 <= i < |x.blocks| :: most <= Length(x.blocks[i]) < most + 5
  {
    if s != [] {
      var n := |s| - 1;
      BlocksAreFull(s[..n], most);
      assert s == s[..n] + [s[n]];
      TakesMore(s[..n], s[n]);
      FoldedMore(Takes(s[..n]), Take(s[n]), most);
      AlwaysCutting(Takes(s[..n]), most);
    }
  }

  // ---- the runs

  function Flat(blocks: seq<seq<Run>>): seq<Run> {
    if blocks == [] then [] else Flat(blocks[..|blocks| - 1]) + blocks[|blocks| - 1]
  }

  /** All runs there have been. */
  function AllRuns(x: Cutting): seq<Run> {
    Flat(x.blocks) + x.runs + x.last
  }

  /** A run of fewer than 255 bytes is followed by another byte. */
  predicate AreLongest(rs: seq<Run>) {
    && (forall i | 0 <= i < |rs| :: 1 <= rs[i].len <= 255)
    && (forall i | 0 <= i < |rs| - 1 :: rs[i].len < 255 ==> rs[i + 1].ch != rs[i].ch)
  }

  lemma {:induction false} CutKeepsRuns(x: Cutting, most: nat)
    ensures AllRuns(Cut(x, most)) == AllRuns(x)
  {
    var y := Cut(x, most);
    if y != x {
      assert y.blocks[..|x.blocks|] == x.blocks;
      assert Flat(x.blocks) + x.runs + [] + x.last == Flat(x.blocks) + x.runs + x.last;
    }
  }

  lemma {:induction false} LastLonger(front: seq<Run>, r: Run)
    requires AreLongest(front + [r]) && r.len < 255
    ensures AreLongest(front + [Run(r.ch, r.len + 1)])
    ensures Plain(front + [Run(r.ch, r.len + 1)]) == Plain(front + [r]) + [r.ch]
  {
    var rs, ts := front + [r], front + [Run(r.ch, r.len + 1)];
    forall i | 0 <= i < |ts| - 1 ensures ts[i].len < 255 ==> ts[i + 1].ch != ts[i].ch {
      assert ts[i] == rs[i] && ts[i + 1].ch == rs[i + 1].ch;
    }
    assert rs[|front|] == r;
    forall i | 0 <= i < |ts| ensures 1 <= ts[i].len <= 255 { assert i < |front| ==> ts[i] == rs[i]; }
    PlainAppend(front, r);
    PlainAppend(front, Run(r.ch, r.len + 1));
    assert Copies(r.ch, r.len + 1) == Copies(r.ch, r.len) + [r.ch];
  }

  lemma {:induction false} OneMoreRun(rs: seq<Run>, c: Byte)
    requires AreLongest(rs) && (rs != [] ==> rs[|rs| - 1].ch != c || rs[|rs| - 1].len == 255)
    ensures AreLongest(rs + [Run(c, 1)]) && Plain(rs + [Run(c, 1)]) == Plain(rs) + [c]
  {
    PlainAppend(rs, Run(c, 1));
    assert Copies(c, 1) == [c];
  }

  /** One more byte: the last run is longer, or there is one more. */
  lemma {:induction false} GrownRuns(x: Cutting, c: Byte)
    requires |x.last| <= 1 && AreLongest(AllRuns(x)) && (x.last == [] ==> AllRuns(x) == [])
    ensures AreLongest(AllRuns(Grown(x, c))) && Plain(AllRuns(Grown(x, c))) == Plain(AllRuns(x)) + [c]
  {
    hide Plain, AreLongest;
    var rs, y := AllRuns(x), Grown(x, c);
    if x.last == [] {
      assert AllRuns(y) == rs + [Run(c, 1)];
      OneMoreRun(rs, c);
    } else {
      var front, r := Flat(x.blocks) + x.runs, x.last[0];
      assert x.last == [r] && rs == front + [r];
      InRange(rs, |front|);
      if r.ch == c && r.len < 255 {
        LastLonger(front, r);
        assert AllRuns(y) == front + [Run(c, r.len + 1)];
      } else {
        OneMoreRun(rs, c);
        assert AllRuns(y) == rs + [Run(c, 1)];
      }
    }
  }

  lemma {:induction false} InRange(rs: seq<Run>, i: nat)
    requires AreLongest(rs) && i < |rs|
    ensures 1 <= rs[i].len <= 255
  {
  }

  /** The runs of all blocks, one after the other, are the longest runs of the input, and stand for it. */
  lemma {:induction false} RunsAreLongest(s: seq<Byte>, most: nat)
    requires most > 0
    ensures var x := Folded(Takes(s), most);
      AreLongest(AllRuns(x)) && Plain(AllRuns(x)) == s && |x.last| <= 1 &&
        (x.last == [] ==> s == [] && AllRuns(x) == [])
  {
    if s != [] {
      var n := |s| - 1;
      RunsAreLongest(s[..n], most);
      assert s == s[..n] + [s[n]];
      TakesMore(s[..n], s[n]);
      FoldedMore(Takes(s[..n]), Take(s[n]), most);
      var x := Folded(Takes(s[..n]), most);
      hide AreLongest, Plain, AllRuns;
      CutKeepsRuns(x, most);
      GrownRuns(Cut(x, most), s[n]);
    }
  }

  /** There is only one way to divide the input into longest runs. */
  lemma {:induction false} LongestUnique(rs: seq<Run>, ts: seq<Run>)
    requires AreLongest(rs) && AreLongest(ts) && Plain(rs) == Plain(ts)
    ensures rs == ts
  {
    SomePlain(rs);
    SomePlain(ts);
    if rs != [] && ts != [] {
      var s := Plain(rs);
      assert s[0] == rs[0].ch && s[0] == ts[0].ch;
      if rs[0].len < ts[0].len {
        ShorterFirst(rs, ts);
        assert false;
      } else if ts[0].len < rs[0].len {
        ShorterFirst(ts, rs);
        assert false;
      }
      assert Plain(rs[1..]) == s[rs[0].len..] == Plain(ts[1..]);
      LongestUnique(rs[1..], ts[1..]);
      assert rs == [rs[0]] + rs[1..] && ts == [ts[0]] + ts[1..];
    }
  }

  lemma {:induction false} SomePlain(rs: seq<Run>)
    requires AreLongest(rs)
    ensures Plain(rs) == [] <==> rs == []
  {
    if rs != [] { assert |Plain(rs)| >= rs[0].len; }
  }

  /** A run that could be longer is not a longest one. */
  lemma {:induction false} ShorterFirst(rs: seq<Run>, ts: seq<Run>)
    requires AreLongest(rs) && AreLongest(ts) && rs != [] && ts != [] && rs[0].ch == ts[0].ch
    requires rs[0].len < ts[0].len
    ensures Plain(rs) != Plain(ts)
  {
    var n := rs[0].len;
    assert Plain(ts)[n] == ts[0].ch;
    if |rs| > 1 {
      assert Plain(rs)[n..] == Plain(rs[1..]);
      assert Plain(rs[1..])[0] == rs[1].ch;
      if |Plain(rs)| > n { assert Plain(rs)[n] == Plain(rs)[n..][0]; }
    } else {
      assert rs[1..] == [] && |Plain(rs)| == n;
    }
  }

  // ---- the flags

  /** The same input with flushes at the same places. */
  predicate SameInput(a: seq<Step>, b: seq<Step>) {
    |a| == |b| && forall i | 0 <= i < |a| :: if a[i].Take? then b[i] == a[i] else b[i].Close?
  }

  /**
   * A block that becomes full with the very last byte before a flush: it makes a difference whether that byte was
   * announced with the flush. Then the run it belongs to ends up in the block, otherwise in one of its own.
   */
  lemma {:induction false} OnlyIfFull(x: Cutting, most: nat)
    requires most > 0 && x.last != []
    ensures After(x, Close(true), most) == After(x, Close(false), most) <==> !Full(x, most)
  {
    assert Length([]) == 0;
    if Full(x, most) {
      assert |After(x, Close(false), most).blocks| == |x.blocks| + 2;
    }
  }

  /** So the blocks do not depend on how the input came, but for that. */
  lemma {:induction false} CallsDoNotMatter(a: seq<Step>, b: seq<Step>, most: nat)
    requires SameInput(a, b)
    requires forall i | 0 <= i < |a| && a[i] != b[i] :: !Full(Folded(a[..i], most), most)
    ensures Folded(a, most) == Folded(b, most)
  {
    if a != [] {
      var n := |a| - 1;
      forall i | 0 <= i < n && a[..n][i] != b[..n][i]
        ensures !Full(Folded(a[..n][..i], most), most)
      {
        assert a[..n][..i] == a[..i];
      }
      CallsDoNotMatter(a[..n], b[..n], most);
    }
  }

  /** The smallest input on which the calls do matter: bytes in turn, one more than fill the block. */
  function InTurn(n: nat): (r: seq<Byte>)
    ensures |r| == n && forall i | 0 <= i < n :: r[i] == i % 2
  {
    seq(n, i => i % 2)
  }

  ghost predicate IsInTurn(x: Cutting, n: nat) {
    Length(x.runs) == n && x.last == [Run(n % 2, 1)] && x.blocks == []
  }

  lemma {:induction false} InTurnStep(x: Cutting, n: nat, most: nat)
    requires IsInTurn(x, n) && n < most
    ensures IsInTurn(After(x, Take((n + 1) % 2), most), n + 1)
  {
    LengthMore(x.runs, Run(n % 2, 1));
  }

  lemma {:induction false} InTurnFirst(most: nat)
    requires most > 0
    ensures IsInTurn(After(NOTHING, Take(0), most), 0)
  {
    assert Length([]) == 0 && NOTHING.runs + NOTHING.last == [];
  }

  lemma {:induction false} InTurnFolded(n: nat, most: nat)
    requires n <= most && most > 0
    ensures IsInTurn(Folded(Takes(InTurn(n + 1)), most), n)
  {
    hide Folded, After, IsInTurn;
    var s := InTurn(n + 1);
    assert s == InTurn(n) + [n % 2];
    TakesMore(InTurn(n), n % 2);
    FoldedMore(Takes(InTurn(n)), Take(n % 2), most);
    if n == 0 {
      assert Takes(InTurn(0)) == [];
      NoneFolded(most);
      InTurnFirst(most);
    } else {
      InTurnFolded(n - 1, most);
      InTurnStep(Folded(Takes(InTurn(n)), most), n - 1, most);
    }
  }

  lemma {:induction false} NoneFolded(most: nat)
    ensures Folded([], most) == NOTHING
  {
  }

  /** Given to a call to run and finished by one without input, it makes two blocks; given to one to finish, one. */
  lemma {:induction false} CallsMatter(most: nat)
    requires most > 0
    ensures var s := Takes(InTurn(most + 1));
      |Folded(s + [Close(false)], most).blocks| == 2 && |Folded(s + [Close(true)], most).blocks| == 1
  {
    var s := Takes(InTurn(most + 1));
    InTurnFolded(most, most);
    FoldedMore(s, Close(false), most);
    FoldedMore(s, Close(true), most);
    assert Length([]) == 0;
  }

  /** Behind a flush everything starts anew. */
  lemma {:induction false} StartsAnew(a: seq<Step>, joined: bool, more: seq<Step>, most: nat)
    requires most > 0
    ensures var x, y := Folded(a + [Close(joined)], most), Folded(more, most);
      Folded(a + [Close(joined)] + more, most) == Cutting(x.blocks + y.blocks, y.runs, y.last)
  {
    var b := a + [Close(joined)];
    FoldedMore(a, Close(joined), most);
    if more == [] {
      assert b + more == b;
      assert Folded(b, most).blocks + [] == Folded(b, most).blocks;
    } else {
      var n := |more| - 1;
      StartsAnew(a, joined, more[..n], most);
      assert b + more == (b + more[..n]) + [more[n]] && more == more[..n] + [more[n]];
      FoldedMore(b + more[..n], more[n], most);
      FoldedMore(more[..n], more[n], most);
      var x, y := Folded(b, most), Folded(more[..n], most);
      BehindBlocks(x.blocks, y, more[n], most);
    }
  }

  lemma {:induction false} BehindBlocks(front: seq<seq<Run>>, y: Cutting, step: Step, most: nat)
    ensures var z := After(y, step, most);
      After(Cutting(front + y.blocks, y.runs, y.last), step, most) == Cutting(front + z.blocks, z.runs, z.last)
  {
    var x := Cutting(front + y.blocks, y.runs, y.last);
    assert front + (y.blocks + [y.runs]) == (front + y.blocks) + [y.runs];
    assert front + (y.blocks + [y.runs + y.last]) == (front + y.blocks) + [y.runs + y.last];
    var c := Cut(y, most);
    assert Cut(x, most) == Cutting(front + c.blocks, c.runs, c.last);
    assert front + (c.blocks + [c.runs + c.last]) == (front + c.blocks) + [c.runs + c.last];
  }
}
