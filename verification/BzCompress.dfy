/**
 * BZ2_bzCompress: input is taken, blocks are compressed and output is handed over in whatever
 * portions the caller provides for.
 */
module BzCompress {
  import opened Bits
  import opened Rotations
  import opened ByteView
  import opened BucketHeaders
  import opened BitStrings
  import opened BitWriter
  import opened BitReader
  import opened RunLength
  import opened Crc
  import opened RunCollector
  import opened BlockCutting
  import opened BlockFormat
  import opened BlockSize
  import opened BlockCoder
  import opened SendParts
  import opened SendStream
  import opened StreamFormat
  import opened CompressedStream

  datatype Mode = Idle | Running | Flushing | Finishing
  datatype Stage = Input | Output

  /** The end of a block that a flush asks for, if there is one. */
  function Closing(closes: bool, joined: bool): seq<Step> {
    if closes then [Close(joined)] else []
  }

  datatype Action = Run | Flush | Finish
  datatype Ret = RunOk | FlushOk | FinishOk | StreamEnd | SequenceError | ParamError

  // ---- when a call gets anywhere

  /** What decides it: output waiting, input being taken, how much input is offered, and how much room there is. */
  datatype Snapshot = Snapshot(waiting: bool, taking: bool, input: nat, room: int)

  /** With output waiting a call takes room for it, otherwise input, or room for the end of the stream. */
  ghost predicate Moved(mode: Mode, a: Snapshot, progress: bool) {
    && (mode == Running ==> (progress <==> if a.waiting then a.room > 0 else a.input > 0))
    && (mode == Finishing ==> (progress <==> a.room > 0 || (!a.waiting && a.input > 0)))
  }

  /** One turn of the loop, from a to c. */
  ghost predicate Stepped(mode: Mode, a: Snapshot, c: Snapshot, took: bool, out: bool, stop: bool) {
    && c.input <= a.input && (took <==> c.input < a.input) && 0 <= c.room <= a.room && (out <==> c.room < a.room)
    && (out <==> a.waiting && a.room > 0) && (stop && c.waiting ==> c.room == 0)
    && (a.waiting && a.room == 0 ==> stop && !took && c.waiting)
    && (a.taking ==> (took <==> a.input > 0))
    && (a.taking && a.input == 0 && mode == Running ==> stop)
    && (a.taking && a.input == 0 && mode == Finishing ==> !stop && c.waiting)
  }

  /** From a to b, output is handed over. */
  ghost predicate Handing(a: Snapshot, b: Snapshot, out: bool) {
    && b.taking && !b.waiting && a.input == b.input && 0 <= b.room <= a.room && (out <==> b.room < a.room)
    && (out <==> a.waiting && a.room > 0) && !(a.waiting && a.room == 0) && (a.taking ==> b == a && !out)
  }

  /** Output handed over, up to b, and then input taken. */
  lemma {:induction false} SteppedBoth(mode: Mode, a: Snapshot, b: Snapshot, c: Snapshot, took: bool, out: bool,
    stop: bool)
    requires Stepped(mode, b, c, took, false, stop) && Handing(a, b, out)
    ensures Stepped(mode, a, c, took, out, stop)
  {
  }

  /** Where the loop stands, at c, after its first turn. */
  ghost predicate Turned(mode: Mode, a: Snapshot, c: Snapshot, progress_in: bool, progress_out: bool, stop: bool) {
    && c.input <= a.input && 0 <= c.room <= a.room
    && (a.room == 0 ==> !progress_out) && (a.input == 0 ==> !progress_in)
    && (a.waiting && a.room == 0 ==> stop && !progress_in && !progress_out)
    && (a.waiting && a.room > 0 ==> progress_out)
    && (!a.waiting && a.input > 0 ==> progress_in)
    && (!a.waiting && a.input == 0 && mode == Running ==> stop && !progress_in && !progress_out)
    && (!a.waiting && a.input == 0 && mode == Finishing ==>
        progress_out || a.room == 0 || (!stop && c.waiting && c.room == a.room))
    && (mode == Finishing && a.room == 0 && (a.waiting || a.input == 0) ==> c.waiting)
  }

  lemma {:induction false} Turns(mode: Mode, a: Snapshot, c: Snapshot, d: Snapshot, progress_in: bool,
    progress_out: bool, first: bool, took: bool, out: bool, stop: bool)
    requires Stepped(mode, c, d, took, out, stop)
    requires if first then c == a && (a.waiting || a.taking) && !progress_in && !progress_out
             else Turned(mode, a, c, progress_in, progress_out, false)
    ensures Turned(mode, a, d, progress_in || took, progress_out || out, stop)
  {
  }

  lemma {:induction false} TurnedOut(mode: Mode, a: Snapshot, c: Snapshot, progress_in: bool, progress_out: bool)
    requires Turned(mode, a, c, progress_in, progress_out, true)
    ensures Moved(mode, a, progress_in || progress_out)
    ensures mode == Finishing && !(progress_in || progress_out) ==> c.waiting
  {
  }

  // ---- what a call does, in steps

  /** The input taken from c0 to c, and a flush behind it if it closes, lead from the steps s0 to s. */
  ghost predicate Logged(s0: seq<Step>, c0: seq<Byte>, s: seq<Step>, c: seq<Byte>, closes: bool, joined: bool) {
    c0 <= c && s == s0 + Takes(c[|c0|..]) + Closing(closes, joined)
  }

  lemma {:induction false} NoneLogged(s: seq<Step>, c: seq<Byte>)
    ensures Logged(s, c, s, c, false, false)
  {
  }

  lemma {:induction false} ByteLogged(s0: seq<Step>, c0: seq<Byte>, s: seq<Step>, c: seq<Byte>, b: Byte)
    requires Logged(s0, c0, s, c, false, false)
    ensures Logged(s0, c0, s + [Take(b)], c + [b], false, false)
  {
    assert (c + [b])[|c0|..] == c[|c0|..] + [b];
    TakesMore(c[|c0|..], b);
  }

  lemma {:induction false} EndLogged(s0: seq<Step>, c0: seq<Byte>, s: seq<Step>, c: seq<Byte>, closes: bool,
    joined: bool)
    requires Logged(s0, c0, s, c, false, false)
    ensures Logged(s0, c0, s + Closing(closes, joined), c, closes, joined)
  {
  }

  /** The steps of one more turn; behind a flush nothing more is taken. */
  lemma {:induction false} OneTurn(s0: seq<Step>, c0: seq<Byte>, s1: seq<Step>, c1: seq<Byte>, s: seq<Step>,
    c: seq<Byte>, closed: bool, closes: bool, took: bool, joined: bool)
    requires Logged(s0, c0, s1, c1, closed, joined) && Logged(s1, c1, s, c, closes, took)
    requires (closes ==> took == joined) && (closed ==> c1 == c && !closes)
    ensures Logged(s0, c0, s, c, closed || closes, joined)
  {
    assert Takes(c[|c0|..]) == Takes(c1[|c0|..]) + Takes(c[|c1|..]);
    if closed { assert Takes(c[|c1|..]) == []; }
  }

  /** Input has been taken from the front. */
  ghost predicate Took(c0: seq<Byte>, n0: seq<Byte>, c: seq<Byte>, n: seq<Byte>, progress: bool) {
    c0 <= c && c + n == c0 + n0 && (progress <==> |n| < |n0|)
  }

  lemma {:induction false} TookNone(c: seq<Byte>, n: seq<Byte>)
    ensures Took(c, n, c, n, false)
  {
  }

  lemma {:induction false} TookLess(c0: seq<Byte>, n0: seq<Byte>, c: seq<Byte>, n: seq<Byte>, progress: bool)
    requires Took(c0, n0, c, n, progress)
    ensures |n| <= |n0| && (progress <==> |n| < |n0|)
  {
  }

  /** Output has been handed over, as far as there was room. */
  ghost predicate Handed(e0: seq<int>, room0: int, e: seq<int>, room: int, progress: bool) {
    e0 <= e && |e| + room == |e0| + room0 && (progress <==> |e| > |e0|)
  }

  lemma {:induction false} HandedNone(e: seq<int>, room: int)
    ensures Handed(e, room, e, room, false)
  {
  }

  lemma {:induction false} HandedMeans(e0: seq<int>, room0: int, e: seq<int>, room: int, progress: bool)
    requires Handed(e0, room0, e, room, progress)
    ensures e0 <= e && |e| + room == |e0| + room0 && (progress <==> |e| > |e0|)
  {
  }

  lemma {:induction false} HandedOn(e0: seq<int>, room0: int, e1: seq<int>, room1: int, e: seq<int>, room: int,
    before: bool, now: bool)
    requires Handed(e0, room0, e1, room1, before) && Handed(e1, room1, e, room, now)
    ensures Handed(e0, room0, e, room, before || now)
  {
  }

  /** What there is of input, steps and flushes at some time of a call, which began with s0, c0, n0 and ended0. */
  ghost predicate Course(mode: Mode, s0: seq<Step>, c0: seq<Byte>, n0: seq<Byte>, ended0: bool, s: seq<Step>,
    c: seq<Byte>, n: seq<Byte>, ended: bool)
  {
    && c0 <= c && c + n == c0 + n0 && Logged(s0, c0, s, c, ended && !ended0, n0 != [])
    && (ended0 ==> ended) && (ended ==> n == []) && (mode != Running && n0 != [] && n == [] ==> ended)
  }

  lemma {:induction false} CourseBegins(mode: Mode, s0: seq<Step>, c0: seq<Byte>, n0: seq<Byte>, ended0: bool)
    requires ended0 ==> n0 == []
    ensures Course(mode, s0, c0, n0, ended0, s0, c0, n0, ended0)
  {
  }

  lemma {:induction false} CourseOn(mode: Mode, s0: seq<Step>, c0: seq<Byte>, n0: seq<Byte>, ended0: bool,
    s1: seq<Step>,
    c1: seq<Byte>, n1: seq<Byte>, ended1: bool, s: seq<Step>, c: seq<Byte>, n: seq<Byte>, ended: bool, took: bool)
    requires Course(mode, s0, c0, n0, ended0, s1, c1, n1, ended1)
    requires Took(c1, n1, c, n, took) && (ended1 ==> ended)
    requires Logged(s1, c1, s, c, ended && !ended1, took) && (ended ==> mode != Running && n == [])
    requires took && mode != Running && n == [] ==> ended
    ensures Course(mode, s0, c0, n0, ended0, s, c, n, ended)
  {
    OneTurn(s0, c0, s1, c1, s, c, ended1 && !ended0, ended && !ended1, took, n0 != []);
  }

  lemma {:induction false} CourseEnds(mode: Mode, s0: seq<Step>, c0: seq<Byte>, n0: seq<Byte>, ended0: bool,
    s: seq<Step>,
    c: seq<Byte>, n: seq<Byte>, ended: bool)
    requires Course(mode, s0, c0, n0, ended0, s, c, n, ended)
    ensures c0 <= c && c + n == c0 + n0 && Logged(s0, c0, s, c, ended && !ended0, n0 != [])
    ensures (ended0 ==> ended) && (ended ==> n == []) && |n| <= |n0|
    ensures mode != Running && n0 != [] && n == [] ==> ended
  {
  }

  /** What a call has logged: its input, and a flush. */
  lemma {:induction false} StepsOf(s0: seq<Step>, c0: seq<Byte>, s: seq<Step>, c: seq<Byte>, input: seq<Byte>,
    taken: nat, closes: bool, joined: bool)
    requires Logged(s0, c0, s, c, closes, joined) && taken <= |input| && c == c0 + input[..taken]
    ensures s == s0 + Takes(input[..taken]) + Closing(closes, joined)
  {
    assert c[|c0|..] == input[..taken];
  }

  lemma {:induction false} NoSteps(s: seq<Step>, joined: bool)
    ensures s + Takes([]) + Closing(false, joined) == s
  {
  }

  class Compressor {
    const coder: Coder
    const s: Collector
    const level: int
    var mode: Mode
    var state: Stage
    var avail_in_expect: int
    var blockNo: int
    var combinedCRC: nat
    var state_out_pos: int
    var next_in: seq<Byte>
    var avail_out: int
    /** All output handed over so far: the memory behind next_out. */
    var emitted: seq<int>
    /** All input taken so far, the blocks made, whether anything is written, and the trailer. */
    ghost var consumed: seq<Byte>
    ghost var made: seq<Made>
    ghost var started: bool
    ghost var closed: bool
    ghost var pad: nat
    /** The input and the flushes so far, and whether the present flush or the finish has ended the block. */
    ghost var steps: seq<Step>
    ghost var ended: bool

    /** From how many bytes on a block is full. */
    ghost function Most(): nat {
      if s.nblockMAX >= 0 then s.nblockMAX else 0
    }

    /** Blocks and runs are those that the input makes. */
    ghost predicate AsCut(x: Cutting, runs: seq<Run>)
      reads this`made, s`state_in_ch, s`state_in_len
    {
      x == Cutting(RunsOf(made), runs, s.LastRun())
    }

    /** So they are once a full block has ended. */
    ghost predicate Cuts(runs: seq<Run>)
      reads this`steps, this`made, s`state_in_ch, s`state_in_len
    {
      AsCut(Cut(Folded(steps, Most()), Most()), runs)
    }

    /** And so in front of that. */
    ghost predicate Uncut()
      reads this`steps, this`made, s`runs, s`state_in_ch, s`state_in_len
    {
      AsCut(Folded(steps, Most()), s.runs)
    }

    /** The present block has ended, but is not yet among those made. */
    ghost predicate Divides()
      reads this`steps, this`made, s`runs, s`state_in_ch, s`state_in_len
    {
      Cut(Folded(steps, Most()), Most()) ==
        Cutting(RunsOf(made) + (if s.runs == [] then [] else [s.runs]), [], s.LastRun())
    }

    ghost predicate Endings()
      reads this`ended, this`state, this`mode, this`avail_in_expect, s`state_in_ch
    {
      (ended ==> mode != Running && avail_in_expect == 0 && NonePending()) &&
        (state == Output && NonePending() ==> ended)
    }

    ghost predicate Divided()
      reads this`steps, this`made, this`ended, this`state, this`mode, this`avail_in_expect, s`runs, s`state_in_ch,
        s`state_in_len
    {
      Cuts(if state == Input then s.runs else []) && Endings()
    }

    ghost predicate Linked()
      reads coder.ftab
    {
      && coder.level == level && s.block == coder.arr2 && s.inUse == coder.inUse &&
          s.nblockMAX == BLOCK_UNIT * level - 19
      && coder.Apart() && IsTable(coder.ftab[..]) && coder.w.zbits.Length == 300_000 * level
    }

    ghost predicate Accounts()
      reads this`made, this`combinedCRC, this`started, this`blockNo, this`avail_out, this`emitted, this`mode,
        this`avail_in_expect, this`next_in
    {
      && 1 <= level <= 9 && AreMade(made, level) && combinedCRC == CombinedCrc(made, level) && combinedCRC < WORD
      && (made != [] ==> started) && blockNo >= 1 && 0 <= avail_out && EmittedBytes()
      && (mode == Flushing || mode == Finishing ==> avail_in_expect == |next_in|)
    }

    ghost predicate EmittedBytes()
      reads this`emitted
    {
      forall i | 0 <= i < |emitted| :: 0 <= emitted[i] < 256
    }

    ghost predicate NonePending()
      reads s`state_in_ch
    {
      s.state_in_ch == NO_CHAR
    }

    ghost predicate InInput()
      reads this, s, s.block, s.inUse, coder.w
    {
      && s.Valid() && s.nblock < s.nblockMAX && (NonePending() ==> s.runs == []) && coder.w.numZ == 0 &&
          state_out_pos == 0
      && !closed && (started <==> blockNo > 1) && consumed == Covered(made) + s.Taken() && mode != Idle
    }

    ghost predicate InOutput()
      reads this, s
    {
      && s.Resting() && started && consumed == Covered(made) + s.PendingBytes()
      && (closed ==> (mode == Finishing || mode == Idle) && avail_in_expect == 0 && NonePending())
      && (!closed ==> mode != Idle && (NonePending() ==> mode == Flushing))
    }

    /** The bytes handed over, and those that could be. */
    ghost function Bytes(): seq<int>
      requires 0 <= state_out_pos <= coder.w.numZ <= coder.w.zbits.Length
      reads this`state_out_pos, this`emitted, coder.w, coder.w.zbits
    {
      emitted + coder.w.zbits[state_out_pos..coder.w.numZ]
    }

    /** zbits holds numZ bytes, state_out_pos of them handed over. */
    ghost predicate BytesFit()
      reads this`state_out_pos, coder.w, coder.w.zbits
    {
      && 0 <= state_out_pos <= coder.w.numZ <= coder.w.zbits.Length
      && forall i | 0 <= i < coder.w.numZ :: 0 <= coder.w.zbits[i] < 256
    }

    /** These bytes, and the bits in the buffer, are the stream so far; at the end they are all of it. */
    ghost predicate AreStream(bytes: seq<int>)
      reads this`closed, this`made, this`started, this`pad, coder.w, coder.w.zbits
    {
      && 1 <= level <= 9 && AreMade(made, level)
      && if closed then
           pad < 8 && ArePieces(Pieces(made), level)
           && BytesBits(bytes) == StreamBits(Pieces(made), level, CombinedCrc(made, level)) + Zeros(pad)
         else coder.w.Valid() && BytesBits(bytes) + coder.w.LiveBits() == SoFar(started, made, level)
    }

    ghost predicate BitsKept()
      reads this`state_out_pos, this`emitted, this`closed, this`made, this`started, this`pad, coder.w, coder.w.zbits
    {
      BytesFit() && AreStream(Bytes())
    }

    ghost predicate Valid()
      reads this, s, s.block, s.inUse, coder.w, coder.w.zbits, coder.ftab
    {
      Linked() && Accounts() && BitsKept() && Divided() && if state == Input then InInput() else InOutput()
    }

    constructor (level: int, workFactor: int)
      requires 1 <= level <= 9
      ensures this.level == level && mode == Running && consumed == [] && emitted == [] && next_in == [] && AtStart() &&
        fresh(coder) && fresh(s)
      ensures coder.workFactor == workFactor && fresh(coder.Objects())
    {
      this.level := level;
      var c := new Coder(level, workFactor);
      coder := c;
      s := new Collector(c.arr2, c.inUse, BLOCK_UNIT * level - 19);
      mode, state, avail_in_expect, blockNo, combinedCRC, state_out_pos, next_in, avail_out := Running, Input, 0, 1, 0,
        0, [], 0;
      consumed, emitted, made, started, closed, pad, steps, ended := [], [], [], false, false, 0, [], false;
    }

    /** The fields as BZ2_bzCompressInit leaves them. */
    ghost predicate AtStart()
      reads this, s, s.block, s.inUse, coder.w, coder.w.zbits, coder.ftab
    {
      && Linked() && 1 <= level <= 9 && mode == Running && state == Input && blockNo == 1 && combinedCRC == 0 &&
          state_out_pos == 0
      && next_in == [] && avail_out == 0 && consumed == [] && emitted == [] && made == [] && !started && !closed
      && steps == [] && !ended
      && s.Valid() && s.nblock == 0 && s.runs == [] && s.Taken() == [] && s.state_in_ch == NO_CHAR
      && coder.w.Valid() && coder.w.Bits() == [] && coder.w.numZ == 0
    }

    lemma {:induction false} StartsValid()
      requires AtStart()
      ensures Valid()
    {
      hide Coder.Apart, IsTable, Collector.Valid, Writer.Valid, Writer.Bits, Collector.Taken, AreStream, AreMade,
        Covered, CombinedCrc, Divided;
      InitialBits();
      NothingMade();
      NothingCut();
    }

    lemma {:induction false} NothingCut()
      requires steps == [] && !ended && made == [] && s.runs == [] && s.state_in_ch == NO_CHAR && state == Input
      requires s.nblockMAX >= 1
      ensures Divided()
    {
      assert Length([]) == 0;
    }

    lemma {:induction false} InitialBits()
      requires coder.w.Valid() && coder.w.Bits() == [] && coder.w.numZ == 0 && 1 <= level <= 9
      requires state_out_pos == 0 && emitted == [] && made == [] && !started && !closed
      ensures AreMade(made, level) && AreStream(Bytes())
    {
      assert |coder.w.LiveBits()| == 0 && Bytes() == [];
    }

    lemma {:induction false} NothingMade()
      requires 1 <= level <= 9
      ensures Covered([]) == [] && CombinedCrc([], level) == 0 && BytesBits([]) == []
    {
    }

    // ---- handing over output

    /** copy_output_until_stop */
    method CopyOutput() returns (progress: bool)
      requires BytesFit() && EmittedBytes() && 0 <= avail_out
      modifies this`state_out_pos, this`avail_out, this`emitted
      ensures BytesFit() && EmittedBytes() && Bytes() == old(Bytes()) && 0 <= avail_out &&
        (avail_out == 0 || state_out_pos == coder.w.numZ)
      ensures old(emitted) <= emitted && |emitted| + avail_out == |old(emitted)| + old(avail_out)
      ensures progress <==> |emitted| > |old(emitted)|
      ensures progress <==> old(state_out_pos) < coder.w.numZ && old(avail_out) > 0
    {
      progress := false;
      ghost var all, e0 := Bytes(), emitted;
      while true
        invariant BytesFit() && EmittedBytes() && Bytes() == all && 0 <= avail_out
        invariant e0 <= emitted && |emitted| + avail_out == |e0| + old(avail_out)
        invariant progress <==> |emitted| > |e0|
        invariant state_out_pos - old(state_out_pos) == |emitted| - |e0|
        decreases avail_out
      {
        if avail_out == 0 { break; }
        if state_out_pos >= coder.w.numZ { break; }
        progress := true;
        emitted := emitted + [coder.w.zbits[state_out_pos]];
        state_out_pos := state_out_pos + 1;
        avail_out := avail_out - 1;
      }
    }

    // ---- taking input

    /** copy_input_until_stop: until the block is full, the input is used up, or as much of it as was announced. */
    method CopyInput() returns (progress: bool)
      requires s.Valid() && s.nblock < s.nblockMAX && (NonePending() ==> s.runs == [])
      requires (mode != Running ==> avail_in_expect == |next_in|) && Cuts(s.runs)
      modifies this`next_in, this`avail_in_expect, this`consumed, this`steps
      modifies s`nblock, s`blockCRC, s`runs, s`state_in_ch, s`state_in_len, s.block, s.inUse
      ensures Logged(old(steps), old(consumed), steps, consumed, false, false) &&
        if progress then Uncut() else Cuts(s.runs)
      ensures s.Valid() && s.nblock <= s.nblockMAX + 4 && consumed + next_in == old(consumed) + old(next_in)
      ensures old(consumed) <= consumed && s.Taken() == old(s.Taken()) + consumed[|old(consumed)|..]
      ensures if mode == Running then avail_in_expect == old(avail_in_expect) else avail_in_expect == |next_in|
      ensures s.nblock >= s.nblockMAX || next_in == []
      ensures (s.nblock >= s.nblockMAX ==> !NonePending()) && (NonePending() ==> s.runs == [])
      ensures progress <==> |next_in| < |old(next_in)|
      ensures !progress ==> next_in == old(next_in) && s.nblock == old(s.nblock) && s.state_in_ch == old(s.state_in_ch)
    {
      progress := false;
      ghost var c0, n0, t0, ch0, b0, s0 := consumed, next_in, s.Taken(), s.state_in_ch, s.nblock, steps;
      hide Collector.Valid, Collector.Taken, Uncut, Cuts, Logged;
      Nothing(c0, t0);
      NoneLogged(steps, consumed);
      while true
        invariant s.Valid() && s.nblock <= s.nblockMAX + 4 && consumed + next_in == c0 + n0
        invariant c0 <= consumed && s.Taken() == t0 + consumed[|c0|..]
        invariant if mode == Running then avail_in_expect == old(avail_in_expect) else avail_in_expect == |next_in|
        invariant (s.nblock >= s.nblockMAX ==> !NonePending()) && (NonePending() ==> s.runs == [])
        invariant |next_in| <= |n0| && (progress <==> |next_in| < |n0|)
        invariant !progress ==> next_in == n0 && s.nblock == b0 && s.state_in_ch == ch0
        invariant Logged(s0, c0, steps, consumed, false, false) && if progress then Uncut() else Cuts(s.runs)
        decreases |next_in|
      {
        if s.nblock >= s.nblockMAX { break; }
        if |next_in| == 0 { break; }
        if mode != Running && avail_in_expect == 0 { break; }
        if progress { NotYetFull(); }
        progress := true;
        TakeOne(c0, t0, s0);
      }
    }

    lemma {:induction false} Nothing(c: seq<Byte>, t: seq<Byte>)
      ensures t + c[|c|..] == t
    {
    }

    lemma {:induction false} OneMoreStep(c: Byte)
      requires Cuts(s.runs)
      ensures var x := Grown(s.Present(), c);
        Folded(steps + [Take(c)], Most()) == Cutting(RunsOf(made), x.runs, x.last)
    {
      OneTaken(steps, RunsOf(made), s.Present(), c, Most());
    }

    lemma {:induction false} NowUncut(x: Cutting)
      requires Folded(steps, Most()) == Cutting(RunsOf(made), x.runs, x.last) && x == s.Present()
      ensures Uncut()
    {
    }

    lemma {:induction false} NotYetFull()
      requires s.Valid() && s.nblock < s.nblockMAX && Uncut()
      ensures Cuts(s.runs)
    {
      LengthIs(s.runs);
    }

    lemma {:induction false} NowFull()
      requires s.Valid() && 1 <= s.nblockMAX <= s.nblock && Uncut()
      ensures Divides()
    {
      LengthIs(s.runs);
      assert Length([]) == 0;
    }

    /** One byte of input. */
    method TakeOne(ghost c0: seq<Byte>, ghost t0: seq<Byte>, ghost s0: seq<Step>)
      requires s.Valid() && s.nblock < s.nblockMAX && (NonePending() ==> s.runs == []) && next_in != []
      requires c0 <= consumed && s.Taken() == t0 + consumed[|c0|..]
      requires (mode != Running ==> avail_in_expect == |next_in|) && Cuts(s.runs) &&
        Logged(s0, c0, steps, consumed, false, false)
      modifies this`next_in, this`avail_in_expect, this`consumed, this`steps
      modifies s`nblock, s`blockCRC, s`runs, s`state_in_ch, s`state_in_len, s.block, s.inUse
      ensures Uncut() && Logged(s0, c0, steps, consumed, false, false)
      ensures s.Valid() && s.nblock <= s.nblockMAX + 4 && consumed + next_in == old(consumed) + old(next_in) &&
        |next_in| == |old(next_in)| - 1
      ensures c0 <= consumed && s.Taken() == t0 + consumed[|c0|..] && !NonePending()
      ensures if mode == Running then avail_in_expect == old(avail_in_expect) else avail_in_expect == |next_in|
    {
      hide Gathered, Collector.Taken, Cuts, Uncut, Logged, Grown, RunsOf, Folded, Collector.Present, Most;
      var c := next_in[0];
      ghost var all, x, st := consumed + next_in, s.Present(), steps;
      OneMoreStep(c);
      s.AddChar(c);
      steps := steps + [Take(c)];
      NowUncut(Grown(x, c));
      assert consumed + next_in == consumed + [c] + next_in[1..];
      assert (consumed + [c])[|c0|..] == consumed[|c0|..] + [c];
      assert t0 + (consumed[|c0|..] + [c]) == t0 + consumed[|c0|..] + [c];
      ghost var before := consumed;
      consumed := consumed + [c];
      ByteLogged(s0, c0, st, before, c);
      next_in := next_in[1..];
      if mode != Running { avail_in_expect := avail_in_expect - 1; }
    }

    // ---- BZ2_compressBlock

    /** Everything so far is in the bytes handed over and in the writer. */
    ghost predicate AllWritten()
      reads this`emitted, this`made, this`started, coder.w, coder.w.zbits
    {
      && 1 <= level <= 9 && AreMade(made, level) && coder.w.Valid()
      && BytesBits(emitted) + coder.w.Bits() == SoFar(started, made, level)
    }

    /** Before the first block: the stream header. */
    method StartStream()
      requires AllWritten() && coder.w.numZ == 0 && (started <==> blockNo > 1) && (made != [] ==> started) &&
        coder.w.zbits.Length == 300_000 * level
      modifies this`started, coder.w, coder.w.zbits
      ensures AllWritten() && started && |coder.w.Bits()| <= 64
    {
      if blockNo <= 1 { WriteHeader(); }
    }

    method WriteHeader()
      requires AllWritten() && coder.w.numZ == 0 && !started && made == [] && coder.w.zbits.Length == 300_000 * level
      modifies this`started, coder.w, coder.w.zbits
      ensures AllWritten() && started && |coder.w.Bits()| <= 64
    {
      hide AreMade, SoFar, HeaderBits, Sent, InputBits, BitsOf, BytesBits, CompressedStream.Written;
      HeaderOnly(emitted, coder.w.Bits());
      coder.w.InitWrite();
      assert coder.w.zbits[..0] == [];
      HeaderTodo(coder.w.Bits());
      SendHeader(coder.w, level, HeaderBits(level));
      SentAll(coder.w.Bits(), HeaderBits(level));
      started := true;
    }

    lemma {:induction false} HeaderOnly(e: seq<int>, bits: seq<bool>)
      requires 1 <= level <= 9 && BytesBits(e) + bits == SoFar(false, [], level)
      ensures AreMade([], level) && BytesBits(e) + HeaderBits(level) == SoFar(true, [], level)
    {
      assert |BytesBits(e)| == 0;
      assert HeaderBits(level) + [] == HeaderBits(level);
    }

    lemma {:induction false} HeaderTodo(bits: seq<bool>)
      requires 1 <= level <= 9 && bits == BytesBits([])
      ensures Sent(bits, HeaderBits(level), HeaderBits(level)) && |HeaderBits(level)| == 32
    {
      assert bits == [];
      assert [] + HeaderBits(level) == HeaderBits(level);
      hide HeaderBits;
    }

    /** The block the collector holds, as the block coder wants it. */
    lemma {:induction false} BlockHeld()
      requires s.Valid() && s.nblock > 0
      ensures s.blockCRC < WORD && |Encode(s.runs)| == s.nblock <= 4 * s.block.Length && AreRuns(s.runs)
      ensures BytesOf(s.block[..], s.nblock) == Encode(s.runs) && s.inUse[..] == InUse(Encode(s.runs))
      ensures Finalised(s.blockCRC) == BlockCrc(Plain(s.runs))
    {
      var b: Block := Encode(s.runs);
      assert forall i | 0 <= i < s.nblock :: ByteAt(s.block[..], i) == b[i - 0];
      forall v | 0 <= v < 256
        ensures s.inUse[v] == InUse(b)[v]
      {
        var c: Byte := v as Byte; assert s.inUse[c] <==> c in b;
      }
    }

    /** The block itself, if it is not empty. */
    method WriteMade()
      requires Linked() && AllWritten() && started && s.Valid() && s.nblock <= s.nblockMAX + 9 && |coder.w.Bits()| <= 64
      requires combinedCRC == CombinedCrc(made, level)
      modifies this`made, this`combinedCRC, coder.w, coder.w.zbits
      modifies coder.arr1, coder.arr2, coder.ftab, coder.unseqToSeq, coder.mtfFreq, coder.selector, coder.selectorMtf,
        coder.len, coder.code, coder.rfreq
      ensures Linked() && AllWritten() && Covered(made) == old(Covered(made)) + Plain(s.runs)
      ensures RunsOf(made) == old(RunsOf(made)) + if s.runs == [] then [] else [s.runs]
      ensures combinedCRC == CombinedCrc(made, level) < WORD && |coder.w.Bits()| <= 64 + BLOCK_BITS * level
    {
      hide AreMade, SoFar, BytesBits, Encode, Plain, Covered, CombinedCrc, Collector.Valid, Writer.Bits, Writer.Valid,
        Coder.Apart, IsTable, RunsOf, Linked;
      BlockEmpty();
      if s.nblock == 0 {
        EmptyBlock();
      } else {
        WriteFull();
      }
    }

    method WriteFull()
      requires Linked() && AllWritten() && started && s.Valid() && 0 < s.nblock <= s.nblockMAX + 9 &&
        |coder.w.Bits()| <= 64
      requires combinedCRC == CombinedCrc(made, level)
      modifies this`made, this`combinedCRC, coder.w, coder.w.zbits
      modifies coder.arr1, coder.arr2, coder.ftab, coder.unseqToSeq, coder.mtfFreq, coder.selector, coder.selectorMtf,
        coder.len, coder.code, coder.rfreq
      ensures Linked() && AllWritten() && Covered(made) == old(Covered(made)) + Plain(s.runs)
      ensures RunsOf(made) == old(RunsOf(made)) + if s.runs == [] then [] else [s.runs]
      ensures combinedCRC == CombinedCrc(made, level) < WORD && |coder.w.Bits()| <= 64 + BLOCK_BITS * level
    {
      hide AreMade, SoFar, InputBits, BytesBits, CompressedStream.Written, Encode, Plain, Covered, CombinedCrc, IsPiece,
        PieceBits, IsMade, Collector.Valid, InUse, AreRuns, Writer.Bits, Writer.Valid, Coder.Apart, IsTable, CrcFrom,
        BytesOf, RunsOf;
      BlockHeld();
      BlockEmpty();
      ghost var b: Block := Encode(s.runs);
      ghost var ms := made;
      var crc := Finalised(s.blockCRC);
      ghost var bits := coder.w.Bits();
      ghost var x := coder.WriteBlock(s.nblock, crc, b);
      combinedCRC := Combine(combinedCRC, crc);
      ghost var m := Made(x, s.runs);
      MadeNext(ms, m, bits);
      OneMade(ms, m);
      made := made + [m];
    }

    lemma {:induction false} OneMade(ms: seq<Made>, m: Made)
      ensures RunsOf(ms + [m]) == RunsOf(ms) + [m.runs]
    {
    }

    lemma {:induction false} BlockEmpty()
      requires s.Valid()
      ensures s.nblock >= 0 && (s.nblock == 0 <==> s.runs == [])
    {
    }

    lemma {:induction false} EmptyBlock()
      requires s.Valid() && s.nblock == 0
      ensures Plain(s.runs) == []
    {
      assert Encode(s.runs) == [];
    }

    lemma {:induction false} MadeNext(ms: seq<Made>, m: Made, bits: seq<bool>)
      requires 1 <= level <= 9 && AreMade(ms, level) && IsPiece(m.piece, level) && AreRuns(m.runs) &&
        m.piece.b == Encode(m.runs) && m.piece.crc == BlockCrc(Plain(m.runs))
      requires BytesBits(emitted) + bits == SoFar(true, ms, level)
      ensures AreMade(ms + [m], level)
      ensures BytesBits(emitted) + (bits + (InputBits(BLOCK_MAGIC) + PieceBits(m.piece, level))) ==
        SoFar(true, ms + [m], level)
      ensures Covered(ms + [m]) == Covered(ms) + Plain(m.runs) && m.piece.crc < WORD
      ensures CombinedCrc(ms + [m], level) == Combine(CombinedCrc(ms, level), m.piece.crc)
      ensures |InputBits(BLOCK_MAGIC) + PieceBits(m.piece, level)| <= BLOCK_BITS * level
    {
      assert IsMade(m, level) && m.piece.crc < WORD;
      PieceLength(m.piece, level);
      hide AreMade, SoFar, InputBits, BytesBits, Encode, Plain, Covered, CombinedCrc, IsPiece, PieceBits, IsMade,
        AreRuns, BlockCrc;
      MadeMore(ms, m, level);
      CoveredMore(ms, m, level);
      Assoc(BytesBits(emitted), bits, InputBits(BLOCK_MAGIC) + PieceBits(m.piece, level));
    }

    /** Behind the last block: the trailer, and the bits left in the buffer. */
    method CloseStream()
      requires AllWritten() && started && combinedCRC == CombinedCrc(made, level) < WORD
      requires |coder.w.Bits()| <= 64 + BLOCK_BITS * level && coder.w.zbits.Length == 300_000 * level
      modifies this`pad, coder.w, coder.w.zbits
      ensures 0 <= coder.w.numZ <= coder.w.zbits.Length &&
        (forall i | 0 <= i < coder.w.numZ :: 0 <= coder.w.zbits[i] < 256)
      ensures pad < 8 && ArePieces(Pieces(made), level) && coder.w.numZ > 0
      ensures BytesBits(emitted) + BytesBits(coder.w.zbits[..coder.w.numZ]) ==
        StreamBits(Pieces(made), level, CombinedCrc(made, level)) + Zeros(pad)
    {
      hide AreMade, SoFar, InputBits, BitsOf, BytesBits, CompressedStream.Written, CombinedCrc, ArePieces, Pieces,
        StreamBits, Sent;
      CompleteStream(made, level);
      ghost var bits, trailer := coder.w.Bits(), TrailerBits(combinedCRC);
      TrailerLength(combinedCRC);
      pad := SendTrailer(coder.w, combinedCRC, bits + trailer);
      TrailerAdded(BytesBits(emitted), bits, trailer, Zeros(pad));
    }

    lemma {:induction false} TrailerLength(crc: nat)
      ensures |TrailerBits(crc)| == 80 && TrailerBits(crc) == InputBits(END_MAGIC) + BitsOf(crc, 32)
      ensures forall bits :: Sent(bits, InputBits(END_MAGIC) + BitsOf(crc, 32), bits + TrailerBits(crc))
    {
    }

    lemma {:induction false} TrailerAdded(e: seq<bool>, b: seq<bool>, t: seq<bool>, z: seq<bool>)
      ensures e + ((b + t) + z) == ((e + b) + t) + z
    {
    }

    /** With no bytes waiting, what is kept is all that is written. */
    lemma {:induction false} KeptIsWritten()
      requires BitsKept() && !closed && coder.w.numZ == 0 && state_out_pos == 0
      ensures AllWritten() && |coder.w.Bits()| <= 64
    {
      hide AreMade, SoFar, Writer.Valid;
      assert coder.w.zbits[0..0] == [] && coder.w.zbits[..0] == [] && Bytes() == emitted;
      assert coder.w.Bits() == [] + coder.w.LiveBits() == coder.w.LiveBits();
    }

    lemma {:induction false} WrittenIsKept()
      requires AllWritten() && state_out_pos == 0 && !closed
      ensures BitsKept()
    {
      hide AreMade, SoFar;
      var z := coder.w.zbits[..coder.w.numZ];
      assert coder.w.zbits[0..coder.w.numZ] == z && forall i | 0 <= i < |z| :: 0 <= z[i];
      BytesBitsConcat(emitted, z);
      Assoc(BytesBits(emitted), BytesBits(z), coder.w.LiveBits());
    }

    lemma {:induction false} ClosedIsKept()
      requires closed && state_out_pos == 0 && 0 <= coder.w.numZ <= coder.w.zbits.Length && 1 <= level <= 9 &&
        AreMade(made, level)
      requires (forall i | 0 <= i < coder.w.numZ :: 0 <= coder.w.zbits[i] < 256) && pad < 8 &&
        ArePieces(Pieces(made), level)
      requires BytesBits(emitted) + BytesBits(coder.w.zbits[..coder.w.numZ]) ==
        StreamBits(Pieces(made), level, CombinedCrc(made, level)) + Zeros(pad)
      ensures BitsKept()
    {
      hide AreMade, StreamBits, Pieces, ArePieces, CombinedCrc;
      var z := coder.w.zbits[..coder.w.numZ];
      assert coder.w.zbits[0..coder.w.numZ] == z && forall i | 0 <= i < |z| :: 0 <= z[i];
      BytesBitsConcat(emitted, z);
    }

    /** BZ2_compressBlock: the header of the stream, the block, the trailer, as far as they are due. */
    method CompressBlock(last: bool)
      requires Linked() && Accounts() && BitsKept() && !closed && mode != Idle && s.Valid() &&
        s.nblock <= s.nblockMAX + 9
      requires coder.w.numZ == 0 && state_out_pos == 0 && (started <==> blockNo > 1) &&
        consumed == Covered(made) + s.Taken()
      requires if last
        then mode == Finishing && avail_in_expect == 0 && NonePending() else NonePending() ==> mode == Flushing
      requires Divides() && (ended ==> mode != Running && avail_in_expect == 0 && NonePending()) &&
        (NonePending() ==> ended)
      modifies this`started, this`made, this`combinedCRC, this`closed, this`pad, this`state, coder.w, coder.w.zbits
      modifies coder.arr1, coder.arr2, coder.ftab, coder.unseqToSeq, coder.mtfFreq, coder.selector, coder.selectorMtf,
        coder.len, coder.code, coder.rfreq
      ensures Valid() && state == Output && closed == last && (last ==> 0 == state_out_pos < coder.w.numZ)
    {
      hide Linked, Writer.Valid, Writer.Bits, AreMade, Covered, CombinedCrc, AllWritten, BitsKept, StreamBits, Pieces,
        ArePieces, Collector.Resting, Folded, Cut;
      WriteBoth();
      if last { FinishOutput(); } else { StartOutput(); }
    }

    method StartOutput()
      requires Linked() && Accounts() && AllWritten() && started && !closed && s.Resting() &&
        consumed == Covered(made) + s.PendingBytes()
      requires state_out_pos == 0 && mode != Idle && (NonePending() ==> mode == Flushing)
      requires Cuts([]) && (ended ==> mode != Running && avail_in_expect == 0 && NonePending()) &&
        (NonePending() ==> ended)
      modifies this`state
      ensures Valid() && state == Output && !closed
    {
      hide Linked, Writer.Valid, Writer.Bits, AreMade, Covered, CombinedCrc, AllWritten, BitsKept, Collector.Resting,
        Cuts;
      state := Output;
      WrittenIsKept();
    }

    method FinishOutput()
      requires Linked() && Accounts() && AllWritten() && started && !closed && s.Resting() &&
        consumed == Covered(made) + s.PendingBytes()
      requires state_out_pos == 0 && mode == Finishing && avail_in_expect == 0 && NonePending() && Cuts([]) && ended
      requires |coder.w.Bits()| <= 64 + BLOCK_BITS * level && coder.w.zbits.Length == 300_000 * level
      modifies this`closed, this`pad, this`state, coder.w, coder.w.zbits
      ensures Valid() && state == Output && closed && 0 == state_out_pos < coder.w.numZ
    {
      hide Linked, Writer.Valid, Writer.Bits, AreMade, Covered, CombinedCrc, AllWritten, BitsKept, StreamBits, Pieces,
        ArePieces, Collector.Resting, Cuts;
      Separate();
      CloseStream();
      closed := true;
      state := Output;
      ClosedIsKept();
    }

    /** What is due of the stream header and the block. */
    method WriteBoth()
      requires Linked() && Accounts() && BitsKept() && !closed && s.Valid() && s.nblock <= s.nblockMAX + 9
      requires coder.w.numZ == 0 && state_out_pos == 0 && (started <==> blockNo > 1) &&
        consumed == Covered(made) + s.Taken()
      modifies this`started, this`made, this`combinedCRC, coder.w, coder.w.zbits
      modifies coder.arr1, coder.arr2, coder.ftab, coder.unseqToSeq, coder.mtfFreq, coder.selector, coder.selectorMtf,
        coder.len, coder.code, coder.rfreq
      ensures Linked() && Accounts() && AllWritten() && started && s.Resting() &&
        consumed == Covered(made) + s.PendingBytes()
      ensures |coder.w.Bits()| <= 64 + BLOCK_BITS * level && coder.w.zbits.Length == 300_000 * level
      ensures RunsOf(made) == old(RunsOf(made)) + if s.runs == [] then [] else [s.runs]
    {
      hide Coder.Apart, IsTable, Writer.Valid, Writer.Bits, AreMade, Covered, CombinedCrc, AllWritten, BitsKept, Plain,
        Gathered, RunsOf;
      Separate();
      KeptIsWritten();
      StartStream();
      ghost var before := Covered(made);
      WriteMade();
      MadeWritten();
      TakenWritten(before);
    }

    lemma {:induction false} MadeWritten()
      requires AllWritten()
      ensures AreMade(made, level)
    {
    }

    lemma {:induction false} Separate()
      requires Linked()
      ensures coder.ftab != coder.w.zbits && s.block != coder.w.zbits && s.block != coder.ftab &&
        s.nblockMAX + 19 <= BLOCK_UNIT * level
      ensures 1 <= level <= 9
    {
      coder.AllDifferent();
      assert coder.Own()[1] == coder.arr2 && coder.Own()[2] == coder.ftab;
    }

    lemma {:induction false} TakenWritten(before: seq<Byte>)
      requires s.Pending()
      ensures before + s.Taken() == (before + Plain(s.runs)) + s.PendingBytes()
    {
    }

    // ---- handle_compress

    /** isempty_RL */
    predicate IsEmptyRL()
      reads s
    {
      !(s.state_in_ch < 256 && s.state_in_len > 0)
    }

    /** prepare_new_block */
    method PrepareNewBlock()
      requires Valid() && state == Output && !closed && state_out_pos == coder.w.numZ
      modifies this`blockNo, this`state_out_pos, this`state, coder.w`numZ, s`nblock, s`blockCRC, s`runs, s.inUse
      ensures Valid() && s.Pending() && state == Input && !closed && NonePending() == old(NonePending())
    {
      hide Coder.Apart, IsTable, AreMade, Covered, CombinedCrc, SoFar, Writer.Valid, Collector.Valid, Cuts, BitsKept;
      s.PrepareNewBlock();
      Rewind();
      blockNo := blockNo + 1;
      state := Input;
    }

    /** All of zbits has been handed over: it is used anew. */
    method Rewind()
      requires BitsKept() && !closed && state_out_pos == coder.w.numZ
      modifies this`state_out_pos, coder.w`numZ
      ensures BitsKept() && state_out_pos == coder.w.numZ == 0
    {
      hide AreMade, SoFar, Writer.Valid, StreamBits, CombinedCrc, Pieces, ArePieces;
      ghost var bytes := Bytes();
      coder.w.Rewind();
      state_out_pos := 0;
      assert bytes == emitted + [] == Bytes();
    }

    /** The part of the loop that hands over output. */
    method OutputPart() returns (progress: bool, stop: bool)
      requires Valid() && state == Output && mode != Idle
      modifies this`blockNo, this`state_out_pos, this`state, this`avail_out, this`emitted, coder.w`numZ, s`nblock,
        s`blockCRC, s`runs, s.inUse
      ensures Valid() && Handed(old(emitted), old(avail_out), emitted, avail_out, progress) &&
        NonePending() == old(NonePending())
      ensures stop ==> Drained() || (state == Input && mode == Flushing && avail_in_expect == 0 && NonePending())
      ensures !stop ==> state == Input && !ended
      ensures stop && mode == Flushing && state == Input ==> ended
      ensures mode != Running && avail_in_expect == 0 && NonePending() ==> stop
      ensures progress <==> old(Waiting()) && old(avail_out) > 0
      ensures (Waiting() ==> avail_out == 0) && (old(Waiting()) && old(avail_out) == 0 ==> stop && Waiting())
    {
      hide AreMade, Covered, CombinedCrc, SoFar, AreStream, Linked, Collector.Valid, Cuts;
      progress := CopyOutput();
      stop := true;
      if state_out_pos < coder.w.numZ { return; }
      EmptyIs();
      if mode == Finishing && avail_in_expect == 0 && IsEmptyRL() { return; }
      PrepareNewBlock();
      EmptyIs();
      stop := mode == Flushing && avail_in_expect == 0 && IsEmptyRL();
    }

    lemma {:induction false} EmptyIs()
      requires s.Pending()
      ensures IsEmptyRL() <==> NonePending()
    {
    }

    /** There is output the caller has had no room for. */
    ghost predicate Waiting()
      reads this, coder.w
    {
      state == Output && state_out_pos < coder.w.numZ
    }

    /** The compressor takes input, or output waits. */
    ghost predicate Rests()
      reads this, coder.w
    {
      mode != Idle && state == Output ==> Waiting()
    }

    /** Between two calls: so it is, and no flush has ended. */
    ghost predicate AtRest()
      reads this, coder.w
    {
      Rests() && (state == Input ==> !ended)
    }

    /** Output waits, or there is no more to come. */
    ghost predicate Drained()
      reads this, s, coder.w
    {
      Waiting() || (state == Output && (mode == Finishing && avail_in_expect == 0 && NonePending()))
    }

    /** Nothing more can be done in this call. */
    ghost predicate Halted()
      reads this, s, coder.w
    {
      Drained() ||
        (state == Input && (mode == Running ==> next_in == []) &&
        (mode != Running ==> mode == Flushing && avail_in_expect == 0 && NonePending() && ended))
    }

    /** The part of the loop that takes input and compresses the block once it is full, flushed or finished. */
    method InputPart() returns (progress: bool, stop: bool)
      requires Valid() && state == Input && !ended
      modifies this`next_in, this`avail_in_expect, this`consumed, this`started, this`made, this`combinedCRC,
        this`closed, this`pad, this`state, this`steps, this`ended
      modifies s`nblock, s`blockCRC, s`runs, s`state_in_ch, s`state_in_len, s.block, s.inUse, coder.w, coder.w.zbits
      modifies coder.arr1, coder.ftab, coder.unseqToSeq, coder.mtfFreq, coder.selector, coder.selectorMtf, coder.len,
        coder.code, coder.rfreq
      ensures Valid() && Took(old(consumed), old(next_in), consumed, next_in, progress)
      ensures Logged(old(steps), old(consumed), steps, consumed, ended, progress)
      ensures ended <==> mode != Running && avail_in_expect == 0
      ensures stop ==> state == Input && next_in == [] && mode == Running
      ensures !stop ==> state == Output && (progress || (mode != Running && avail_in_expect == 0 && NonePending()))
      ensures progress <==> old(next_in) != []
      ensures old(next_in) == [] && mode == Running ==> stop
      ensures old(next_in) == [] && mode == Finishing ==> Waiting()
    {
      hide AreMade, Covered, CombinedCrc, SoFar, AreStream, Gathered, Collector.Taken, Coder.Apart, IsTable, Cuts,
        Uncut,
        Logged, RunsOf;
      Separate();
      ghost var c0, t0, s0 := consumed, s.Taken(), steps;
      progress := CopyInput();
      AllTaken(Covered(made), t0, c0, consumed);
      ghost var s1 := steps;
      stop := CompressFull(progress);
      EndLogged(s0, c0, s1, consumed, ended, progress);
    }

    lemma {:induction false} Announced()
      requires Accounts()
      ensures mode == Flushing || mode == Finishing ==> avail_in_expect == |next_in|
    {
    }

    /** flush_RL, for a flush or the finish. */
    method EndBlock(ghost took: bool)
      requires s.Valid() && s.nblock <= s.nblockMAX + 4 && (if took then Uncut() else Cuts(s.runs))
      modifies this`steps, this`ended
      modifies s`nblock, s`blockCRC, s`runs, s`state_in_ch, s`state_in_len, s.block, s.inUse
      ensures s.Valid() && s.nblock <= s.nblockMAX + 9 && NonePending() && s.Taken() == old(s.Taken())
      ensures ended && steps == old(steps) + [Close(took)] && Divides()
    {
      hide Gathered, Cuts, Uncut, Divides, RunsOf, Folded, Most;
      HowItEnds(took);
      s.FlushRL();
      FlushedTaken();
      steps, ended := steps + [Close(took)], true;
      EndsSo();
    }

    /**
     * The block is compressed if it is full, or all there is to flush or finish; otherwise the loop stops when the
     * input is used up.
     */
    method CompressFull(ghost took: bool) returns (stop: bool)
      requires Linked() && Accounts() && BitsKept() && s.Valid() && s.nblock <= s.nblockMAX + 4 && coder.w.numZ == 0 &&
        state_out_pos == 0
      requires !closed && (started <==> blockNo > 1) && consumed == Covered(made) + s.Taken() && mode != Idle &&
        state == Input
      requires (s.nblock >= s.nblockMAX || next_in == []) && (s.nblock >= s.nblockMAX ==> !NonePending()) &&
        (NonePending() ==> s.runs == [])
      requires !ended && if took then Uncut() else Cuts(s.runs) && s.nblock < s.nblockMAX
      modifies this`started, this`made, this`combinedCRC, this`closed, this`pad, this`state, this`steps, this`ended
      modifies s`nblock, s`blockCRC, s`runs, s`state_in_ch, s`state_in_len, s.block, s.inUse, coder.w, coder.w.zbits
      modifies coder.arr1, coder.ftab, coder.unseqToSeq, coder.mtfFreq, coder.selector, coder.selectorMtf, coder.len,
        coder.code, coder.rfreq
      ensures Valid() && steps == old(steps) + Closing(ended, took)
      ensures ended <==> mode != Running && avail_in_expect == 0
      ensures if stop then state == Input && next_in == [] && mode == Running else state == Output
      ensures mode != Running && avail_in_expect == 0 ==> NonePending()
      ensures old(s.nblock) < s.nblockMAX && mode == Running ==> stop
      ensures avail_in_expect == 0 && mode == Finishing ==> Waiting()
    {
      hide AreMade, Covered, CombinedCrc, SoFar, AreStream, Gathered, Collector.Taken, Coder.Apart, IsTable, Cuts,
        Uncut,
        Divides, RunsOf, Folded, Most, Accounts, BitsKept;
      Separate();
      Announced();
      stop := false;
      if mode != Running && avail_in_expect == 0 {
        CompressLast(took);
      } else if s.nblock >= s.nblockMAX {
        NowFull();
        CompressBlock(false);
      } else if |next_in| == 0 {
        if took { NotYetFull(); }
        stop := true;
      }
    }

    /** The block that a flush or the finish ends. */
    method CompressLast(ghost took: bool)
      requires Linked() && Accounts() && BitsKept() && s.Valid() && s.nblock <= s.nblockMAX + 4 && coder.w.numZ == 0 &&
        state_out_pos == 0
      requires !closed && (started <==> blockNo > 1) && consumed == Covered(made) + s.Taken() &&
        (mode == Flushing || mode == Finishing) && avail_in_expect == 0
      requires if took then Uncut() else Cuts(s.runs)
      modifies this`started, this`made, this`combinedCRC, this`closed, this`pad, this`state, this`steps, this`ended
      modifies s`nblock, s`blockCRC, s`runs, s`state_in_ch, s`state_in_len, s.block, s.inUse, coder.w, coder.w.zbits
      modifies coder.arr1, coder.ftab, coder.unseqToSeq, coder.mtfFreq, coder.selector, coder.selectorMtf, coder.len,
        coder.code, coder.rfreq
      ensures Valid() && steps == old(steps) + [Close(took)] && ended && state == Output && NonePending()
      ensures mode == Finishing ==> Waiting()
    {
      hide AreMade, Covered, CombinedCrc, SoFar, AreStream, Gathered, Collector.Taken, Coder.Apart, IsTable, Cuts,
        Uncut, Divides, RunsOf, Folded, Most, Accounts, BitsKept;
      Separate();
      EndBlock(took);
      CompressBlock(mode == Finishing);
    }

    /** A flush ends the block with the runs it has and the one behind them. */
    lemma {:induction false} HowItEnds(took: bool)
      requires if took then Uncut() else Cuts(s.runs)
      ensures var all := s.runs + s.LastRun();
        Folded(steps + [Close(took)], Most()) ==
          Cutting(RunsOf(made) + (if all == [] then [] else [all]), [], [])
    {
      FoldedMore(steps, Close(took), Most());
    }

    lemma {:induction false} EndsSo()
      requires Folded(steps, Most()) == Cutting(RunsOf(made) + (if s.runs == [] then [] else [s.runs]), [], [])
      requires NonePending() && s.nblockMAX >= 1
      ensures Divides()
    {
      assert Length([]) == 0;
    }

    lemma {:induction false} AllTaken(c: seq<Byte>, t0: seq<Byte>, c0: seq<Byte>, c1: seq<Byte>)
      requires c0 == c + t0 && c0 <= c1
      ensures c + (t0 + c1[|c0|..]) == c1
    {
    }

    lemma {:induction false} FlushedTaken()
      requires s.Pending() && s.state_in_ch == NO_CHAR
      ensures s.Taken() == Plain(s.runs)
    {
    }

    ghost function Now(): Snapshot
      reads this, coder.w
    {
      Snapshot(Waiting(), state == Input, |next_in|, avail_out)
    }

    /** Only output is left to hand over. */
    ghost predicate Ending()
      reads this, s
    {
      mode != Running && avail_in_expect == 0 && NonePending() && state == Output
    }

    /** One turn of handle_compress's loop. */
    method Turn() returns (took: bool, out: bool, stop: bool)
      requires Valid() && mode != Idle && (state == Input ==> !ended)
      modifies this`blockNo, this`state_out_pos, this`state, this`avail_out, this`emitted
      modifies this`next_in, this`avail_in_expect, this`consumed, this`started, this`made, this`combinedCRC,
        this`closed, this`pad, this`steps, this`ended
      modifies s`nblock, s`blockCRC, s`runs, s`state_in_ch, s`state_in_len, s.block, s.inUse, coder.w, coder.w.zbits
      modifies coder.arr1, coder.ftab, coder.unseqToSeq, coder.mtfFreq, coder.selector, coder.selectorMtf, coder.len,
        coder.code, coder.rfreq
      ensures Valid() && Took(old(consumed), old(next_in), consumed, next_in, took)
      ensures Handed(old(emitted), old(avail_out), emitted, avail_out, out)
      ensures stop ==> Halted()
      ensures !stop ==> took || (Ending() && !old(Ending()))
      ensures old(ended) ==> ended
      ensures Logged(old(steps), old(consumed), steps, consumed, ended && !old(ended), took)
      ensures took && mode != Running && next_in == [] ==> ended
      ensures !stop && state == Input ==> !ended
      ensures Stepped(mode, old(Now()), Now(), took, out, stop)
    {
      hide Valid, AreMade, IsTable, Coder.Apart, Logged, Took, Handed, Stepped, Now, Waiting, Halted, Ending,
        NonePending;
      took, out, stop := false, false, false;
      NoneLogged(steps, consumed);
      HandedNone(emitted, avail_out);
      TookNone(consumed, next_in);
      ghost var a := Now();
      if state == Input { InPlace(); }
      if state == Output {
        out, stop := TurnOut();
        if stop { return; }
      }
      ghost var b := Now();
      took, stop := TurnIn();
      SteppedBoth(mode, a, b, Now(), took, out, stop);
    }

    lemma {:induction false} InPlace()
      requires Valid() && state == Input
      ensures Handing(Now(), Now(), false) && !Ending()
    {
      RoomLeft();
      hide Valid;
    }

    /** The first part of a turn. */
    method TurnOut() returns (out: bool, stop: bool)
      requires Valid() && state == Output && mode != Idle
      modifies this`blockNo, this`state_out_pos, this`state, this`avail_out, this`emitted, coder.w`numZ, s`nblock,
        s`blockCRC, s`runs, s.inUse
      ensures Valid() && Handed(old(emitted), old(avail_out), emitted, avail_out, out)
      ensures stop ==> Halted() && Stepped(mode, old(Now()), Now(), false, out, true)
      ensures !stop ==> state == Input && !ended && !old(Ending()) && Handing(old(Now()), Now(), out)
    {
      hide Valid, AreMade, IsTable, Coder.Apart, Handed;
      TookNone(consumed, next_in);
      Expected();
      out, stop := OutputPart();
      Expected();
      RoomLeft();
      Counts(consumed, next_in, false, old(emitted), old(avail_out), out);
    }

    /** The second part of a turn. */
    method TurnIn() returns (took: bool, stop: bool)
      requires Valid() && mode != Idle && state == Input && !ended
      modifies this`next_in, this`avail_in_expect, this`consumed, this`started, this`made, this`combinedCRC,
        this`closed, this`pad, this`state, this`steps, this`ended
      modifies s`nblock, s`blockCRC, s`runs, s`state_in_ch, s`state_in_len, s.block, s.inUse, coder.w, coder.w.zbits
      modifies coder.arr1, coder.ftab, coder.unseqToSeq, coder.mtfFreq, coder.selector, coder.selectorMtf, coder.len,
        coder.code, coder.rfreq
      ensures Valid() && Took(old(consumed), old(next_in), consumed, next_in, took)
      ensures stop ==> Halted()
      ensures !stop ==> took || Ending()
      ensures Logged(old(steps), old(consumed), steps, consumed, ended, took)
      ensures took && mode != Running && next_in == [] ==> ended
      ensures !stop ==> state == Output
      ensures Stepped(mode, old(Now()), Now(), took, false, stop)
    {
      hide Valid, AreMade, IsTable, Coder.Apart, Logged, Took;
      took, stop := InputPart();
      RoomLeft();
      Expected();
      HandedNone(emitted, avail_out);
      Counts(old(consumed), old(next_in), took, emitted, avail_out, false);
    }

    lemma {:induction false} RoomFilled(a: Snapshot, took: bool, out: bool, stop: bool)
      requires Stepped(mode, a, Now(), took, out, stop)
      ensures stop && Waiting() ==> avail_out == 0
    {
    }

    lemma {:induction false} Counts(c0: seq<Byte>, n0: seq<Byte>, took: bool, e0: seq<int>, room: int, out: bool)
      requires Took(c0, n0, consumed, next_in, took) && Handed(e0, room, emitted, avail_out, out)
      ensures |next_in| <= |n0| && (took <==> |next_in| < |n0|) && avail_out <= room && (out <==> avail_out < room)
    {
    }

    /** What is still announced is what is offered. */
    lemma {:induction false} Expected()
      requires Valid()
      ensures mode == Flushing || mode == Finishing ==> avail_in_expect == |next_in|
      ensures ended ==> mode != Running && avail_in_expect == 0
      ensures (state == Output && NonePending() ==> ended) && (ended ==> NonePending())
    {
    }

    lemma {:induction false} DrainedRests()
      requires Halted()
      ensures mode != Finishing ==> Rests()
    {
    }

    lemma {:induction false} RestingNow()
      requires Rests() && mode != Idle
      ensures Now().waiting || Now().taking
    {
    }

    /** handle_compress: alternately hands over output and takes input, until it can do neither or is done. */
    method HandleCompress() returns (progress: bool)
      requires Valid() && mode != Idle && (state == Input ==> !ended)
      modifies this`blockNo, this`state_out_pos, this`state, this`avail_out, this`emitted
      modifies this`next_in, this`avail_in_expect, this`consumed, this`started, this`made, this`combinedCRC,
        this`closed, this`pad, this`steps, this`ended
      modifies s`nblock, s`blockCRC, s`runs, s`state_in_ch, s`state_in_len, s.block, s.inUse, coder.w, coder.w.zbits
      modifies coder.arr1, coder.ftab, coder.unseqToSeq, coder.mtfFreq, coder.selector, coder.selectorMtf, coder.len,
        coder.code, coder.rfreq
      ensures Valid() && consumed + next_in == old(consumed) + old(next_in) && old(consumed) <= consumed
      ensures old(emitted) <= emitted && |emitted| + avail_out == |old(emitted)| + old(avail_out)
      ensures progress <==> |next_in| < |old(next_in)| || |emitted| > |old(emitted)|
      ensures 0 <= avail_out
      ensures Halted()
      ensures Logged(old(steps), old(consumed), steps, consumed, ended && !old(ended), old(next_in) != [])
      ensures (old(ended) ==> ended) && (ended ==> next_in == [])
      ensures mode != Running && old(next_in) != [] && next_in == [] ==> ended
      ensures (Waiting() ==> avail_out == 0) && (mode != Finishing ==> Rests())
      ensures old(Rests()) ==> Moved(mode, old(Now()), progress) && (mode == Finishing && !progress ==> Now().waiting)
    {
      hide Valid, AreMade, IsTable, Coder.Apart, Stepped, Turned, Moved, Now, Waiting, Rests, Drained, Ending,
        NonePending, Logged, Halted, Course, Took, Handed;
      var progress_in, progress_out;
      ghost var c0, n0, e0, room, s0, ended0 := consumed, next_in, emitted, avail_out, steps, ended;
      ghost var a, rested := Now(), Rests();
      if rested { RestingNow(); }
      progress_in, progress_out := TurnAll(rested);
      progress := progress_in || progress_out;
      CourseEnds(mode, s0, c0, n0, ended0, steps, consumed, next_in, ended);
      HandedMeans(e0, room, emitted, avail_out, progress_out);
      RoomLeft();
      DrainedRests();
      if rested { TurnedOut(mode, a, Now(), progress_in, progress_out); }
    }

    /** The loop. */
    method TurnAll(ghost rested: bool) returns (progress_in: bool, progress_out: bool)
      requires Valid() && mode != Idle && (state == Input ==> !ended) && (rested ==> Now().waiting || Now().taking)
      modifies this`blockNo, this`state_out_pos, this`state, this`avail_out, this`emitted
      modifies this`next_in, this`avail_in_expect, this`consumed, this`started, this`made, this`combinedCRC,
        this`closed, this`pad, this`steps, this`ended
      modifies s`nblock, s`blockCRC, s`runs, s`state_in_ch, s`state_in_len, s.block, s.inUse, coder.w, coder.w.zbits
      modifies coder.arr1, coder.ftab, coder.unseqToSeq, coder.mtfFreq, coder.selector, coder.selectorMtf, coder.len,
        coder.code, coder.rfreq
      ensures Valid() && Halted() && (Waiting() ==> avail_out == 0)
      ensures Course(mode, old(steps), old(consumed), old(next_in), old(ended), steps, consumed, next_in, ended)
      ensures |next_in| <= |old(next_in)| && (progress_in <==> |next_in| < |old(next_in)|)
      ensures Handed(old(emitted), old(avail_out), emitted, avail_out, progress_out)
      ensures rested ==> Turned(mode, old(Now()), Now(), progress_in, progress_out, true)
    {
      hide Valid, AreMade, IsTable, Coder.Apart, Stepped, Turned, Moved, Now, Waiting, Rests, Drained, Ending,
        NonePending, Logged, Halted, Course, Took, Handed;
      progress_in, progress_out := false, false;
      ghost var c0, n0, e0, room, s0, ended0 := consumed, next_in, emitted, avail_out, steps, ended;
      ghost var first, a := true, Now();
      Expected();
      CourseBegins(mode, s0, c0, n0, ended0);
      HandedNone(emitted, avail_out);
      var stop := false;
      while !stop
        invariant Valid() && Course(mode, s0, c0, n0, ended0, steps, consumed, next_in, ended)
        invariant |next_in| <= |n0| && (progress_in <==> |next_in| < |n0|) && (!stop && state == Input ==> !ended)
        invariant Handed(e0, room, emitted, avail_out, progress_out)
        invariant stop ==> Halted() && (Waiting() ==> avail_out == 0)
        invariant first ==> Now() == a && !stop && !progress_in && !progress_out
        invariant !first && rested ==> Turned(mode, a, Now(), progress_in, progress_out, stop)
        decreases !stop, |next_in|, if Ending() then 0 else 1
      {
        var took, out;
        ghost var c, in0, out0 := Now(), progress_in, progress_out;
        ghost var c1, s1, n1, ended1, e1, room1 := consumed, steps, next_in, ended, emitted, avail_out;
        took, out, stop := Turn();
        Expected();
        RoomFilled(c, took, out, stop);
        TookLess(c1, n1, consumed, next_in, took);
        HandedOn(e0, room, e1, room1, emitted, avail_out, progress_out, out);
        CourseOn(mode, s0, c0, n0, ended0, s1, c1, n1, ended1, steps, consumed, next_in, ended, took);
        if rested { Turns(mode, a, c, Now(), in0, out0, first, took, out, stop); }
        progress_in := progress_in || took;
        progress_out := progress_out || out;
        first := false;
      }
    }

    lemma {:induction false} RoomLeft()
      requires Valid()
      ensures 0 <= avail_out
    {
    }

    // ---- one call

    /** The caller's buffers. */
    method Load(input: seq<Byte>, room: nat)
      requires Valid() && (mode == Flushing || mode == Finishing ==> avail_in_expect == |input|)
      modifies this`next_in, this`avail_out
      ensures Valid() && next_in == input && avail_out == room && Waiting() == old(Waiting()) &&
        Rests() == old(Rests())
      ensures Now() == Snapshot(old(Waiting()), state == Input, |input|, room)
    {
      hide Linked, AreMade, CombinedCrc, SoFar, AreStream, Collector.Valid, Collector.Taken, Collector.Resting, Covered,
        Cuts;
      next_in, avail_out := input, room;
    }

    /** A flush or the finish begins: the input now offered is all there will be until it ends. */
    method Switch(action: Action, input: seq<Byte>)
      requires Valid() && mode == Running && action != Action.Run
      modifies this`mode, this`avail_in_expect, this`next_in
      ensures Valid() && mode == (if action == Flush then Flushing else Finishing) && avail_in_expect == |input|
      ensures Waiting() == old(Waiting()) && AtRest() == old(AtRest())
    {
      hide Linked, AreMade, CombinedCrc, SoFar, AreStream, Collector.Valid, Collector.Taken, Collector.Resting, Covered,
        Cuts;
      mode := if action == Flush then Flushing else Finishing;
      avail_in_expect := |input|;
      next_in := input;
    }

    /** A flush is over. */
    method Resume()
      requires Valid() && mode == Flushing && state == Input && NonePending()
      modifies this`mode, this`ended
      ensures Valid() && mode == Running && s.runs == [] && coder.w.numZ == 0 && AtRest()
    {
      hide Linked, AreMade, CombinedCrc, SoFar, AreStream, Collector.Valid, Collector.Taken, Collector.Resting, Covered,
        Cuts;
      mode, ended := Running, false;
    }

    /** Everything is written and handed over: the stream of blocks that cover all input. */
    ghost predicate Complete()
      reads this
    {
      && EmittedBytes() && 1 <= level <= 9 && AreMade(made, level) && consumed == Covered(made) && pad < 8 &&
          ArePieces(Pieces(made), level)
      && BytesBits(emitted) == StreamBits(Pieces(made), level, CombinedCrc(made, level)) + Zeros(pad)
    }

    method End()
      requires Valid() && mode == Finishing && state == Output && avail_in_expect == 0 && NonePending() &&
        state_out_pos >= coder.w.numZ
      modifies this`mode
      ensures Valid() && mode == Idle && Complete()
    {
      hide Linked, AreMade, CombinedCrc, SoFar, ArePieces, Pieces, StreamBits, Collector.Valid, Collector.Taken,
        Covered;
      assert coder.w.zbits[state_out_pos..coder.w.numZ] == [] && Bytes() == emitted;
      mode := Idle;
    }

    lemma {:induction false} Used(c0: seq<Byte>, input: seq<Byte>) returns (taken: nat)
      requires c0 <= consumed && consumed + next_in == c0 + input
      ensures taken == |input| - |next_in| && consumed == c0 + input[..taken] && next_in == input[taken..]
    {
      taken := |input| - |next_in|;
      assert consumed == (consumed + next_in)[..|consumed|] == c0 + input[..taken];
      assert next_in == (consumed + next_in)[|consumed|..] == input[taken..];
    }

    /** A call that does not fit what has been begun. */
    ghost predicate Misused(action: Action, n: nat)
      reads this
    {
      || mode == Idle
      || (mode == Flushing && (action != Flush || avail_in_expect != n))
      || (mode == Finishing && (action != Finish || avail_in_expect != n))
    }

    /** A call to finish that can neither hand over output nor take input. */
    ghost predicate Stuck(action: Action, input: seq<Byte>, room: nat)
      reads this, coder.w
    {
      action == Finish && room == 0 && (Waiting() || input == [])
    }

    /**
     * BZ2_bzCompress: input is what the caller offers, room the size of its output buffer; taken bytes of the input are
     * used. While a flush or the finish is not over, the output buffer comes back full.
     */
    method BzCompress(action: Action, input: seq<Byte>, room: nat) returns (ret: Ret, ghost taken: nat)
      requires Valid() && AtRest()
      modifies this, s`nblock, s`blockCRC, s`runs, s`state_in_ch, s`state_in_len, s.block, s.inUse, coder.w,
        coder.w.zbits
      modifies coder.arr1, coder.ftab, coder.unseqToSeq, coder.mtfFreq, coder.selector, coder.selectorMtf, coder.len,
        coder.code, coder.rfreq
      ensures Valid() && taken <= |input| && consumed == old(consumed) + input[..taken]
      ensures old(emitted) <= emitted && |emitted| <= |old(emitted)| + room
      ensures steps == old(steps) + Takes(input[..taken]) + Closing(Closes(action, ret) && !old(ended), input != [])
      ensures old(ended) || (action != Action.Run && taken == |input| != 0) ==> Closes(action, ret)
      ensures old(mode) != Idle && ret != SequenceError && ended ==> taken == |input|
      ensures RunsOf(made) == Cut(Folded(steps, Most()), Most()).blocks
      ensures ret == StreamEnd ==> action == Finish && taken == |input| && Complete() && ended
      ensures AtRest() && (ret == StreamEnd <==> old(mode) != Idle && mode == Idle)
      ensures ret != SequenceError ==> next_in == input[taken..]
      ensures (ret == RunOk ==> mode == Running) && (ret == FlushOk ==> mode == Flushing) &&
        (ret == FinishOk ==> mode == Finishing)
      ensures ret == SequenceError || match action
        case Run => ret == RunOk || ret == ParamError
        case Flush => ret == RunOk || ret == FlushOk
        case Finish => ret == FinishOk || ret == StreamEnd
      ensures ret == FlushOk || ret == FinishOk ==> |emitted| == |old(emitted)| + room
      ensures ret == SequenceError <==> old(Misused(action, |input|)) || old(Stuck(action, input, room))
      ensures ret == ParamError <==>
        old(mode) == Running && action == Action.Run && if old(Waiting()) then room == 0 else input == []
    {
      hide Valid, Complete, Drained, Waiting, Now, Takes, Closing, RunsOf, Cut, Folded, Most, Logged;
      taken := 0;
      assert input[..0] == [] && old(consumed) + [] == old(consumed);
      BlocksNow();
      NoSteps(steps, input != []);
      if mode == Idle { return SequenceError, 0; }
      if mode == Running {
        if action == Action.Run {
          ret, taken := RunMore(input, room);
          return;
        }
        Switch(action, input);
      }
      if mode == Flushing {
        if action != Flush || avail_in_expect != |input| { return SequenceError, 0; }
        ret, taken := FlushMore(input, room);
      } else {
        if action != Finish || avail_in_expect != |input| { return SequenceError, 0; }
        ret, taken := FinishMore(input, room);
      }
    }

    /** By the end of the call a flush, or the finish, has ended the block. */
    ghost predicate Closes(action: Action, ret: Ret)
      reads this`ended
    {
      ended || (ret == RunOk && action == Flush)
    }

    lemma {:induction false} BlocksNow()
      requires Valid()
      ensures RunsOf(made) == Cut(Folded(steps, Most()), Most()).blocks
      ensures mode == Running ==> !ended
    {
    }

    method RunMore(input: seq<Byte>, room: nat) returns (ret: Ret, ghost taken: nat)
      requires Valid() && AtRest() && mode == Running
      modifies this, s`nblock, s`blockCRC, s`runs, s`state_in_ch, s`state_in_len, s.block, s.inUse, coder.w,
        coder.w.zbits
      modifies coder.arr1, coder.ftab, coder.unseqToSeq, coder.mtfFreq, coder.selector, coder.selectorMtf, coder.len,
        coder.code, coder.rfreq
      ensures Valid() && taken <= |input| && consumed == old(consumed) + input[..taken] && next_in == input[taken..]
      ensures old(emitted) <= emitted && |emitted| <= |old(emitted)| + room && mode == Running && AtRest()
      ensures steps == old(steps) + Takes(input[..taken]) + Closing(false, input != []) && !ended && !old(ended)
      ensures RunsOf(made) == Cut(Folded(steps, Most()), Most()).blocks
      ensures ret == if (if old(Waiting()) then room == 0 else input == []) then ParamError else RunOk
    {
      hide Valid, Complete, Drained, Waiting, Now, Takes, Closing, RunsOf, Cut, Folded, Most, Logged, Moved, Rests,
        AtRest, Halted;
      BlocksNow();
      RestsNow();
      ghost var a := Snapshot(Waiting(), state == Input, |input|, room);
      Load(input, room);
      var ran := HandleCompress();
      Ran(a, ran);
      taken := Used(old(consumed), input);
      RestsRunning();
      BlocksNow();
      StepsOf(old(steps), old(consumed), steps, consumed, input, taken, false, input != []);
      ret := if ran then RunOk else ParamError;
    }

    lemma {:induction false} RestsNow()
      requires AtRest()
      ensures Rests() && (state == Input ==> !ended)
    {
    }

    lemma {:induction false} RestsRunning()
      requires Valid() && Rests() && mode == Running
      ensures AtRest() && !ended
    {
    }

    lemma {:induction false} Ran(a: Snapshot, ran: bool)
      requires Moved(Running, a, ran)
      ensures ran <==> if a.waiting then a.room > 0 else a.input > 0
    {
    }

    method FlushMore(input: seq<Byte>, room: nat) returns (ret: Ret, ghost taken: nat)
      requires Valid() && AtRest() && mode == Flushing && avail_in_expect == |input|
      modifies this, s`nblock, s`blockCRC, s`runs, s`state_in_ch, s`state_in_len, s.block, s.inUse, coder.w,
        coder.w.zbits
      modifies coder.arr1, coder.ftab, coder.unseqToSeq, coder.mtfFreq, coder.selector, coder.selectorMtf, coder.len,
        coder.code, coder.rfreq
      ensures Valid() && taken <= |input| && consumed == old(consumed) + input[..taken] && next_in == input[taken..]
      ensures old(emitted) <= emitted && |emitted| <= |old(emitted)| + room
      ensures steps == old(steps) + Takes(input[..taken]) + Closing(Closes(Flush, ret) && !old(ended), input != [])
      ensures RunsOf(made) == Cut(Folded(steps, Most()), Most()).blocks
      ensures (taken == |input| != 0 || old(ended) ==> Closes(Flush, ret)) && (ended ==> taken == |input|)
      ensures (ret == RunOk || ret == FlushOk) && mode == (if ret == RunOk then Running else Flushing)
      ensures ret == RunOk ==> taken == |input| && s.runs == [] && NonePending() && coder.w.numZ == 0
      ensures AtRest() && (ret == FlushOk ==> |emitted| == |old(emitted)| + room)
    {
      hide Valid, Takes, Closing, RunsOf, Cut, Folded, Most, Logged;
      Load(input, room);
      var progress := HandleCompress();
      taken := Used(old(consumed), input);
      PendingNow();
      Expected();
      EmptyIs();
      BlocksNow();
      StepsOf(old(steps), old(consumed), steps, consumed, input, taken, ended && !old(ended), input != []);
      if avail_in_expect > 0 || !IsEmptyRL() || state_out_pos < coder.w.numZ { return FlushOk, taken; }
      Resume();
      ret := RunOk;
    }

    lemma {:induction false} PendingNow()
      requires Valid()
      ensures s.Pending() && (mode == Flushing || mode == Finishing ==> avail_in_expect == |next_in|)
      ensures state == Input ==> state_out_pos == coder.w.numZ
    {
      hide Linked, AreMade, CombinedCrc, SoFar, AreStream, Covered, Gathered;
    }

    method FinishMore(input: seq<Byte>, room: nat) returns (ret: Ret, ghost taken: nat)
      requires Valid() && AtRest() && mode == Finishing && avail_in_expect == |input|
      modifies this, s`nblock, s`blockCRC, s`runs, s`state_in_ch, s`state_in_len, s.block, s.inUse, coder.w,
        coder.w.zbits
      modifies coder.arr1, coder.ftab, coder.unseqToSeq, coder.mtfFreq, coder.selector, coder.selectorMtf, coder.len,
        coder.code, coder.rfreq
      ensures Valid() && taken <= |input| && consumed == old(consumed) + input[..taken] && next_in == input[taken..]
      ensures old(emitted) <= emitted && |emitted| <= |old(emitted)| + room
      ensures steps == old(steps) + Takes(input[..taken]) + Closing(ended && !old(ended), input != [])
      ensures RunsOf(made) == Cut(Folded(steps, Most()), Most()).blocks && (ret != StreamEnd || ended)
      ensures (taken == |input| != 0 || old(ended) ==> ended) && (ended ==> taken == |input|)
      ensures ret == StreamEnd ==> taken == |input| && Complete()
      ensures mode == (if ret == StreamEnd then Idle else Finishing)
      ensures AtRest() && (ret == SequenceError || ret == FinishOk || ret == StreamEnd)
      ensures ret == FinishOk ==> |emitted| == |old(emitted)| + room
      ensures ret == SequenceError <==> room == 0 && (old(Waiting()) || input == [])
    {
      hide Valid, Complete, Takes, Closing, RunsOf, Cut, Folded, Most, Logged;
      Load(input, room);
      var progress := HandleCompress();
      taken := Used(old(consumed), input);
      PendingNow();
      Expected();
      EmptyIs();
      BlocksNow();
      StepsOf(old(steps), old(consumed), steps, consumed, input, taken, ended && !old(ended), input != []);
      if !progress { return SequenceError, taken; }
      if avail_in_expect > 0 || !IsEmptyRL() || state_out_pos < coder.w.numZ { return FinishOk, taken; }
      End();
      ret := StreamEnd;
    }
  }

  /** BZ2_bzCompressInit: null for a parameter error. */
  method CompressInit(blockSize100k: int, workFactor0: int) returns (c: Compressor?)
    ensures c != null <==> 1 <= blockSize100k <= 9 && 0 <= workFactor0 <= 250
    ensures c != null ==>
      fresh(c) && fresh(c.s) && fresh(c.coder.Objects()) && c.Valid() && c.level == blockSize100k &&
        c.mode == Running && c.consumed == [] && c.emitted == [] && c.steps == [] &&
      c.next_in == []
    ensures c != null ==> c.AtRest()
    ensures c != null ==> c.coder.workFactor == if workFactor0 == 0 then 30 else workFactor0
  {
    if blockSize100k < 1 || blockSize100k > 9 || workFactor0 < 0 || workFactor0 > 250 { return null; }
    var workFactor := if workFactor0 == 0 then 30 else workFactor0;
    var d := new Compressor(blockSize100k, workFactor);
    d.StartsValid();
    c := d;
  }
}
