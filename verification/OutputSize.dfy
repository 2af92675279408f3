/** How long a compressed stream can get: finishing reaches its end, given so much room. */
module OutputSize {
  import opened Bits
  import opened Rotations
  import opened BitStrings
  import opened BitWriter
  import opened BitReader
  import opened RunLength
  import opened BlockSize
  import opened BlockFormat
  import opened StreamFormat
  import opened CompressedStream
  import opened BzCompress
  import opened BlockCutting

  /** Header and trailer, what each block costs with its tables, and what each byte of input costs at most. */
  function MostBytes(blocks: nat, n: nat): nat {
    15 + 7613 * blocks + 4 * n
  }

  /** All blocks with their magic, in quarters of a bit; every block covers some input. */
  lemma {:induction false} WrittenLength(ms: seq<Made>, level: nat)
    requires AreMade(ms, level)
    ensures 4 * |Written(ms, level)| <= 4 * PIECE_BITS * |ms| + 5 * BYTE_BITS * |Covered(ms)| && |ms| <= |Covered(ms)|
  {
    hide *;
    if ms == [] {
      NoneWritten(level);
    } else {
      var k := |ms| - 1;
      LastWritten(ms, level);
      WrittenLength(ms[..k], level);
      MadeLength(ms[k], level);
      Sums(|ms|, |Covered(ms[..k])|, |Plain(ms[k].runs)|);
    }
  }

  lemma {:induction false} Sums(k: nat, a: nat, b: nat)
    requires k >= 1
    ensures 4 * PIECE_BITS * (k - 1) + 5 * BYTE_BITS * a + (4 * PIECE_BITS + 5 * BYTE_BITS * b) ==
      4 * PIECE_BITS * k + 5 * BYTE_BITS * (a + b)
  {
  }

  lemma {:induction false} NoneWritten(level: nat)
    ensures Written([], level) == [] && Covered([]) == []
  {
  }

  lemma {:induction false} LastWritten(ms: seq<Made>, level: nat)
    requires AreMade(ms, level) && ms != []
    ensures IsMade(ms[|ms| - 1], level) && AreMade(ms[..|ms| - 1], level)
    ensures |Written(ms, level)| == |Written(ms[..|ms| - 1], level)| +
      |InputBits(BLOCK_MAGIC) + PieceBits(ms[|ms| - 1].piece, level)|
    ensures |Covered(ms)| == |Covered(ms[..|ms| - 1])| + |Plain(ms[|ms| - 1].runs)|
  {
    hide PieceBits, Plain, InputBits;
  }

  lemma {:induction false} MadeLength(m: Made, level: nat)
    requires IsMade(m, level)
    ensures 4 * |InputBits(BLOCK_MAGIC) + PieceBits(m.piece, level)| <= 4 * PIECE_BITS + 5 * BYTE_BITS * |Plain(m.runs)|
    ensures |Plain(m.runs)| >= 1
  {
    hide PieceBits, Encode, Plain, InputBits;
    PieceBound(m.piece, level);
    EncodeLength(m.runs);
  }

  lemma {:induction false} BytesLength(s: seq<int>)
    requires forall i | 0 <= i < |s| :: 0 <= s[i] < 256
    ensures |BytesBits(s)| == 8 * |s|
  {
  }

  lemma {:induction false} StreamLength(c: Compressor, bytes: seq<int>)
    requires c.AreStream(bytes) && forall i | 0 <= i < |bytes| :: 0 <= bytes[i] < 256
    ensures 8 * |bytes| <= 32 + |Written(c.made, c.level)| + 80 + 7
  {
    hide Written, BytesBits, StreamBits, AreMade, CombinedCrc, IsMade;
    BytesLength(bytes);
    CompleteStream(c.made, c.level);
  }

  lemma {:induction false} CoversConsumed(c: Compressor)
    requires c.Valid()
    ensures 1 <= c.level <= 9 && AreMade(c.made, c.level) && |Covered(c.made)| <= |c.consumed| && c.AreStream(c.Bytes())
    ensures c.emitted <= c.Bytes() && forall i | 0 <= i < |c.Bytes()| :: 0 <= c.Bytes()[i] < 256
  {
    hide Written, BytesBits, Covered, StreamBits, AreMade, CombinedCrc, Compressor.AreStream, Compressor.Linked,
      Compressor.Divided;
  }

  lemma {:induction false} BytesThere(c: Compressor)
    requires c.Valid()
    ensures 0 <= c.state_out_pos <= c.coder.w.numZ <= c.coder.w.zbits.Length
  {
    hide Compressor.Linked, Compressor.Accounts, Compressor.Divided, Compressor.AreStream, Compressor.InInput,
      Compressor.InOutput;
  }

  /** What has been handed over is no longer than this at any time. */
  lemma {:induction false} EmittedBound(c: Compressor)
    requires c.Valid()
    ensures |c.emitted| < MostBytes(|c.made|, |c.consumed|) && |c.made| <= |c.consumed|
  {
    hide Written, Covered, AreMade, Compressor.AreStream, Compressor.Linked, Compressor.Valid;
    BytesThere(c);
    CoversConsumed(c);
    WrittenLength(c.made, c.level);
    StreamLength(c, c.Bytes());
  }

  function Sum(rooms: seq<nat>): nat {
    if rooms == [] then 0 else Sum(rooms[..|rooms| - 1]) + rooms[|rooms| - 1]
  }

  /** The first bytes of the input, and behind all of it the end, lead from the steps s0 to s. */
  ghost predicate Given(s0: seq<Step>, input: seq<Byte>, done: nat, s: seq<Step>, ended: bool) {
    && done <= |input| && s == s0 + Takes(input[..done]) + Closing(ended, input != [])
    && (ended ==> done == |input|) && (input != [] && done == |input| ==> ended)
  }

  lemma {:induction false} NothingGiven(c: Compressor, s0: seq<Step>, input: seq<Byte>)
    requires c.Valid() && c.mode == Running && s0 == c.steps
    ensures Given(s0, input, 0, c.steps, c.ended)
  {
    hide Compressor.Valid, RunsOf, Cut, Folded;
    c.BlocksNow();
    assert input[..0] == [] && Takes([]) == [];
  }

  lemma {:induction false} MoreGiven(s0: seq<Step>, input: seq<Byte>, done: nat, s: seq<Step>, ended: bool, taken: nat,
    s': seq<Step>, ended': bool)
    requires Given(s0, input, done, s, ended) && done + taken <= |input| && (ended ==> ended')
    requires s' == s + Takes(input[done..][..taken]) + Closing(ended' && !ended, input[done..] != [])
    requires (done + taken == |input| && done < |input| ==> ended') && (ended' ==> done + taken == |input|)
    ensures Given(s0, input, done + taken, s', ended')
  {
    assert input[..done + taken] == input[..done] + input[done..][..taken];
    assert Takes(input[..done + taken]) == Takes(input[..done]) + Takes(input[done..][..taken]);
    if ended { assert input[done..][..taken] == [] && Takes([]) == []; }
  }

  lemma {:induction false} AllGiven(s0: seq<Step>, input: seq<Byte>, done: nat, s: seq<Step>)
    requires Given(s0, input, done, s, true)
    ensures s == s0 + Takes(input) + [Close(input != [])]
  {
    assert input[..done] == input;
  }

  /**
   * Calls to finish, with one output buffer after the other: none is refused, and the stream is complete once the
   * buffers hold as much as a stream can come to. Its blocks are those that the input makes, whatever the buffers.
   */
  method Finish(c: Compressor, input: seq<Byte>, rooms: seq<nat>) returns (ended: bool)
    requires c.Valid() && c.AtRest() && c.mode == Running && forall i | 0 <= i < |rooms| :: rooms[i] > 0
    modifies c, c.s`nblock, c.s`blockCRC, c.s`runs, c.s`state_in_ch, c.s`state_in_len, c.s.block, c.s.inUse, c.coder.w,
      c.coder.w.zbits
    modifies c.coder.arr1, c.coder.ftab, c.coder.unseqToSeq, c.coder.mtfFreq, c.coder.selector, c.coder.selectorMtf,
      c.coder.len, c.coder.code, c.coder.rfreq
    ensures c.Valid() && old(c.emitted) <= c.emitted
    ensures ended ==> c.Complete() && c.consumed == old(c.consumed) + input
    ensures ended ==>
      RunsOf(c.made) == Cut(Folded(old(c.steps) + Takes(input) + [Close(input != [])], c.Most()), c.Most()).blocks
    ensures !ended ==> |c.emitted| == |old(c.emitted)| + Sum(rooms) < MostBytes(|c.made|, |c.consumed|)
    ensures var n := |old(c.consumed)| + |input|; |old(c.emitted)| + Sum(rooms) >= MostBytes(n, n) ==> ended
  {
    hide Compressor.Valid, Compressor.Complete, Compressor.Waiting, Compressor.AtRest, RunsOf, Cut, Folded, Given,
      Takes, Closing;
    var rest := input;
    ghost var s0 := c.steps;
    NothingGiven(c, s0, input);
    ended := false;
    ghost var done := 0;
    for i := 0 to |rooms|
      invariant c.Valid() && c.AtRest() && old(c.emitted) <= c.emitted
      invariant |c.emitted| == |old(c.emitted)| + Sum(rooms[..i])
      invariant c.mode == (if i == 0 then Running else Finishing) && (i > 0 ==> c.avail_in_expect == |rest|)
      invariant Given(s0, input, done, c.steps, c.ended)
      invariant done <= |input| && rest == input[done..] && c.consumed == old(c.consumed) + input[..done]
    {
      assert rooms[..i + 1][..i] == rooms[..i];
      ghost var before, steps0, ended0, done0 := c.consumed, c.steps, c.ended, done;
      var ret, taken := c.BzCompress(Action.Finish, rest, rooms[i]);
      assert before + rest[..taken] == old(c.consumed) + input[..done + taken];
      done := done + taken;
      MoreGiven(s0, input, done0, steps0, ended0, taken, c.steps, c.ended);
      if ret == StreamEnd {
        assert input[..done] == input;
        AllGiven(s0, input, done, c.steps);
        return true;
      }
      rest := c.next_in;
      Expecting(c);
    }
    assert rooms[..|rooms|] == rooms;
    EmittedBound(c);
  }

  lemma {:induction false} Expecting(c: Compressor)
    requires c.Valid() && c.mode == Finishing
    ensures c.avail_in_expect == |c.next_in|
  {
  }
}
