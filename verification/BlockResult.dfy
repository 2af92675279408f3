/**
 * A block's way out of the decoder: the links, the walk and the expansion together hand out just what the block stands
 * for.
 */
module BlockResult {
  import opened Bits
  import opened Rotations
  import opened InverseBwt
  import opened Counting
  import opened FastDecode
  import opened SmallDecode
  import opened RunLength
  import opened Crc
  import opened BlockFormat
  import opened StreamFormat
  import opened CompressedStream
  import opened BlockOutput
  import opened BlockStart
  import opened UnpackBlock
  import opened Lossless
  import opened Randomisation

  /** The output stage right after its construction has all of the block's bytes ahead. */
  lemma {:induction false} StartsWithAll(s: BlockOutput.Output, d: Decoded)
    requires s.Valid() && s.l == d.column && s.t == CountingOrder(d.column) && s.state_out_len == 0
    requires d.origPtr < |d.column| && Leads(s.l, s.t)
    requires s.Ahead() == Derandomised(d.randomised, Fetch(s.l, s.t, s.t[d.origPtr], |s.l| + 1))
    ensures s.Rest() == BlockBytes(d)
  {
    hide *;
    var n := |s.l| + 1;
    NextLeads(s.l, s.t, d.origPtr);
    var ahead := Derandomised(d.randomised, Fetch(s.l, s.t, s.t[d.origPtr], n));
    FetchSize(s.l, s.t, s.t[d.origPtr], n);
    FetchIsWalk(s.l, s.t, d.origPtr, n);
    ComingNone(s.state_out_ch, ahead);
    RestComes(s);
    BytesOfWalk(d);
  }

  lemma {:induction false} NextLeads(l: seq<Byte>, t: seq<int>, x: int)
    requires Leads(l, t) && 0 <= x < |l|
    ensures |t| == |l| && 0 <= t[x] < |l|
  {
  }

  lemma {:induction false} FetchSize(l: seq<Byte>, t: seq<int>, q: int, m: nat)
    requires Leads(l, t) && 0 <= q < |l|
    ensures |Fetch(l, t, q, m)| == m
  {
  }

  lemma {:induction false} RestComes(s: BlockOutput.Output)
    requires s.state_out_len == 0
    ensures s.Rest() == Coming(s.state_out_ch, 0, s.Ahead())
  {
  }

  lemma {:induction false} BytesOfWalk(d: Decoded)
    requires d.origPtr < |d.column|
    ensures Leads(d.column, CountingOrder(d.column))
    ensures |Walk(CountingOrder(d.column), d.column, d.origPtr, |d.column| + 1)| >= 1
    ensures BlockBytes(d) ==
      Expand(Derandomised(d.randomised, Walk(CountingOrder(d.column), d.column, d.origPtr, |d.column| + 1)))
  {
    hide Expand, Derandomised;
    CountingOrderIsStable(d.column);
  }

  /** out has been handed out of block d, and s holds the rest. */
  ghost predicate Handed(s: BlockOutput.Output, d: Decoded, out: seq<Byte>)
    reads s, s.tt, s.ll16, s.ll4, s.cftab
  {
    && s.Valid() && d.origPtr < |d.column| && d.crc < WORD
    && BlockBytes(d) == After(out, s.Rest()) && s.calculatedBlockCRC == CrcFrom(CRC_START, out)
  }

  datatype Answer = Going | Finished | BadData

  /** With nothing held and only the byte behind the block ahead, nothing is to come. */
  lemma {:induction false} AllOut(s: BlockOutput.Output)
    requires s.Valid() && s.nblock_used == s.save_nblock + 1 && s.state_out_len == 0
    ensures s.Rest() == Expanded([], true)
  {
    ComingLast(s.state_out_ch, s.Ahead());
  }

  /** Only with nothing held and nothing ahead is there nothing to come. */
  lemma {:induction false} NothingToCome(s: BlockOutput.Output, before: seq<Byte>)
    requires s.Valid() && After(before, s.Rest()) == Expanded(before, true)
    ensures s.nblock_used == s.save_nblock + 1 && s.state_out_len == 0
  {
    assert |before + s.Rest().out| == |before| && s.Rest() == Expanded([], true);
    assert s.Ahead() != [] && |Copies(s.state_out_ch, s.state_out_len) + Expand(s.Ahead()).out| == 0;
    ComingNone(s.state_out_ch, s.Ahead());
    NothingExpands(s.Ahead());
  }

  lemma {:induction false} NothingExpands(ahead: seq<Byte>)
    requires ahead != [] && Expand(ahead) == Expanded([], true)
    ensures |ahead| == 1
  {
  }

  lemma {:induction false} AfterNothing(out: seq<Byte>, ok: bool)
    ensures After(out, Expanded([], ok)) == Expanded(out, ok)
  {
  }

  /**
   * One call of the decompressor while a block is being put out: the output buffer has room for so many bytes. An error
   * is reported only for a block that is not accepted, the end only for one that is, and otherwise the buffer is full
   * and there is more to come.
   */
  method OutputCall(s: BlockOutput.Output, room: nat, storedBlockCRC: int, ghost d: Decoded, ghost before: seq<Byte>)
    returns (out: seq<Byte>, r: Answer)
    requires Handed(s, d, before) && storedBlockCRC == d.crc
    modifies s`tPos, s`nblock_used, s`todo, s`raw, s`rNToGo, s`rTPos, s`k0, s`state_out_ch, s`state_out_len,
      s`calculatedBlockCRC
    ensures Handed(s, d, before + out) && |out| <= room
    ensures r == Going ==> |out| == room && BlockBytes(d) != Expanded(before + out, true)
    ensures r == Finished ==> Accepted(d) && before + out == BlockBytes(d).out
    ensures r == BadData ==> !Accepted(d)
  {
    hide BlockBytes, CrcFrom, BlockOutput.Output.Located, BlockOutput.Output.Rest, BlockOutput.Output.Ahead, After;
    var corrupt;
    if s.smallDecompress {
      out, corrupt := s.UnRLESmall(room);
    } else {
      out, corrupt := s.UnRLE(room);
    }
    AfterAfter(before, out, s.Rest());
    CrcAppend(CRC_START, before, out);
    if corrupt {
      AfterNothing(before + out, false);
      return out, BadData;
    }
    if s.nblock_used == s.save_nblock + 1 && s.state_out_len == 0 {
      AllOut(s);
      AfterNothing(before + out, true);
      r := if Finalised(s.calculatedBlockCRC) != storedBlockCRC then BadData else Finished;
    } else {
      r := Going;
      if BlockBytes(d) == Expanded(before + out, true) { NothingToCome(s, before + out); }
    }
  }

  function Total(rooms: seq<nat>): nat {
    if rooms == [] then 0 else Total(rooms[..|rooms| - 1]) + rooms[|rooms| - 1]
  }

  /** Calls with one output buffer after the other, until the block is out, or bad, or there are no more buffers. */
  method OutputBlock(s: BlockOutput.Output, rooms: seq<nat>, storedBlockCRC: int, ghost d: Decoded)
    returns (out: seq<Byte>, r: Answer)
    requires Handed(s, d, []) && storedBlockCRC == d.crc
    modifies s`tPos, s`nblock_used, s`todo, s`raw, s`rNToGo, s`rTPos, s`k0, s`state_out_ch, s`state_out_len,
      s`calculatedBlockCRC
    ensures d.origPtr < |d.column| && out <= BlockBytes(d).out
    ensures r == Going ==> |out| == Total(rooms)
    ensures r == Finished ==> Accepted(d) && out == BlockBytes(d).out
    ensures r == BadData ==> !Accepted(d)
  {
    hide Handed, Accepted, BlockBytes;
    HandedPrefix(s, d, []);
    out, r := [], Going;
    var i := 0;
    while i < |rooms| && r == Going
      invariant 0 <= i <= |rooms| && Handed(s, d, out)
      invariant r == Going ==> |out| == Total(rooms[..i])
      invariant d.origPtr < |d.column|
      invariant r == Finished ==> Accepted(d) && out == BlockBytes(d).out
      invariant r == BadData ==> !Accepted(d)
    {
      var more;
      more, r := OutputCall(s, rooms[i], storedBlockCRC, d, out);
      out := out + more;
      assert rooms[..i + 1][..i] == rooms[..i];
      i := i + 1;
    }
    assert rooms[..|rooms|] == rooms;
    HandedPrefix(s, d, out);
  }

  lemma {:induction false} HandedPrefix(s: BlockOutput.Output, d: Decoded, out: seq<Byte>)
    requires Handed(s, d, out)
    ensures d.origPtr < |d.column| && out <= BlockBytes(d).out
  {
  }

  /** What the calls come to for a block with these contents. */
  ghost predicate Result(d: Decoded, rooms: seq<nat>, out: seq<Byte>, r: Answer) {
    if d.origPtr >= |d.column| then r == BadData && out == []
    else
      && out <= BlockBytes(d).out && (r == Going ==> |out| == Total(rooms))
      && (r == Finished ==> Accepted(d) && out == BlockBytes(d).out) && (r == BadData ==> !Accepted(d))
  }

  /** For a block that the compressor made, the calls hand out its runs in plain, and report no error. */
  lemma {:induction false} MadeComesOut(m: Made, level: nat, rooms: seq<nat>, out: seq<Byte>, r: Answer)
    requires IsMade(m, level) && Result(DecodedPiece(m.piece), rooms, out, r)
    ensures out <= Plain(m.runs) && r != BadData
    ensures if r == Finished then out == Plain(m.runs) else |out| == Total(rooms)
  {
    hide IsMade, BlockBytes, Accepted, DecodedPiece, Plain;
    MadeBytes(m, level);
  }

  /** From a block's symbols in tt to its bytes, in fast mode. */
  method RestoreFast(tt: array<int>, unzftab: array<int>, nblock: int, origPtr: nat, blockSize100k: int,
    randomised: bool, crc: nat, rooms: seq<nat>, ghost d: Decoded)
    returns (out: seq<Byte>, r: Answer)
    requires tt != unzftab && nblock == |d.column| <= MAX_BLOCK && nblock <= 100_000 * blockSize100k
    requires UnpackBlock.Output(tt[..], unzftab[..], d.column)
    requires origPtr == d.origPtr && randomised == d.randomised && crc == d.crc < WORD
    modifies tt
    ensures Result(d, rooms, out, r)
  {
    hide UnpackBlock.Output, CountingOrder, BlockBytes, Accepted, Handed, Fetch, Leads, BlockOutput.Output.Located,
      BlockOutput.Output.Rest, BlockOutput.Output.Ahead;
    var s := StartFast(tt, unzftab, nblock, origPtr, blockSize100k, randomised, d.column);
    if s == null { return [], BadData; }
    Starting(s, d);
    out, r := OutputBlock(s, rooms, crc, d);
  }

  /** The same in small mode. */
  method RestoreSmall(ll16: array<int>, ll4: array<int>, unzftab: array<int>, nblock: int, origPtr: nat,
    blockSize100k: int, randomised: bool, crc: nat, rooms: seq<nat>, ghost d: Decoded)
    returns (out: seq<Byte>, r: Answer)
    requires ll16 != unzftab && ll16 != ll4 && ll4 != unzftab && nblock == |d.column| <= MAX_BLOCK &&
      nblock <= 100_000 * blockSize100k
    requires UnpackBlock.Output(ll16[..], unzftab[..], d.column) && IsStore(ll16[..], ll4[..], nblock)
    requires origPtr == d.origPtr && randomised == d.randomised && crc == d.crc < WORD
    modifies ll16, ll4
    ensures Result(d, rooms, out, r)
  {
    hide UnpackBlock.Output, CountingOrder, BlockBytes, Accepted, Handed, Fetch, Leads, IsStore,
      BlockOutput.Output.Located, BlockOutput.Output.Rest, BlockOutput.Output.Ahead;
    var s := StartSmall(ll16, ll4, unzftab, nblock, origPtr, blockSize100k, randomised, d.column);
    if s == null { return [], BadData; }
    Starting(s, d);
    out, r := OutputBlock(s, rooms, crc, d);
  }

  lemma {:induction false} Starting(s: BlockOutput.Output, d: Decoded)
    requires s.Valid() && s.l == d.column && s.t == CountingOrder(d.column) && s.state_out_len == 0 &&
      s.calculatedBlockCRC == CRC_START
    requires d.origPtr < |d.column| && Leads(s.l, s.t) && d.crc < WORD
    requires 0 <= s.t[d.origPtr] < |s.l| &&
      s.Ahead() == Derandomised(d.randomised, Fetch(s.l, s.t, s.t[d.origPtr], |s.l| + 1))
    ensures Handed(s, d, [])
  {
    hide BlockBytes, Fetch, CountingOrder, Leads, Derandomised;
    StartsWithAll(s, d);
    CrcNone(CRC_START);
    AfterAfter([], [], s.Rest());
  }
}
