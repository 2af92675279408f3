/** The decompressor's result as a function of the compressed bits, and that it undoes every run of the compressor. */
module Lossless {
  import opened Bits
  import opened Rotations
  import opened InverseBwt
  import opened Counting
  import opened FastDecode
  import opened BitStrings
  import opened BitWriter
  import opened BitReader
  import opened RunLength
  import opened Crc
  import opened BlockFormat
  import opened StreamFormat
  import opened CompressedStream
  import opened BlockOutput
  import opened BzCompress
  import opened Randomisation

  /**
   * What a block puts out: the walk, one byte beyond the block, with the turned bytes of a randomised block turned back
   * and the runs expanded.
   */
  ghost function BlockBytes(d: Decoded): Expanded
    requires d.origPtr < |d.column|
  {
    CountingOrderIsStable(d.column);
    Expand(Derandomised(d.randomised, Walk(CountingOrder(d.column), d.column, d.origPtr, |d.column| + 1)))
  }

  /** A block's output is accepted if no run lacks its count and the checksum is the one stored. */
  ghost predicate Accepted(d: Decoded)
    requires d.origPtr < |d.column|
  {
    BlockBytes(d).ok && BlockCrc(BlockBytes(d).out) == d.crc
  }

  ghost predicate AreWalkable(ds: seq<Decoded>) {
    forall i | 0 <= i < |ds| :: ds[i].origPtr < |ds[i].column|
  }

  ghost function AllBytes(ds: seq<Decoded>): seq<Byte>
    requires AreWalkable(ds)
  {
    if ds == [] then [] else AllBytes(ds[..|ds| - 1]) + BlockBytes(ds[|ds| - 1]).out
  }

  ghost function BlockCrcs(ds: seq<Decoded>): (r: seq<nat>)
    requires AreWalkable(ds)
    ensures |r| == |ds| && forall i | 0 <= i < |ds| :: r[i] == BlockCrc(BlockBytes(ds[i]).out) < WORD
  {
    seq(|ds|, i requires 0 <= i < |ds| => BlockCrc(BlockBytes(ds[i]).out))
  }

  datatype Outcome = Bytes(s: seq<Byte>) | DataError | Incomplete

  /** What decompressing a stream comes to. */
  ghost function Decompressed(bits: seq<bool>): Outcome {
    match ParseStream(bits)
    case NeedMore => Incomplete
    case Bad => DataError
    case Done(p, rest) =>
      if (forall i | 0 <= i < |p.blocks| :: Accepted(p.blocks[i])) &&
        Combined(BlockCrcs(p.blocks)) == p.combined then Bytes(AllBytes(p.blocks))
      else DataError
  }

  // ---- one block

  lemma {:induction false} WalkOneMore(l: seq<Byte>, t: seq<int>, x: int, m: nat)
    requires Leads(l, t) && 0 <= x < |l|
    ensures |Walk(t, l, x, m + 1)| == m + 1 && Walk(t, l, x, m + 1)[..m] == Walk(t, l, x, m)
    decreases m
  {
    if m > 0 {
      WalkOneMore(l, t, t[x], m - 1);
      var w, v := Walk(t, l, x, m + 1), Walk(t, l, x, m);
      assert w == [l[t[x]]] + Walk(t, l, t[x], m) && v == [l[t[x]]] + Walk(t, l, t[x], m - 1);
    }
  }

  /** A block made of runs puts out what the runs stand for. */
  lemma {:induction false} MadeBytes(m: Made, level: nat)
    requires IsMade(m, level)
    ensures var d := DecodedPiece(m.piece);
      d.origPtr < |d.column| && BlockBytes(d) == Expanded(Plain(m.runs), true) && Accepted(d) && !d.randomised
  {
    var d := DecodedPiece(m.piece);
    hide IsPiece, CountingOrder, Expand, Encode, Plain, IsStableOrder, ParseBlock, PieceBits;
    PieceBack(m.piece, level, []);
    StableLeads(d.column);
    ExpandWalk(d.column, CountingOrder(d.column), d.origPtr, m.runs);
  }

  lemma {:induction false} ExpandWalk(l: seq<Byte>, t: seq<int>, x: int, runs: seq<Run>)
    requires Leads(l, t) && 0 <= x < |l| && AreRuns(runs) && Walk(t, l, x, |l|) == Encode(runs)
    ensures Expand(Walk(t, l, x, |l| + 1)) == Expanded(Plain(runs), true)
  {
    hide Expand, Encode, Plain;
    WalkOneMore(l, t, x, |l|);
    var w := Walk(t, l, x, |l| + 1);
    assert w == Encode(runs) + [w[|l|]];
    ExpandEncoded(runs, w[|l|]);
  }

  lemma {:induction false} StableLeads(l: seq<Byte>)
    ensures Leads(l, CountingOrder(l))
  {
    CountingOrderIsStable(l);
  }

  // ---- the stream

  lemma {:induction false} PiecesWalkable(ms: seq<Made>, level: nat)
    requires AreMade(ms, level)
    ensures AreWalkable(DecodedPieces(Pieces(ms)))
    ensures forall i | 0 <= i < |ms| ::
      !DecodedPieces(Pieces(ms))[i].randomised && Accepted(DecodedPieces(Pieces(ms))[i])
    ensures forall i | 0 <= i < |ms| :: BlockBytes(DecodedPieces(Pieces(ms))[i]) == Expanded(Plain(ms[i].runs), true)
  {
    hide DecodedPiece, IsMade, BlockBytes, Accepted, Plain;
    forall i | 0 <= i < |ms|
      ensures var d := DecodedPieces(Pieces(ms))[i];
        d.origPtr < |d.column| && BlockBytes(d) == Expanded(Plain(ms[i].runs), true) && Accepted(d) && !d.randomised
    {
      assert IsMade(ms[i], level);
      MadeBytes(ms[i], level);
    }
  }

  lemma {:induction false} AllCovered(ms: seq<Made>, level: nat)
    requires AreMade(ms, level)
    ensures AreWalkable(DecodedPieces(Pieces(ms))) && AllBytes(DecodedPieces(Pieces(ms))) == Covered(ms)
  {
    hide DecodedPiece, IsMade, BlockBytes, Accepted, Plain;
    PiecesWalkable(ms, level);
    if ms != [] {
      var n := |ms| - 1;
      var ds := DecodedPieces(Pieces(ms));
      AllCovered(ms[..n], level);
      assert DecodedPieces(Pieces(ms[..n])) == ds[..n];
      assert AllBytes(ds) == AllBytes(ds[..n]) + BlockBytes(ds[n]).out;
    }
  }

  lemma {:induction false} SameCrcs(ms: seq<Made>, level: nat)
    requires AreMade(ms, level)
    ensures AreWalkable(DecodedPieces(Pieces(ms))) && BlockCrcs(DecodedPieces(Pieces(ms))) == Crcs(ms)
  {
    PiecesWalkable(ms, level);
    hide IsMade, BlockBytes, Plain, BlockCrc;
    assert forall i | 0 <= i < |ms| :: BlockCrcs(DecodedPieces(Pieces(ms)))[i] == Crcs(ms)[i];
  }

  /** Decompressing a finished stream gives the input its blocks cover, whatever follows it. */
  lemma {:induction false} StreamDecompressed(ms: seq<Made>, level: nat, rest: seq<bool>)
    requires 1 <= level <= 9 && AreMade(ms, level) && ArePieces(Pieces(ms), level)
    ensures Decompressed(StreamBits(Pieces(ms), level, CombinedCrc(ms, level)) + rest) == Bytes(Covered(ms))
  {
    var xs := Pieces(ms);
    hide IsMade, ParseStream, StreamBits, ArePieces, BlockBytes, Accepted, DecodedPiece, BlockCrc;
    PiecesWalkable(ms, level);
    AllCovered(ms, level);
    SameCrcs(ms, level);
    StreamBack(xs, level, CombinedCrc(ms, level), rest);
  }

  function AsBytes(s: seq<int>): (r: seq<Byte>)
    requires forall i | 0 <= i < |s| :: 0 <= s[i] < 256
    ensures |r| == |s| && forall i | 0 <= i < |r| :: r[i] as int == s[i]
  {
    seq(|s|, i requires 0 <= i < |s| => s[i] as Byte)
  }

  /**
   * Once a run of the compressor has ended, its output, decompressed, is its input: however the
   * input and the output buffers were cut into portions, and however often it was flushed.
   */
  lemma {:induction false} CompressLossless(c: Compressor)
    requires c.Complete()
    ensures Decompressed(InputBits(AsBytes(c.emitted))) == Bytes(c.consumed)
  {
    SameBits(AsBytes(c.emitted), c.emitted);
    StreamDecompressed(c.made, c.level, Zeros(c.pad));
  }
}
