/** What the compressor has written so far, and what of its input that stands for. */
module CompressedStream {
  import opened Bits
  import opened Rotations
  import opened BitStrings
  import opened BitWriter
  import opened BitReader
  import opened RunLength
  import opened Crc
  import opened BlockFormat
  import opened StreamFormat

  /** A finished block, with the runs it was made of. */
  datatype Made = Made(piece: Piece, runs: seq<Run>)

  ghost predicate IsMade(m: Made, level: nat) {
    && IsPiece(m.piece, level) && AreRuns(m.runs)
    && m.piece.b == Encode(m.runs) && m.piece.crc == BlockCrc(Plain(m.runs))
  }

  ghost predicate AreMade(ms: seq<Made>, level: nat) {
    forall i | 0 <= i < |ms| :: IsMade(ms[i], level)
  }

  /** The input the blocks stand for. */
  ghost function Covered(ms: seq<Made>): seq<Byte> {
    if ms == [] then [] else Covered(ms[..|ms| - 1]) + Plain(ms[|ms| - 1].runs)
  }

  ghost function Pieces(ms: seq<Made>): (r: seq<Piece>)
    ensures |r| == |ms| && forall i | 0 <= i < |ms| :: r[i] == ms[i].piece
  {
    seq(|ms|, i requires 0 <= i < |ms| => ms[i].piece)
  }

  ghost function RunsOf(ms: seq<Made>): (r: seq<seq<Run>>)
    ensures |r| == |ms| && forall i | 0 <= i < |ms| :: r[i] == ms[i].runs
  {
    seq(|ms|, i requires 0 <= i < |ms| => ms[i].runs)
  }

  ghost function Crcs(ms: seq<Made>): (r: seq<nat>)
    ensures |r| == |ms| && forall i | 0 <= i < |ms| :: r[i] == ms[i].piece.crc
  {
    seq(|ms|, i requires 0 <= i < |ms| => ms[i].piece.crc)
  }

  ghost function CombinedCrc(ms: seq<Made>, level: nat): (r: nat)
    requires AreMade(ms, level)
    ensures r < WORD
  {
    Combined(Crcs(ms))
  }

  /** All blocks made, each with its magic. */
  ghost function Written(ms: seq<Made>, level: nat): seq<bool>
    requires AreMade(ms, level)
  {
    if ms == [] then []
      else Written(ms[..|ms| - 1], level) + (InputBits(BLOCK_MAGIC) + PieceBits(ms[|ms| - 1].piece, level))
  }

  /** All bits of the stream so far. */
  ghost function SoFar(started: bool, ms: seq<Made>, level: nat): seq<bool>
    requires 1 <= level <= 9 && AreMade(ms, level)
  {
    if started then HeaderBits(level) + Written(ms, level) else []
  }

  ghost function TrailerBits(combined: nat): seq<bool> {
    InputBits(END_MAGIC) + BitsOf(combined, 32)
  }

  lemma {:induction false} Assoc(a: seq<bool>, b: seq<bool>, c: seq<bool>)
    ensures a + (b + c) == (a + b) + c
  {
  }

  lemma {:induction false} Assoc4(a: seq<bool>, m: seq<bool>, p: seq<bool>, r: seq<bool>)
    ensures a + (m + p) + r == a + (m + (p + r))
  {
  }

  lemma {:induction false} WrittenMore(ms: seq<Made>, m: Made, level: nat)
    requires AreMade(ms, level) && IsMade(m, level)
    ensures AreMade(ms + [m], level) && IsPiece(m.piece, level)
    ensures Written(ms + [m], level) == Written(ms, level) + (InputBits(BLOCK_MAGIC) + PieceBits(m.piece, level))
  {
    var all := ms + [m];
    assert all[..|all| - 1] == ms;
    hide IsPiece, PieceBits, InputBits, Plain, Encode, BlockCrc;
  }

  lemma {:induction false} MadeMore(ms: seq<Made>, m: Made, level: nat)
    requires 1 <= level <= 9 && AreMade(ms, level) && IsMade(m, level)
    ensures AreMade(ms + [m], level) && IsPiece(m.piece, level)
    ensures SoFar(true, ms + [m], level) == SoFar(true, ms, level) +
      (InputBits(BLOCK_MAGIC) + PieceBits(m.piece, level))
  {
    hide Written, AreMade, IsMade, IsPiece, PieceBits, InputBits, HeaderBits;
    WrittenMore(ms, m, level);
    Assoc(HeaderBits(level), Written(ms, level), InputBits(BLOCK_MAGIC) + PieceBits(m.piece, level));
  }

  lemma {:induction false} CoveredMore(ms: seq<Made>, m: Made, level: nat)
    requires AreMade(ms, level) && IsMade(m, level)
    ensures AreMade(ms + [m], level) && m.piece.crc < WORD
    ensures Covered(ms + [m]) == Covered(ms) + Plain(m.runs)
    ensures CombinedCrc(ms + [m], level) == Combine(CombinedCrc(ms, level), m.piece.crc)
  {
    var all := ms + [m];
    assert all[..|all| - 1] == ms;
    assert Crcs(all)[..|all| - 1] == Crcs(ms);
    hide Plain, Encode, BlockCrc, Combine;
  }

  lemma {:induction false} ArePiecesMade(ms: seq<Made>, level: nat)
    requires AreMade(ms, level)
    ensures ArePieces(Pieces(ms), level)
  {
    hide IsPiece;
    forall i | 0 <= i < |ms| ensures IsPiece(Pieces(ms)[i], level) { assert IsMade(ms[i], level); }
  }

  lemma {:induction false} WrittenStep(ms: seq<Made>, k: nat, level: nat)
    requires AreMade(ms, level) && 0 < k <= |ms|
    ensures AreMade(ms[..k], level) && AreMade(ms[..k - 1], level) && IsPiece(ms[k - 1].piece, level)
    ensures Written(ms[..k], level) == Written(ms[..k - 1], level) +
      (InputBits(BLOCK_MAGIC) + PieceBits(ms[k - 1].piece, level))
  {
    hide IsMade, Written, PieceBits, InputBits, IsPiece;
    assert ms[..k] == ms[..k - 1] + [ms[k - 1]];
    WrittenMore(ms[..k - 1], ms[k - 1], level);
  }

  lemma {:induction false} BlocksStep(xs: seq<Piece>, k: nat, level: nat, combined: nat)
    requires ArePieces(xs, level) && 0 < k <= |xs|
    ensures ArePieces(xs[k..], level) && ArePieces(xs[k - 1..], level) && IsPiece(xs[k - 1], level)
    ensures BlocksBits(xs[k - 1..], level, combined) == InputBits(BLOCK_MAGIC) +
      (PieceBits(xs[k - 1], level) + BlocksBits(xs[k..], level, combined))
  {
    assert xs[k - 1..][1..] == xs[k..];
    hide IsPiece, PieceBits, InputBits;
  }

  lemma {:induction false} PartsMade(ms: seq<Made>, k: nat, level: nat)
    requires AreMade(ms, level) && k <= |ms|
    ensures AreMade(ms[..k], level) && ArePieces(Pieces(ms)[k..], level) && ArePieces(Pieces(ms), level)
  {
    ArePiecesMade(ms, level);
    hide IsMade, IsPiece;
  }

  /** Blocks written one by one, then the trailer, are the blocks of a stream. */
  lemma {:induction false} WrittenIsBlocks(ms: seq<Made>, k: nat, level: nat, combined: nat)
    requires AreMade(ms, level) && k <= |ms|
    ensures AreMade(ms[..k], level) && ArePieces(Pieces(ms)[k..], level) && ArePieces(Pieces(ms), level)
    ensures Written(ms[..k], level) + BlocksBits(Pieces(ms)[k..], level, combined) ==
      BlocksBits(Pieces(ms), level, combined)
    decreases k, 1
  {
    PartsMade(ms, k, level);
    if k == 0 {
      assert ms[..0] == [] && Pieces(ms)[0..] == Pieces(ms);
      hide AreMade, ArePieces, BlocksBits;
    } else {
      WrittenBlocksStep(ms, k, level, combined);
    }
  }

  lemma {:induction false} WrittenBlocksStep(ms: seq<Made>, k: nat, level: nat, combined: nat)
    requires AreMade(ms, level) && 0 < k <= |ms|
    ensures AreMade(ms[..k], level) && ArePieces(Pieces(ms)[k..], level) && ArePieces(Pieces(ms), level)
    ensures Written(ms[..k], level) + BlocksBits(Pieces(ms)[k..], level, combined) ==
      BlocksBits(Pieces(ms), level, combined)
    decreases k, 0
  {
    hide AreMade, ArePieces, IsPiece, PieceBits, InputBits, Written, BlocksBits;
    PartsMade(ms, k, level);
    PartsMade(ms, k - 1, level);
    WrittenIsBlocks(ms, k - 1, level, combined);
    WrittenStep(ms, k, level);
    BlocksStep(Pieces(ms), k, level, combined);
    Assoc4(Written(ms[..k - 1], level), InputBits(BLOCK_MAGIC), PieceBits(ms[k - 1].piece, level),
      BlocksBits(Pieces(ms)[k..], level, combined));
  }

  lemma {:induction false} NoBlocks(level: nat, combined: nat)
    ensures BlocksBits([], level, combined) == TrailerBits(combined)
  {
  }

  lemma {:induction false} CompleteStream(ms: seq<Made>, level: nat)
    requires 1 <= level <= 9 && AreMade(ms, level)
    ensures ArePieces(Pieces(ms), level)
    ensures SoFar(true, ms, level) + TrailerBits(CombinedCrc(ms, level)) ==
      StreamBits(Pieces(ms), level, CombinedCrc(ms, level))
  {
    hide AreMade, ArePieces, InputBits, BitsOf, Written, BlocksBits, CombinedCrc, TrailerBits, Pieces;
    var combined := CombinedCrc(ms, level);
    WrittenIsBlocks(ms, |ms|, level, combined);
    assert ms[..|ms|] == ms && Pieces(ms)[|ms|..] == [];
    NoBlocks(level, combined);
    HeadTail(InputBits(STREAM_MAGIC), BitsOf(LEVEL_ZERO + level, 8), Written(ms, level), TrailerBits(combined));
  }

  lemma {:induction false} HeadTail(a: seq<bool>, b: seq<bool>, w: seq<bool>, t: seq<bool>)
    ensures (a + b) + w + t == a + (b + (w + t))
  {
  }

  lemma {:induction false} BytesBitsConcat(s: seq<int>, t: seq<int>)
    requires forall i | 0 <= i < |t| :: 0 <= t[i]
    ensures BytesBits(s + t) == BytesBits(s) + BytesBits(t)
  {
    hide BitsOf;
    if t == [] {
      assert s + t == s;
    } else {
      var n := |t| - 1;
      BytesBitsConcat(s, t[..n]);
      assert (s + t)[..|s + t| - 1] == s + t[..n];
      assert BytesBits(s) + BytesBits(t[..n]) + BitsOf(t[n], 8) == BytesBits(s) + (BytesBits(t[..n]) + BitsOf(t[n], 8));
    }
  }
}
