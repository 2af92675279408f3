/** How long a compressed block can get: it always fits the room the compressor has for it. */
module BlockSize {
  import opened Bits
  import opened Rotations
  import opened InverseBwt
  import opened MoveToFront
  import opened MtfEncode
  import opened BitStrings
  import opened HuffmanCodes
  import opened BlockParts
  import opened BlockData
  import opened BlockFormat
  import opened BitReader
  import opened StreamFormat

  lemma {:induction false} SelectorsLength(js: seq<int>)
    requires forall i | 0 <= i < |js| :: 0 <= js[i] < 6
    ensures |SelectorBits(js)| <= 6 * |js|
    decreases |js|
  {
    if js != [] { SelectorsLength(js[1..]); }
  }

  lemma {:induction false} StepsLength(curr: int, to: int)
    ensures |StepBits(curr, to)| == 1 + 2 * (if curr < to then to - curr else curr - to)
    decreases if curr < to then to - curr else curr - to
  {
    if curr < to { StepsLength(curr + 1, to); } else if curr > to { StepsLength(curr - 1, to); }
  }

  lemma {:induction false} LengthsLength(curr: int, len: seq<Byte>)
    requires 1 <= curr <= LONGEST_CODE && forall i | 0 <= i < |len| :: 1 <= len[i] as int <= LONGEST_CODE
    ensures |LengthsFrom(curr, len)| <= 39 * |len|
    decreases |len|
  {
    if len != [] {
      StepsLength(curr, len[0] as int);
      LengthsLength(len[0] as int, len[1..]);
    }
  }

  lemma {:induction false} TablesLength(lens: seq<seq<Byte>>)
    requires forall t | 0 <= t < |lens| :: IsLengths(lens[t])
    ensures |TablesBits(lens)| <= 10067 * |lens|
  {
    if lens != [] {
      assert IsLengths(lens[0]);
      LengthsLength(lens[0][0] as int, lens[0]);
      TablesLength(lens[1..]);
    }
  }

  lemma {:induction false} RowsLength(u: seq<bool>, i: nat)
    requires |u| == 256 && i <= 16
    ensures |RowsFrom(u, i)| <= 16 * (16 - i)
    decreases 16 - i
  {
    if i < 16 { RowsLength(u, i + 1); }
  }

  lemma {:induction false} DataLength(lens: seq<seq<Byte>>, sel: seq<int>, syms: seq<int>, k: nat)
    requires k <= |syms| && CanCode(lens, sel, syms) && forall t | 0 <= t < |lens| :: IsLengths(lens[t])
    ensures |DataBits(lens, sel, syms, k)| <= LONGEST_CODE * (|syms| - k)
    decreases |syms| - k
  {
    if k < |syms| {
      assert InGroup(lens, sel, syms, k);
      assert IsLengths(lens[sel[k / GROUP_SIZE]]);
      DataLength(lens, sel, syms, k + 1);
    }
  }

  /** Everything behind the mapping table. */
  lemma {:induction false} CodedLength(c: Choice, syms: seq<int>, n: int)
    requires IsChoice(c, syms, n)
    ensures |CodedBits(c, syms, n)| <= 18 + 6 * ((|syms| + 49) / 50) + 60402 + LONGEST_CODE * |syms|
  {
    ChoiceParts(c, syms, n);
    ChoiceCodes(c, syms, n);
    assert |c.sel| == (|syms| + 49) / 50;
    hide CanCode, IsChoice, GoodTables, HasRoom, IsLengths;
    DataLength(c.lens, c.sel, syms, 0);
    TablesLength(c.lens);
    SelectorsLength(SelectorIndices(c.sel, |c.lens|));
  }

  /** A block with its magic, in bits, for each of its bytes. */
  lemma {:induction false} PieceBound(x: Piece, level: nat)
    requires IsPiece(x, level)
    ensures |InputBits(BLOCK_MAGIC) + PieceBits(x, level)| <= PIECE_BITS + BYTE_BITS * |x.b|
  {
    var syms, n := SymbolsOf(x.b, x.p), AlphaSize(x.b);
    SymbolCount(x.b, x.p);
    CodedLength(x.choice, syms, n);
    RowsLength(InUse(x.b), 0);
    assert |InputBits(BLOCK_MAGIC)| == 48 && |MappingBits(InUse(x.b))| <= 272;
    hide CodedBits, SymbolsOf, IsChoice, IsRotationOrder, MappingBits, BitsOf, InUse, AlphaSize;
  }

  /** What a block costs apart from its bytes, and what a byte of it costs at most. */
  const PIECE_BITS := 60_900
  const BYTE_BITS := 21

  const BLOCK_BITS := 2_200_000

  const HEADER_BITS := 105

  /** The mapping table and all behind it. */
  lemma {:induction false} RestLength(b: Block, p: seq<int>, c: Choice, level: nat)
    requires |p| == |b| <= BLOCK_UNIT * level && 1 <= level && IsChoice(c, SymbolsOf(b, p), AlphaSize(b))
    ensures |MappingBits(InUse(b))| + |CodedBits(c, SymbolsOf(b, p), AlphaSize(b))| <= BLOCK_BITS * level - HEADER_BITS
  {
    var syms, n := SymbolsOf(b, p), AlphaSize(b);
    SymbolCount(b, p);
    CodedLength(c, syms, n);
    RowsLength(InUse(b), 0);
    assert |MappingBits(InUse(b))| <= 272;
    hide CodedBits, SymbolsOf, IsChoice, MappingBits, InUse, AlphaSize;
    Arithmetic(|syms|, |b|, level);
  }

  lemma {:induction false} Arithmetic(s: nat, m: nat, level: nat)
    requires s <= m + 1 && m <= BLOCK_UNIT * level && 1 <= level
    ensures 272 + 18 + 6 * ((s + 49) / 50) + 60402 + LONGEST_CODE * s <= BLOCK_BITS * level - HEADER_BITS
  {
    assert (s + 49) / 50 <= (m + 50) / 50 <= m / 50 + 1;
  }

  /** A block with its magic, in bits: well below 3 bytes for each byte of the largest block. */
  lemma {:induction false} PieceLength(x: Piece, level: nat)
    requires IsPiece(x, level)
    ensures |InputBits(BLOCK_MAGIC) + PieceBits(x, level)| <= BLOCK_BITS * level
  {
    RestLength(x.b, x.p, x.choice, level);
    assert |InputBits(BLOCK_MAGIC)| == 48;
    hide CodedBits, SymbolsOf, IsChoice, IsRotationOrder, MappingBits, BitsOf, InUse, AlphaSize;
  }
}
