/** A whole compressed stream: header, blocks, trailer; parsing it returns the blocks. */
module StreamFormat {
  import opened Bits
  import opened Rotations
  import opened InverseBwt
  import opened BitStrings
  import opened BitReader
  import opened BlockFormat

  const STREAM_MAGIC: seq<Byte> := [0x42, 0x5a, 0x68]
  const LEVEL_ZERO := 0x30
  const BLOCK_MAGIC: seq<Byte> := [0x31, 0x41, 0x59, 0x26, 0x53, 0x59]
  const END_MAGIC: seq<Byte> := [0x17, 0x72, 0x45, 0x38, 0x50, 0x90]

  /** A block as the encoder has it when it starts to write: sorted, its tables chosen. */
  datatype Piece = Piece(b: Block, p: seq<int>, origPtr: nat, crc: nat, choice: Choice)

  ghost predicate IsPiece(x: Piece, level: nat) {
    && 1 <= level <= 9 && |x.b| <= BLOCK_UNIT * level && x.crc < WORD
    && IsRotationOrder(x.b, x.p) && x.origPtr < |x.b| && x.p[x.origPtr] == 0
    && IsChoice(x.choice, SymbolsOf(x.b, x.p), AlphaSize(x.b))
  }

  ghost predicate ArePieces(xs: seq<Piece>, level: nat) {
    forall i | 0 <= i < |xs| :: IsPiece(xs[i], level)
  }

  ghost function PieceBits(x: Piece, level: nat): seq<bool>
    requires IsPiece(x, level)
  {
    BlockBits(x.b, x.p, x.origPtr, x.crc, x.choice)
  }

  /** All blocks from here on, and the trailer with the combined CRC. */
  ghost function BlocksBits(xs: seq<Piece>, level: nat, combined: nat): seq<bool>
    requires ArePieces(xs, level)
  {
    if xs == [] then InputBits(END_MAGIC) + BitsOf(combined, 32)
    else InputBits(BLOCK_MAGIC) + (PieceBits(xs[0], level) + BlocksBits(xs[1..], level, combined))
  }

  ghost function HeaderBits(level: nat): (r: seq<bool>)
    requires 1 <= level <= 9
    ensures |r| == 32
  {
    assert |InputBits(STREAM_MAGIC)| == 24;
    InputBits(STREAM_MAGIC) + BitsOf(LEVEL_ZERO + level, 8)
  }

  ghost function StreamBits(xs: seq<Piece>, level: nat, combined: nat): seq<bool>
    requires ArePieces(xs, level) && 1 <= level <= 9
  {
    InputBits(STREAM_MAGIC) + (BitsOf(LEVEL_ZERO + level, 8) + BlocksBits(xs, level, combined))
  }

  // ---- parsing

  /** The bytes expected, one by one. */
  function ReadBytes(expected: seq<Byte>, bits: seq<bool>): (r: Parse<()>)
    ensures r.Done? ==> |r.rest| <= |bits|
  {
    if expected == [] then Done((), bits)
    else
      var (c, rest) :- ReadBits(bits, 8);
      if c != expected[0] as int then Bad else ReadBytes(expected[1..], rest)
  }

  /** What a stream holds: its blocks and its combined CRC. */
  datatype Parsed = Parsed(blocks: seq<Decoded>, combined: nat)

  ghost function ParseBlocks(level: nat, bits: seq<bool>): (r: Parse<Parsed>)
    ensures r.Done? ==>
      |r.rest| <= |bits| &&
      forall i | 0 <= i < |r.value.blocks| :: r.value.blocks[i].origPtr < |r.value.blocks[i].column|
    decreases |bits|
  {
    var (c, rest) :- ReadBits(bits, 8);
    if c == END_MAGIC[0] as int then
      var (_, rest1) :- ReadBytes(END_MAGIC[1..], rest);
      var (combined, rest2) :- ReadBits(rest1, 32);
      Done(Parsed([], combined), rest2)
    else if c != BLOCK_MAGIC[0] as int then Bad
    else
      var (_, rest1) :- ReadBytes(BLOCK_MAGIC[1..], rest);
      var (d, rest2) :- ParseBlock(level, rest1);
      var (more, rest3) :- ParseBlocks(level, rest2);
      Done(Parsed([d] + more.blocks, more.combined), rest3)
  }

  ghost function ParseStream(bits: seq<bool>): (r: Parse<Parsed>)
    ensures r.Done? ==> forall i | 0 <= i < |r.value.blocks| :: r.value.blocks[i].origPtr < |r.value.blocks[i].column|
  {
    var (_, rest) :- ReadBytes(STREAM_MAGIC, bits);
    var (c, rest1) :- ReadBits(rest, 8);
    if c < LEVEL_ZERO + 1 || c > LEVEL_ZERO + 9 then Bad else ParseBlocks(c - LEVEL_ZERO, rest1)
  }

  // ---- round trip

  ghost function DecodedPiece(x: Piece): Decoded {
    Decoded(x.crc, false, x.origPtr, LastColumn(x.b, x.p))
  }

  ghost function DecodedPieces(xs: seq<Piece>): (r: seq<Decoded>)
    ensures |r| == |xs| && forall i | 0 <= i < |xs| :: r[i] == DecodedPiece(xs[i])
  {
    seq(|xs|, i requires 0 <= i < |xs| => DecodedPiece(xs[i]))
  }

  lemma {:induction false} ByteBack(c: Byte, rest: seq<bool>)
    ensures ReadBits(BitsOf(c as int, 8) + rest, 8) == Done(c as int, rest)
  {
    assert Pow2(8) == 256 by { Pow2Values(); }
    ReadBack(c as int, 8, rest);
  }

  lemma {:induction false} BytesBack(s: seq<Byte>, rest: seq<bool>)
    ensures ReadBytes(s, InputBits(s) + rest) == Done((), rest)
  {
    if s == [] {
      assert InputBits(s) + rest == rest;
    } else {
      assert InputBits(s) + rest == BitsOf(s[0] as int, 8) + (InputBits(s[1..]) + rest);
      ByteBack(s[0], InputBits(s[1..]) + rest);
      BytesBack(s[1..], rest);
    }
  }

  lemma {:induction false} MagicBack(s: seq<Byte>, rest: seq<bool>)
    requires s != []
    ensures ReadBits(InputBits(s) + rest, 8) == Done(s[0] as int, InputBits(s[1..]) + rest)
    ensures ReadBytes(s[1..], InputBits(s[1..]) + rest) == Done((), rest)
  {
    assert InputBits(s) + rest == BitsOf(s[0] as int, 8) + (InputBits(s[1..]) + rest);
    ByteBack(s[0], InputBits(s[1..]) + rest);
    BytesBack(s[1..], rest);
  }

  lemma {:induction false} PieceBack(x: Piece, level: nat, rest: seq<bool>)
    requires IsPiece(x, level)
    ensures ParseBlock(level, PieceBits(x, level) + rest) == Done(DecodedPiece(x), rest)
    ensures DecodedPiece(x).origPtr < |DecodedPiece(x).column| && Contents(DecodedPiece(x)) == x.b
  {
    BlockRoundTrip(x.b, x.p, x.origPtr, x.crc, x.choice, level, rest);
  }

  lemma {:induction false} BlocksBack(xs: seq<Piece>, level: nat, combined: nat, rest: seq<bool>)
    requires ArePieces(xs, level) && combined < WORD
    ensures ParseBlocks(level, BlocksBits(xs, level, combined) + rest) ==
      Done(Parsed(DecodedPieces(xs), combined), rest)
    decreases |xs|
  {
    hide *;
    BlocksTodo(xs, level, combined, rest);
    if xs == [] {
      EndBack(level, combined, rest);
      assert DecodedPieces(xs) == [];
    } else {
      FirstPiece(xs, level);
      BlocksBack(xs[1..], level, combined, rest);
      FirstBack(xs[0], level, BlocksBits(xs[1..], level, combined) + rest, Parsed(DecodedPieces(xs[1..]), combined),
        rest);
      DecodedCons(xs);
    }
  }

  lemma {:induction false} FirstPiece(xs: seq<Piece>, level: nat)
    requires ArePieces(xs, level) && xs != []
    ensures IsPiece(xs[0], level) && ArePieces(xs[1..], level)
  {
  }

  lemma {:induction false} DecodedCons(xs: seq<Piece>)
    requires xs != []
    ensures DecodedPieces(xs) == [DecodedPiece(xs[0])] + DecodedPieces(xs[1..])
  {
    hide DecodedPiece;
  }

  lemma {:induction false} EndBack(level: nat, combined: nat, rest: seq<bool>)
    requires combined < WORD
    ensures ParseBlocks(level, InputBits(END_MAGIC) + (BitsOf(combined, 32) + rest)) == Done(Parsed([], combined), rest)
  {
    var bits1 := BitsOf(combined, 32) + rest;
    MagicBack(END_MAGIC, bits1);
    assert combined < Pow2(32) by { Pow2Values(); }
    ReadBack(combined, 32, rest);
    hide ParseBlocks, InputBits, BitsOf, ReadBits, ReadBytes;
    ParsedEnd(level, InputBits(END_MAGIC) + bits1, InputBits(END_MAGIC[1..]) + bits1, bits1, combined, rest);
  }

  lemma {:induction false} FirstBack(x: Piece, level: nat, bits: seq<bool>, more: Parsed, rest: seq<bool>)
    requires IsPiece(x, level) && ParseBlocks(level, bits) == Done(more, rest)
    ensures ParseBlocks(level, InputBits(BLOCK_MAGIC) + (PieceBits(x, level) + bits)) ==
      Done(Parsed([DecodedPiece(x)] + more.blocks, more.combined), rest)
  {
    hide ParseBlocks, ParseBlock, PieceBits, InputBits, BitsOf, ReadBits, ReadBytes, IsPiece, DecodedPiece;
    var bits2 := PieceBits(x, level) + bits;
    MagicBack(BLOCK_MAGIC, bits2);
    PieceBack(x, level, bits);
    ParsedBlock(level, InputBits(BLOCK_MAGIC) + bits2, InputBits(BLOCK_MAGIC[1..]) + bits2, bits2, DecodedPiece(x),
      bits, more, rest);
  }

  lemma {:induction false} BlocksTodo(xs: seq<Piece>, level: nat, combined: nat, rest: seq<bool>)
    requires ArePieces(xs, level)
    ensures xs == [] ==> BlocksBits(xs, level, combined) + rest == InputBits(END_MAGIC) + (BitsOf(combined, 32) + rest)
    ensures xs != [] ==>
      BlocksBits(xs, level, combined) + rest == InputBits(BLOCK_MAGIC) +
        (PieceBits(xs[0], level) + (BlocksBits(xs[1..], level, combined) + rest))
  {
    hide PieceBits, InputBits, BitsOf, IsPiece;
  }

  lemma {:induction false} ParsedEnd(level: nat, bits: seq<bool>, bits1: seq<bool>, bits2: seq<bool>, combined: nat,
    rest: seq<bool>)
    requires ReadBits(bits, 8) == Done(END_MAGIC[0] as int, bits1) &&
      ReadBytes(END_MAGIC[1..], bits1) == Done((), bits2)
    requires ReadBits(bits2, 32) == Done(combined, rest)
    ensures ParseBlocks(level, bits) == Done(Parsed([], combined), rest)
  {
    hide ReadBytes, ReadBits;
  }

  lemma {:induction false} ParsedBlock(level: nat, bits: seq<bool>, bits1: seq<bool>, bits2: seq<bool>, d: Decoded,
    bits3: seq<bool>, more: Parsed, rest: seq<bool>)
    requires ReadBits(bits, 8) == Done(BLOCK_MAGIC[0] as int, bits1) &&
      ReadBytes(BLOCK_MAGIC[1..], bits1) == Done((), bits2)
    requires ParseBlock(level, bits2) == Done(d, bits3) && ParseBlocks(level, bits3) == Done(more, rest)
    ensures ParseBlocks(level, bits) == Done(Parsed([d] + more.blocks, more.combined), rest)
  {
    hide ReadBytes, ReadBits, ParseBlock;
  }

  /** Parsing what the encoder wrote gives all the blocks, in order, and the combined CRC. */
  lemma {:induction false} StreamBack(xs: seq<Piece>, level: nat, combined: nat, rest: seq<bool>)
    requires ArePieces(xs, level) && combined < WORD && 1 <= level <= 9
    ensures ParseStream(StreamBits(xs, level, combined) + rest) == Done(Parsed(DecodedPieces(xs), combined), rest)
    ensures forall i | 0 <= i < |xs| ::
      DecodedPieces(xs)[i].origPtr < |DecodedPieces(xs)[i].column| && Contents(DecodedPieces(xs)[i]) == xs[i].b
  {
    hide ParseBlocks, ReadBytes, ReadBits, InputBits, BitsOf, BlocksBits, Contents, ParseBlock;
    var blocks := BlocksBits(xs, level, combined) + rest;
    assert StreamBits(xs, level, combined) + rest == InputBits(STREAM_MAGIC) + (BitsOf(LEVEL_ZERO + level, 8) + blocks);
    BytesBack(STREAM_MAGIC, BitsOf(LEVEL_ZERO + level, 8) + blocks);
    ByteBack((LEVEL_ZERO + level) as Byte, blocks);
    BlocksBack(xs, level, combined, rest);
    forall i | 0 <= i < |xs|
      ensures DecodedPieces(xs)[i].origPtr < |DecodedPieces(xs)[i].column| && Contents(DecodedPieces(xs)[i]) == xs[i].b
    {
      PieceBack(xs[i], level, []);
    }
  }
}
