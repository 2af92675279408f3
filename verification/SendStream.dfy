/** BZ2_compressBlock behind the sort: stream header, block, trailer. */
module SendStream {
  import opened Bits
  import opened Rotations
  import opened BitStrings
  import opened MtfEncode
  import opened HuffmanCodes
  import opened BlockParts
  import opened BlockData
  import opened BlockFormat
  import opened BitWriter
  import opened BitReader
  import opened SendParts
  import opened SendBlock
  import opened StreamFormat

  method SendBytes(w: Writer, s: seq<Byte>, ghost later: seq<bool>, ghost total: seq<bool>)
    requires w.Valid() && Sent(w.Bits(), InputBits(s) + later, total) && |total| <= 8 * w.zbits.Length
    modifies w, w.zbits
    ensures w.Valid() && Sent(w.Bits(), later, total)
  {
    assert Pow2(8) == 256 by { Pow2Values(); }
    assert s[0..] == s;
    hide Sent, InputBits, BitsOf, Pow2;
    for i := 0 to |s|
      invariant w.Valid()
      invariant Sent(w.Bits(), InputBits(s[i..]) + later, total)
    {
      BytesTodo(s[i..], later);
      assert s[i..][1..] == s[i + 1..];
      SendNumber(w, 8, s[i], InputBits(s[i + 1..]) + later, total);
    }
    assert s[|s|..] == [];
    BytesDone(later);
  }

  lemma {:induction false} BytesTodo(s: seq<Byte>, later: seq<bool>)
    requires s != []
    ensures InputBits(s) + later == BitsOf(s[0] as int, 8) + (InputBits(s[1..]) + later)
  {
  }

  lemma {:induction false} BytesDone(later: seq<bool>)
    ensures InputBits([]) + later == later
  {
  }

  /** The byte of u that starts at bit k. */
  function ByteOf(u: nat, k: nat): nat {
    And(Shr(u, k), 0xff)
  }

  lemma {:induction false} ByteOfIs(u: nat, k: nat, p: nat)
    requires Pow2(k) == p
    ensures ByteOf(u, k) == (u / p) % 256
  {
    assert Pow2(8) == 256 by { Pow2Values(); }
    hide Pow2, And;
    AndLowMask(Shr(u, k), 8);
  }

  lemma {:induction false} Quarters(u: nat)
    requires u < WORD
    ensures var q1, q2, q3 := u / 0x100, u / 0x1_0000, u / 0x100_0000;
      && u == (q3 % 256) * 0x100_0000 + ((q2 % 256) * 0x1_0000 + ((q1 % 256) * 0x100 + u % 256))
  {
    var q1, q2, q3 := u / 0x100, u / 0x1_0000, u / 0x100_0000;
    assert q2 == q1 / 256 && q3 == q2 / 256 && q3 < 256;
    assert u == q1 * 256 + u % 256 && q1 == q2 * 256 + q1 % 256 && q2 == q3 * 256 + q2 % 256;
  }

  lemma {:induction false} FromBytes(u: nat)
    requires u < WORD
    ensures ByteOf(u, 24) < 256 && ByteOf(u, 16) < 256 && ByteOf(u, 8) < 256 && ByteOf(u, 0) < 256
    ensures u == ByteOf(u, 24) * 0x100_0000 + (ByteOf(u, 16) * 0x1_0000 + (ByteOf(u, 8) * 0x100 + ByteOf(u, 0)))
  {
    Pow2Values();
    assert Pow2(0) == 1;
    hide Pow2, ByteOf;
    ByteOfIs(u, 24, 0x100_0000);
    ByteOfIs(u, 16, 0x1_0000);
    ByteOfIs(u, 8, 0x100);
    ByteOfIs(u, 0, 1);
    assert u / 1 == u;
    Quarters(u);
  }

  lemma {:induction false} FourBytes(u: nat, later: seq<bool>)
    requires u < WORD
    ensures ByteOf(u, 24) < 256 && ByteOf(u, 16) < 256 && ByteOf(u, 8) < 256 && ByteOf(u, 0) < 256
    ensures BitsOf(u, 32) + later
      == BitsOf(ByteOf(u, 24), 8) +
        (BitsOf(ByteOf(u, 16), 8) + (BitsOf(ByteOf(u, 8), 8) + (BitsOf(ByteOf(u, 0), 8) + later)))
  {
    Pow2Values();
    hide BitsOf, Pow2, ByteOf;
    FromBytes(u);
    var a, b, c, d := ByteOf(u, 24), ByteOf(u, 16), ByteOf(u, 8), ByteOf(u, 0);
    FourNumbers(a, b, c, d);
    FourParts(BitsOf(a, 8), BitsOf(b, 8), BitsOf(c, 8), BitsOf(d, 8), later);
  }

  lemma {:induction false} FourNumbers(a: nat, b: nat, c: nat, d: nat)
    requires a < 256 && b < 256 && c < 256 && d < 256
    ensures BitsOf(a * 0x100_0000 + (b * 0x1_0000 + (c * 0x100 + d)), 32) == BitsOf(a, 8) +
      (BitsOf(b, 8) + (BitsOf(c, 8) + BitsOf(d, 8)))
  {
    Pow2Values();
    hide BitsOf, Pow2;
    BitsSplit(a, b * 0x1_0000 + (c * 0x100 + d), 8, 24);
    BitsSplit(b, c * 0x100 + d, 8, 16);
    BitsSplit(c, d, 8, 8);
  }

  lemma {:induction false} FourParts(a: seq<bool>, b: seq<bool>, c: seq<bool>, d: seq<bool>, later: seq<bool>)
    ensures a + (b + (c + d)) + later == a + (b + (c + (d + later)))
  {
  }

  /** bsPutUInt32 */
  method PutUInt32(w: Writer, u: int, ghost later: seq<bool>, ghost total: seq<bool>)
    requires w.Valid() && 0 <= u < WORD && Sent(w.Bits(), BitsOf(u, 32) + later, total) && |total| <= 8 * w.zbits.Length
    modifies w, w.zbits
    ensures w.Valid() && Sent(w.Bits(), later, total)
  {
    FourBytes(u, later);
    assert Pow2(8) == 256 by { Pow2Values(); }
    hide Sent, BitsOf, Pow2, ByteOf;
    var a, b, c, d := ByteOf(u, 24), ByteOf(u, 16), ByteOf(u, 8), ByteOf(u, 0);
    ghost var s3 := BitsOf(d, 8) + later;
    ghost var s2 := BitsOf(c, 8) + s3;
    ghost var s1 := BitsOf(b, 8) + s2;
    SendNumber(w, 8, a, s1, total);
    SendNumber(w, 8, b, s2, total);
    SendNumber(w, 8, c, s3, total);
    SendNumber(w, 8, d, later, total);
  }

  /** The bits of piece x, in the order in which they are sent. */
  lemma {:induction false} PieceTodo(x: Piece, level: nat, later: seq<bool>)
    requires IsPiece(x, level)
    ensures IsChoice(x.choice, SymbolsOf(x.b, x.p), AlphaSize(x.b)) && 0 <= x.crc < WORD && 0 <= x.origPtr < Pow2(24)
    ensures 1 <= |SymbolsOf(x.b, x.p)| < GROUP_SIZE * 0x7fff
    ensures PieceBits(x, level) + later == BitsOf(x.crc, 32) + ([false] + (BitsOf(x.origPtr, 24)
      + (MappingBits(InUse(x.b)) + (CodedBits(x.choice, SymbolsOf(x.b, x.p), AlphaSize(x.b)) + later))))
  {
    Pow2Values();
    SymbolCount(x.b, x.p);
    OneBit(false);
    hide CodedBits, MappingBits;
    Regrouped(BitsOf(x.crc, 32), BitsOf(0, 1), BitsOf(x.origPtr, 24), MappingBits(InUse(x.b)),
      CodedBits(x.choice, SymbolsOf(x.b, x.p), AlphaSize(x.b)), later);
  }

  method SendBlockHeader(w: Writer, blockCRC: int, origPtr: int, ghost later: seq<bool>, ghost total: seq<bool>)
    requires w.Valid() && 0 <= blockCRC < WORD && 0 <= origPtr < Pow2(24) && |total| <= 8 * w.zbits.Length
    requires Sent(w.Bits(), InputBits(BLOCK_MAGIC) + (BitsOf(blockCRC, 32) + ([false] + (BitsOf(origPtr, 24) + later))),
      total)
    modifies w, w.zbits
    ensures w.Valid() && Sent(w.Bits(), later, total)
  {
    hide Sent, InputBits, BitsOf, Pow2;
    ghost var s2 := BitsOf(origPtr, 24) + later;
    SendBytes(w, BLOCK_MAGIC, BitsOf(blockCRC, 32) + ([false] + s2), total);
    PutUInt32(w, blockCRC, [false] + s2, total);
    SendBit(w, false, s2, total);
    SendNumber(w, 24, origPtr, later, total);
  }

  method SendHeader(w: Writer, blockSize100k: int, ghost total: seq<bool>)
    requires w.Valid() && 1 <= blockSize100k <= 9 && |total| <= 8 * w.zbits.Length &&
      Sent(w.Bits(), HeaderBits(blockSize100k), total)
    modifies w, w.zbits
    ensures w.Valid() && Sent(w.Bits(), [], total)
  {
    hide Sent, InputBits, BitsOf;
    ghost var last := BitsOf(LEVEL_ZERO + blockSize100k, 8);
    assert last + [] == last;
    SendBytes(w, STREAM_MAGIC, last, total);
    assert Pow2(8) == 256 by { Pow2Values(); }
    SendNumber(w, 8, LEVEL_ZERO + blockSize100k, [], total);
  }

  /** The trailer, and the last byte filled up with zeros. */
  method SendTrailer(w: Writer, combinedCRC: int, ghost total: seq<bool>) returns (ghost pad: nat)
    requires w.Valid() && 0 <= combinedCRC < WORD && |total| + 7 <= 8 * w.zbits.Length
    requires Sent(w.Bits(), InputBits(END_MAGIC) + BitsOf(combinedCRC, 32), total)
    modifies w, w.zbits
    ensures 0 <= w.numZ <= w.zbits.Length && forall i | 0 <= i < w.numZ :: 0 <= w.zbits[i] < 256
    ensures pad < 8 && BytesBits(w.zbits[..w.numZ]) == total + Zeros(pad)
  {
    assert BitsOf(combinedCRC, 32) + [] == BitsOf(combinedCRC, 32);
    hide Sent, InputBits, BitsOf;
    SendBytes(w, END_MAGIC, BitsOf(combinedCRC, 32), total);
    PutUInt32(w, combinedCRC, [], total);
    SentAll(w.Bits(), total);
    pad := w.FinishWrite();
  }
}
