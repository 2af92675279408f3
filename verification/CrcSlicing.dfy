/** crc32_little: four bytes at a time through four tables gives the bit-by-bit register. */
module CrcSlicing {
  import opened Rotations
  import opened ZlibCrc

  function Short(c: bv32): bv8 { (c & 0xff) as bv8 }

  function Wide(b: bv8): bv32 { b as bv32 }

  function Number(b: bv8): Byte { b as Byte }

  function Octet(n: Byte): bv8 { n as bv8 }

  /** The low byte of the register, as an index. */
  function LowByte(c: bv32): Byte { Number(Short(c)) }

  function Low(c: bv32): bv32 { c & 0xff }

  function Down8(c: bv32): bv32 { c >> 8 }

  function Up8(c: bv32): bv32 { c << 8 }

  lemma {:induction false} NumberAgain(b: bv8)
    ensures Octet(Number(b)) == b
  {
  }

  lemma {:induction false} Narrow(n: Byte)
    ensures Word(n) == Wide(Octet(n))
  {
  }

  lemma {:induction false} WideShort(c: bv32)
    ensures Wide(Short(c)) == Low(c)
  {
  }

  lemma {:induction false} WordOfLow(c: bv32)
    ensures Word(LowByte(c)) == Low(c)
  {
    hide Word, Wide, Octet, Number, Short, Low;
    var b := Short(c);
    Narrow(Number(b));
    NumberAgain(b);
    WideShort(c);
  }

  lemma {:induction false} SplitLow(c: bv32)
    ensures c == Xor(Low(c), Up8(Down8(c)))
  {
  }

  // ---- Eight zero bits under a value whose low byte is clear ----

  function Eighth(v: bv32): bv32 { Half(Half(Half(Half(Half(Half(Half(Half(v)))))))) }

  lemma {:induction false} EightZeros(v: bv32)
    ensures Zeros(v, 8) == ZeroBit(ZeroBit(ZeroBit(ZeroBit(ZeroBit(ZeroBit(ZeroBit(ZeroBit(v))))))))
  {
    hide ZeroBit;
    var a := ZeroBit(ZeroBit(ZeroBit(ZeroBit(v))));
    FourZeros(v);
    FourZeros(a);
    ZerosSum(v, 4, 4);
  }

  lemma {:induction false} FourZeros(v: bv32)
    ensures Zeros(v, 4) == ZeroBit(ZeroBit(ZeroBit(ZeroBit(v))))
  {
    hide ZeroBit;
    assert Zeros(v, 0) == v;
    assert Zeros(v, 1) == ZeroBit(v);
    assert Zeros(v, 2) == ZeroBit(Zeros(v, 1));
    assert Zeros(v, 3) == ZeroBit(Zeros(v, 2));
  }

  lemma {:induction false} EvenStep(v: bv32)
    requires !Odd(v)
    ensures ZeroBit(v) == Half(v)
  {
  }

  lemma {:induction false} EvenDown(c: bv32)
    ensures var v := Up8(c);
      !Odd(v) && !Odd(Half(v)) && !Odd(Half(Half(v))) && !Odd(Half(Half(Half(v))))
    ensures var w := Half(Half(Half(Half(Up8(c)))));
      !Odd(w) && !Odd(Half(w)) && !Odd(Half(Half(w))) && !Odd(Half(Half(Half(w))))
  {
  }

  lemma {:induction false} HalvesDown(c: bv32)
    ensures Eighth(Up8(Down8(c))) == Down8(c)
  {
  }

  lemma {:induction false} LowClear(c: bv32)
    ensures Zeros(Up8(c), 8) == Eighth(Up8(c))
  {
    hide ZeroBit, Odd, Half, Up8, Zeros;
    var v := Up8(c);
    EightZeros(v);
    EvenDown(c);
    var a := Half(v);
    var b := Half(a);
    var d := Half(b);
    var w := Half(d);
    EvenStep(v);
    EvenStep(a);
    EvenStep(b);
    EvenStep(d);
    EvenStep(w);
    EvenStep(Half(w));
    EvenStep(Half(Half(w)));
    EvenStep(Half(Half(Half(w))));
  }

  /** Feeding eight zero bits: the low byte through the first table, the rest moved down. */
  lemma {:induction false} TableStep(c: bv32)
    ensures Zeros(c, 8) == Xor(Zeros(Word(LowByte(c)), 8), Down8(c))
  {
    hide *;
    WordOfLow(c);
    SplitLow(c);
    LowClear(Down8(c));
    HalvesDown(c);
    ZerosLinear(Low(c), Up8(Down8(c)), 8);
  }

  // ---- Four bytes at once ----

  /** A little-endian word. */
  function FourBytes(a: Byte, b: Byte, c: Byte, d: Byte): bv32 {
    Xor(Word(a), Up8(Xor(Word(b), Up8(Xor(Word(c), Up8(Word(d)))))))
  }

  lemma {:induction false} AllShiftedOut(x: bv32)
    ensures Down8(Down8(Down8(Down8(x)))) == 0
  {
  }

  lemma {:induction false} ZerosXor(w: bv32, x: bv32, y: bv32, m: nat, n: nat)
    requires Zeros(x, m) == Xor(w, y)
    ensures Zeros(x, m + n) == Xor(Zeros(w, n), Zeros(y, n))
  {
    hide *;
    ZerosSum(x, m, n);
    ZerosLinear(w, y, n);
  }

  /** Column k of the word x, the rest of the bytes of the word being behind it. */
  lemma {:induction false} SliceStep(x: bv32, n: nat)
    ensures Zeros(x, 8 + n) == Xor(Zeros(Word(LowByte(x)), 8 + n), Zeros(Down8(x), n))
  {
    hide *;
    TableStep(x);
    var w := Word(LowByte(x));
    ZerosXor(Zeros(w, 8), x, Down8(x), 8, n);
    ZerosSum(w, 8, n);
  }

  /** 32 zero bits from four table look-ups. */
  lemma {:induction false} FourSlices(x: bv32)
    ensures Zeros(x, 32) == Xor(Xor(Xor(Zeros(Word(LowByte(x)), 32), Zeros(Word(LowByte(Down8(x))), 24)),
      Zeros(Word(LowByte(Down8(Down8(x)))), 16)), Zeros(Word(LowByte(Down8(Down8(Down8(x))))), 8))
  {
    hide *;
    var y := Down8(x);
    var z := Down8(y);
    var t := Down8(z);
    SliceStep(x, 24);
    SliceStep(y, 16);
    SliceStep(z, 8);
    TableStep(t);
    AllShiftedOut(x);
    var d := Zeros(Word(LowByte(t)), 8);
    XorZero(d);
    var a, b, c := Zeros(Word(LowByte(x)), 32), Zeros(Word(LowByte(y)), 24), Zeros(Word(LowByte(z)), 16);
    XorAssoc(a, b, Xor(c, d));
    XorAssoc(Xor(a, b), c, d);
  }

  lemma {:induction false} ByteIsShort(n: Byte)
    ensures Down8(Word(n)) == 0
  {
    hide Word;
    Narrow(n);
  }

  lemma {:induction false} UpDown(w: bv32)
    requires Down8(Down8(Down8(w))) == 0
    ensures Down8(Up8(w)) == w
  {
  }

  lemma {:induction false} DownXor(v: bv32, w: bv32)
    ensures Down8(Xor(v, Up8(w))) == Xor(Down8(v), Down8(Up8(w)))
    ensures Down8(0) == 0
  {
  }

  /** Adding a byte before or after eight zero bits. */
  lemma {:induction false} AddLater(y: bv32, w: bv32)
    requires Down8(Down8(Down8(w))) == 0
    ensures Xor(Zeros(y, 8), w) == Zeros(Xor(y, Up8(w)), 8)
  {
    hide *;
    UpDown(w);
    LowClear(w);
    HalvesDown(Up8(w));
    ZerosLinear(y, Up8(w), 8);
  }

  lemma {:induction false} Taller(n: Byte, w: bv32)
    requires Down8(Down8(Down8(w))) == 0
    ensures Down8(Xor(Word(n), Up8(w))) == w
  {
    hide *;
    UpDown(w);
    ByteIsShort(n);
    DownXor(Word(n), w);
    XorZero(w);
  }

  lemma {:induction false} FourFed(y: bv32, a: Byte, b: Byte, c: Byte, d: Byte)
    ensures FeedByte(FeedByte(FeedByte(FeedByte(y, a), b), c), d) == Zeros(Xor(y, FourBytes(a, b, c, d)), 32)
  {
    hide Zeros, Word, Up8, Down8, Xor;
    var w3 := Word(d);
    var w2 := Xor(Word(c), Up8(w3));
    var w1 := Xor(Word(b), Up8(w2));
    var w0 := Xor(Word(a), Up8(w1));
    ByteIsShort(d);
    DownXor(0, 0);
    Taller(c, w3);
    Taller(b, w2);
    var f1 := FeedByte(y, a);
    var f2 := FeedByte(f1, b);
    var f3 := FeedByte(f2, c);
    AddLater(Xor(y, Word(a)), w1);
    AddLater(Xor(f1, Word(b)), w2);
    AddLater(Xor(f2, Word(c)), w3);
    XorAssoc(y, Word(a), Up8(w1));
    XorAssoc(f1, Word(b), Up8(w2));
    XorAssoc(f2, Word(c), Up8(w3));
    var x := Xor(y, w0);
    ZerosSum(x, 8, 8);
    ZerosSum(x, 16, 8);
    ZerosSum(x, 24, 8);
  }

  // ---- The tables ----

  /** The bytes of a word the other way round. */
  function Swap(c: bv32): bv32 {
    ((c >> 24) & 0xff) | ((c >> 8) & 0xff00) | ((c & 0xff00) << 8) | ((c & 0xff) << 24)
  }

  /** table[k][n] is the register n after k + 1 bytes of zero bits, and table[k + 4][n] the same the other way round. */
  ghost predicate IsTables(table: array2<bv32>)
    reads table
  {
    && table.Length0 == 8 && table.Length1 == 256
    && (forall k, n | 0 <= k < 4 && 0 <= n < 256 :: table[k, n] == Zeros(Word(n), 8 * k + 8))
    && (forall k, n | 4 <= k < 8 && 0 <= n < 256 :: table[k, n] == Swap(Zeros(Word(n), 8 * k - 24)))
  }

  const TERMS: seq<nat> := [0, 1, 2, 4, 5, 7, 8, 10, 11, 12, 16, 22, 23, 26]

  function WithTerm(poly: bv32, t: nat): bv32
    requires t < 32
  {
    poly | (1 << (31 - t))
  }

  function PolyOf(k: nat): bv32
    requires k <= |TERMS|
  {
    if k == 0 then 0 else WithTerm(PolyOf(k - 1), TERMS[k - 1])
  }

  /** The exponents listed in the source make the reflected polynomial. */
  lemma {:induction false} PolyValue()
    ensures PolyOf(|TERMS|) == CRC_POLY
  {
    assert PolyOf(0) == 0;
    assert PolyOf(1) == 0x8000_0000;
    assert PolyOf(2) == 0xc000_0000;
    assert PolyOf(3) == 0xe000_0000;
    assert PolyOf(4) == 0xe800_0000;
    assert PolyOf(5) == 0xec00_0000;
    assert PolyOf(6) == 0xed00_0000;
    assert PolyOf(7) == 0xed80_0000;
    assert PolyOf(8) == 0xeda0_0000;
    assert PolyOf(9) == 0xedb0_0000;
    assert PolyOf(10) == 0xedb8_0000;
    assert PolyOf(11) == 0xedb8_8000;
    assert PolyOf(12) == 0xedb8_8200;
    assert PolyOf(13) == 0xedb8_8300;
  }

  method MakePoly() returns (poly: bv32)
    ensures poly == CRC_POLY
  {
    hide WithTerm;
    poly := 0;
    var n := 0;
    while n < |TERMS|
      invariant n <= |TERMS| && poly == PolyOf(n)
    {
      poly := WithTerm(poly, TERMS[n]);
      n := n + 1;
    }
    PolyValue();
  }

  /** make_crc_table: the first table, bit by bit. */
  method MakeFirst(table: array2<bv32>)
    requires table.Length0 == 8 && table.Length1 == 256
    modifies table
    ensures forall n | 0 <= n < 256 :: table[0, n] == Zeros(Word(n), 8)
  {
    hide Xor, Odd, Half, Word;
    var poly := MakePoly();
    var n := 0;
    while n < 256
      invariant 0 <= n <= 256
      invariant forall i | 0 <= i < n :: table[0, i] == Zeros(Word(i), 8)
    {
      var c := Word(n);
      var k := 0;
      while k < 8
        invariant 0 <= k <= 8 && c == Zeros(Word(n), k)
      {
        c := if Odd(c) then Xor(poly, Half(c)) else Half(c);
        k := k + 1;
      }
      table[0, n] := c;
      n := n + 1;
    }
  }

  /** make_crc_table: each further table is the one before, a zero byte on; with every entry the swapped one is made. */
  method MakeTables(table: array2<bv32>)
    requires table.Length0 == 8 && table.Length1 == 256
    modifies table
    ensures IsTables(table)
  {
    hide Xor, Word, Zeros, Down8, LowByte, Swap;
    MakeFirst(table);
    var n := 0;
    while n < 256
      invariant 0 <= n <= 256
      invariant forall i | 0 <= i < 256 :: table[0, i] == Zeros(Word(i), 8)
      invariant forall k, i | 0 <= k < 4 && 0 <= i < n :: table[k, i] == Zeros(Word(i), 8 * k + 8)
      invariant forall k, i | 4 <= k < 8 && 0 <= i < n :: table[k, i] == Swap(Zeros(Word(i), 8 * k - 24))
    {
      MakeColumn(table, n);
      n := n + 1;
    }
  }

  method MakeColumn(table: array2<bv32>, n: nat)
    requires table.Length0 == 8 && table.Length1 == 256 && n < 256
    requires forall i | 0 <= i < 256 :: table[0, i] == Zeros(Word(i), 8)
    modifies table
    ensures forall k | 0 <= k < 4 :: table[k, n] == Zeros(Word(n), 8 * k + 8)
    ensures forall k | 4 <= k < 8 :: table[k, n] == Swap(Zeros(Word(n), 8 * k - 24))
    ensures forall k, i | 0 <= k < 8 && 0 <= i < 256 && i != n :: table[k, i] == old(table[k, i])
  {
    hide Xor, Word, Zeros, Down8, LowByte, Swap;
    var c := table[0, n];
    table[4, n] := Swap(c);
    var k := 1;
    while k < 4
      invariant 1 <= k <= 4 && c == Zeros(Word(n), 8 * k)
      invariant forall j | 0 <= j < k :: table[j, n] == Zeros(Word(n), 8 * j + 8)
      invariant forall j | 4 <= j < k + 4 :: table[j, n] == Swap(Zeros(Word(n), 8 * j - 24))
      invariant forall j, i | 0 <= j < 8 && 0 <= i < 256 && i != n :: table[j, i] == old(table[j, i])
    {
      TableStep(c);
      ZerosSum(Word(n), 8 * k, 8);
      c := Xor(table[0, LowByte(c)], Down8(c));
      table[k, n] := c;
      table[k + 4, n] := Swap(c);
      k := k + 1;
    }
  }

  // ---- crc32_little ----

  /** DO1 */
  method OneByte(table: array2<bv32>, c: bv32, b: Byte) returns (r: bv32)
    requires IsTables(table)
    ensures r == FeedByte(c, b)
  {
    hide Xor, Word, Zeros, Down8, LowByte;
    var x := Xor(c, Word(b));
    r := Xor(table[0, LowByte(x)], Down8(x));
    TableStep(x);
  }

  /** DOLIT4 */
  method OneWord(table: array2<bv32>, c: bv32, w: bv32) returns (r: bv32)
    requires IsTables(table)
    ensures r == Zeros(Xor(c, w), 32)
  {
    hide Xor, Word, Zeros, Down8, LowByte;
    var x := Xor(c, w);
    r := Xor(Xor(Xor(table[3, LowByte(x)], table[2, LowByte(Down8(x))]),
      table[1, LowByte(Down8(Down8(x)))]), table[0, LowByte(Down8(Down8(Down8(x))))]);
    FourSlices(x);
  }

  lemma {:induction false} FeedNext(c: bv32, buf: seq<Byte>, i: nat)
    requires i < |buf|
    ensures Feed(c, buf[..i + 1]) == FeedByte(Feed(c, buf[..i]), buf[i])
  {
    hide FeedByte;
    var s := buf[..i + 1];
    assert s[..|s| - 1] == buf[..i];
  }

  /** Bytes i .. i + 3 of the buffer, read as one word. */
  method FourOf(table: array2<bv32>, c: bv32, buf: seq<Byte>, i: nat, ghost start: bv32) returns (r: bv32)
    requires IsTables(table) && i + 4 <= |buf| && c == Feed(start, buf[..i])
    ensures r == Feed(start, buf[..i + 4])
  {
    hide *;
    var w := FourBytes(buf[i], buf[i + 1], buf[i + 2], buf[i + 3]);
    r := OneWord(table, c, w);
    FourFed(c, buf[i], buf[i + 1], buf[i + 2], buf[i + 3]);
    FeedNext(start, buf, i);
    FeedNext(start, buf, i + 1);
    FeedNext(start, buf, i + 2);
    FeedNext(start, buf, i + 3);
  }

  /**
   * crc32_little on a buffer at address addr: single bytes up to an aligned address, words, eight words at a time while
   * that many are there, and single bytes again.
   */
  method Crc32Little(table: array2<bv32>, crc: bv32, addr: nat, buf: seq<Byte>) returns (r: bv32)
    requires IsTables(table)
    ensures r == Xor(Feed(Xor(crc, ONES), buf), ONES)
    ensures forall s: seq<Byte> | crc == Crc32(s) :: r == Crc32(s + buf)
  {
    hide *;
    var start := Xor(crc, ONES);
    var c := start;
    var i := 0;
    FeedNothing(start);
    assert buf[..0] == [];
    while i < |buf| && (addr + i) % 4 != 0
      invariant i <= |buf| && c == Feed(start, buf[..i])
    {
      c := OneByte(table, c, buf[i]);
      FeedNext(start, buf, i);
      i := i + 1;
    }
    while |buf| - i >= 32
      invariant i <= |buf| && c == Feed(start, buf[..i])
      decreases |buf| - i
    {
      var k := 0;
      ghost var first := i;
      while k < 8
        invariant k <= 8 && i == first + 4 * k && c == Feed(start, buf[..i])
        decreases 8 - k
      {
        c := FourOf(table, c, buf, i, start);
        i := i + 4;
        k := k + 1;
      }
    }
    while |buf| - i >= 4
      invariant i <= |buf| && c == Feed(start, buf[..i])
    {
      c := FourOf(table, c, buf, i, start);
      i := i + 4;
    }
    while i < |buf|
      invariant i <= |buf| && c == Feed(start, buf[..i])
    {
      c := OneByte(table, c, buf[i]);
      FeedNext(start, buf, i);
      i := i + 1;
    }
    assert buf[..i] == buf;
    r := Xor(c, ONES);
    forall s: seq<Byte> | crc == Crc32(s)
      ensures r == Crc32(s + buf)
    {
      Continued(s, buf);
    }
  }

  /** A checksum is a register to go on from. */
  lemma {:induction false} Continued(s: seq<Byte>, t: seq<Byte>)
    ensures Crc32(s + t) == Xor(Feed(Xor(Crc32(s), ONES), t), ONES)
  {
    hide *;
    CrcIs(s);
    CrcIs(s + t);
    FeedConcat(ONES, s, t);
    var f := Feed(ONES, s);
    XorAssoc(f, ONES, ONES);
    XorSelf(ONES);
    XorZero(f);
  }
}
