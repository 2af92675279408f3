/**
 * crc32_big: on a big-endian machine the register is held with its bytes the other way round, and the swapped tables
 * are used.
 */
module CrcBigEndian {
  import opened Rotations
  import opened ZlibCrc
  import opened CrcSlicing

  lemma {:induction false} SwapTwice(c: bv32)
    ensures Swap(Swap(c)) == c
  {
  }

  lemma {:induction false} SwapXor(a: bv32, b: bv32)
    ensures Swap(Xor(a, b)) == Xor(Swap(a), Swap(b))
  {
  }

  lemma {:induction false} SwapDown(c: bv32)
    ensures Swap(Down8(c)) == Up8(Swap(c))
  {
    hide Swap;
    SwapShift(c);
  }

  lemma {:induction false} SwapShift(c: bv32)
    ensures Swap(c >> 8) == Swap(c) << 8
  {
  }

  lemma {:induction false} SwapOnes()
    ensures Swap(ONES) == ONES
  {
  }

  /** The high byte, as an index. */
  function HighByte(c: bv32): Byte { Number(Short(c >> 24)) }

  lemma {:induction false} HighIsLow(c: bv32)
    ensures HighByte(Swap(c)) == LowByte(c)
  {
    hide Number;
    assert Short(Swap(c) >> 24) == Short(c);
  }

  /** The bytes of a swapped word, from the low one on, are those of the word from the high one on. */
  lemma {:induction false} BytesSwapped(x: bv32)
    ensures LowByte(Swap(x)) == LowByte(Down8(Down8(Down8(x))))
    ensures LowByte(Down8(Swap(x))) == LowByte(Down8(Down8(x)))
    ensures LowByte(Down8(Down8(Swap(x)))) == LowByte(Down8(x))
    ensures LowByte(Down8(Down8(Down8(Swap(x))))) == LowByte(x)
  {
    hide Number, Short, Swap, Down8;
    SwappedFirst(x);
    SwappedSecond(x);
    SwapTwice(x);
    SwappedSecond(Swap(x));
    SwappedFirst(Swap(x));
  }

  lemma {:induction false} SwappedFirst(x: bv32)
    ensures Short(Swap(x)) == Short(Down8(Down8(Down8(x))))
  {
  }

  lemma {:induction false} SwappedSecond(x: bv32)
    ensures Short(Down8(Swap(x))) == Short(Down8(Down8(x)))
  {
  }

  /** The byte goes to the high end of the swapped register. */
  lemma {:induction false} SwapWord(b: Byte)
    ensures Swap(Word(b)) == Up8(Up8(Up8(Word(b))))
  {
    Narrow(b);
    hide Word;
    SwapWide(Octet(b));
  }

  lemma {:induction false} SwapWide(b: bv8)
    ensures Swap(Wide(b)) == Up8(Up8(Up8(Wide(b))))
  {
  }

  lemma {:induction false} UpXor(c: bv32, w: bv32)
    ensures Up8(Xor(c, Up8(Up8(Up8(w))))) == Up8(c)
  {
  }

  /** A byte, with the register swapped: c is Swap(x). */
  method OneByte(table: array2<bv32>, c: bv32, b: Byte, ghost x: bv32) returns (r: bv32)
    requires IsTables(table) && c == Swap(x)
    ensures r == Swap(FeedByte(x, b))
  {
    hide *;
    var y := Xor(c, Up8(Up8(Up8(Word(b)))));
    ghost var z := Xor(x, Word(b));
    SwapWord(b);
    SwapXor(x, Word(b));
    HighIsLow(z);
    r := Xor(At(table, 4, HighByte(y)), Up8(c));
    TableStep(z);
    SwapXor(Zeros(Word(LowByte(z)), 8), Down8(z));
    SwapDown(z);
    UpXor(c, Word(b));
    FeedIs(x, b);
  }

  lemma {:induction false} FeedIs(x: bv32, b: Byte)
    ensures FeedByte(x, b) == Zeros(Xor(x, Word(b)), 8)
  {
  }

  /** An entry of one of the swapped tables. */
  function At(table: array2<bv32>, k: int, n: Byte): (r: bv32)
    requires IsTables(table) && 4 <= k < 8
    reads table
    ensures r == Swap(Zeros(Word(n), 8 * k - 24))
  {
    table[k, n]
  }

  /** DOBIG4 */
  method OneWord(table: array2<bv32>, c: bv32, w: bv32, ghost x: bv32, ghost v: bv32) returns (r: bv32)
    requires IsTables(table) && c == Swap(x) && w == Swap(v)
    ensures r == Swap(Zeros(Xor(x, v), 32))
  {
    hide *;
    var y := Xor(c, w);
    ghost var z := Xor(x, v);
    SwapXor(x, v);
    BytesSwapped(z);
    var a := At(table, 4, LowByte(y));
    var b := At(table, 5, LowByte(Down8(y)));
    var d := At(table, 6, LowByte(Down8(Down8(y))));
    var e := At(table, 7, LowByte(Down8(Down8(Down8(y)))));
    r := Xor(Xor(Xor(a, b), d), e);
    FourSlices(z);
    FourSwapped(Zeros(Word(LowByte(z)), 32), Zeros(Word(LowByte(Down8(z))), 24),
      Zeros(Word(LowByte(Down8(Down8(z)))), 16), Zeros(Word(LowByte(Down8(Down8(Down8(z))))), 8));
  }

  lemma {:induction false} FourSwapped(e: bv32, d: bv32, b: bv32, a: bv32)
    ensures Swap(Xor(Xor(Xor(e, d), b), a)) == Xor(Xor(Xor(Swap(a), Swap(b)), Swap(d)), Swap(e))
  {
    hide *;
    SwapXor(Xor(Xor(e, d), b), a);
    SwapXor(Xor(e, d), b);
    SwapXor(e, d);
    Backwards(Swap(e), Swap(d), Swap(b), Swap(a));
  }

  lemma {:induction false} Backwards(e: bv32, d: bv32, b: bv32, a: bv32)
    ensures Xor(Xor(Xor(e, d), b), a) == Xor(Xor(Xor(a, b), d), e)
  {
    hide Xor;
    XorCommutes(b, a);
    XorCommutes(e, d);
    XorCommutes(Xor(e, d), Xor(b, a));
    XorAssoc(Xor(e, d), b, a);
    XorAssoc(Xor(a, b), d, e);
  }

  /** Bytes i .. i + 3 of the buffer, read as one word by a big-endian machine. */
  method FourOf(table: array2<bv32>, c: bv32, buf: seq<Byte>, i: nat, ghost start: bv32) returns (r: bv32)
    requires IsTables(table) && i + 4 <= |buf| && c == Swap(Feed(start, buf[..i]))
    ensures r == Swap(Feed(start, buf[..i + 4]))
  {
    hide *;
    var w := FourBytes(buf[i + 3], buf[i + 2], buf[i + 1], buf[i]);
    ghost var v := FourBytes(buf[i], buf[i + 1], buf[i + 2], buf[i + 3]);
    ghost var x := Feed(start, buf[..i]);
    SwapFour(buf[i], buf[i + 1], buf[i + 2], buf[i + 3]);
    r := OneWord(table, c, w, x, v);
    FourFed(x, buf[i], buf[i + 1], buf[i + 2], buf[i + 3]);
    FeedNext(start, buf, i);
    FeedNext(start, buf, i + 1);
    FeedNext(start, buf, i + 2);
    FeedNext(start, buf, i + 3);
  }

  lemma {:induction false} SwapFour(a: Byte, b: Byte, c: Byte, d: Byte)
    ensures FourBytes(d, c, b, a) == Swap(FourBytes(a, b, c, d))
  {
    Narrow(a);
    Narrow(b);
    Narrow(c);
    Narrow(d);
    hide Word, Swap, Up8, Xor, Wide;
    SwapFourWide(Octet(a), Octet(b), Octet(c), Octet(d));
  }

  lemma {:induction false} SwapFourWide(a: bv8, b: bv8, c: bv8, d: bv8)
    ensures Xor(Wide(d), Up8(Xor(Wide(c), Up8(Xor(Wide(b), Up8(Wide(a))))))) ==
      Swap(Xor(Wide(a), Up8(Xor(Wide(b), Up8(Xor(Wide(c), Up8(Wide(d))))))))
  {
  }

  /** crc32_big on a buffer at address addr, in the same portions as crc32_little. */
  method Crc32Big(table: array2<bv32>, crc: bv32, addr: nat, buf: seq<Byte>) returns (r: bv32)
    requires IsTables(table)
    ensures r == Xor(Feed(Xor(crc, ONES), buf), ONES)
  {
    hide *;
    ghost var start := Xor(crc, ONES);
    SwapXor(crc, ONES);
    SwapOnes();
    var c := Xor(Swap(crc), ONES);
    var i := 0;
    FeedNothing(start);
    assert buf[..0] == [];
    while i < |buf| && (addr + i) % 4 != 0
      invariant i <= |buf| && c == Swap(Feed(start, buf[..i]))
    {
      c := OneByte(table, c, buf[i], Feed(start, buf[..i]));
      FeedNext(start, buf, i);
      i := i + 1;
    }
    while |buf| - i >= 32
      invariant i <= |buf| && c == Swap(Feed(start, buf[..i]))
      decreases |buf| - i
    {
      var k := 0;
      ghost var first := i;
      while k < 8
        invariant k <= 8 && i == first + 4 * k && c == Swap(Feed(start, buf[..i]))
        decreases 8 - k
      {
        c := FourOf(table, c, buf, i, start);
        i := i + 4;
        k := k + 1;
      }
    }
    while |buf| - i >= 4
      invariant i <= |buf| && c == Swap(Feed(start, buf[..i]))
    {
      c := FourOf(table, c, buf, i, start);
      i := i + 4;
    }
    while i < |buf|
      invariant i <= |buf| && c == Swap(Feed(start, buf[..i]))
    {
      c := OneByte(table, c, buf[i], Feed(start, buf[..i]));
      FeedNext(start, buf, i);
      i := i + 1;
    }
    assert buf[..i] == buf;
    r := Swap(Xor(c, ONES));
    SwapXor(c, ONES);
    SwapTwice(Feed(start, buf));
  }

  /** crc32_z: the checksum of what came before goes on to that of all, on either kind of machine. */
  method Crc32Z(table: array2<bv32>, littleEndian: bool, crc: bv32, addr: nat, buf: seq<Byte>) returns (r: bv32)
    requires IsTables(table)
    ensures r == Xor(Feed(Xor(crc, ONES), buf), ONES)
    ensures forall s: seq<Byte> | crc == Crc32(s) :: r == Crc32(s + buf)
  {
    hide *;
    if littleEndian { r := Crc32Little(table, crc, addr, buf); } else { r := Crc32Big(table, crc, addr, buf); }
    forall s: seq<Byte> | crc == Crc32(s)
      ensures r == Crc32(s + buf)
    {
      Continued(s, buf);
    }
  }
}
