/**
 * zlib's Adler-32: deferred reductions, divisions spelled out as shifts, and combining checksums. Section 2.2 of RFC
 * 1950.
 */
module Adler {
  import opened Bits
  import opened Rotations

  const BASE := 65521
  const NMAX := 5552

  function Mod(x: int): (r: int)
    ensures 0 <= r < BASE
  {
    x % 65521
  }

  // ---- the checksum, byte by byte

  /** The two sums, reduced after every byte. */
  datatype Sums = Sums(a: int, b: int)

  function Feed(x: Sums, c: Byte): Sums {
    var a := Mod(x.a + c);
    Sums(a, Mod(x.b + a))
  }

  function FeedAll(x: Sums, s: seq<Byte>): Sums {
    if s == [] then x else Feed(FeedAll(x, s[..|s| - 1]), s[|s| - 1])
  }

  /** The checksum of a message starts with the sums 1 and 0. */
  function Checksum(s: seq<Byte>): Sums {
    FeedAll(Sums(1, 0), s)
  }

  /** Both sums in one number: adler | (sum2 << 16). */
  function Packed(a: int, b: int): int
    requires a >= 0 && b >= 0
  {
    Or(a, b * 65536)
  }

  lemma {:induction false} PackedParts(a: int, b: int)
    requires 0 <= a < 65536 && 0 <= b
    ensures Packed(a, b) == a + 65536 * b
  {
    Pow2Values();
    hide Or, Pow2;
    ModOfMultiple(65536, b);
    OrDisjoint(a, b * 65536, 16);
  }

  // ---- congruence

  /** x and y leave the same remainder. */
  predicate Same(x: int, y: int) {
    Mod(x) == Mod(y)
  }

  lemma {:induction false} SameAdd(x: int, y: int, d: int)
    requires Same(x, y)
    ensures Same(x + d, y + d)
  {
  }

  lemma {:induction false} SameSum(x: int, y: int, u: int, v: int)
    requires Same(x, y) && Same(u, v)
    ensures Same(x + u, y + v)
  {
  }

  lemma {:induction false} SameMod(x: int)
    ensures Same(Mod(x), x)
  {
  }

  lemma {:induction false} SameMultiple(x: int, k: int)
    ensures Same(x + 65521 * k, x)
  {
    DivModUnique(x + 65521 * k, 65521, x / 65521 + k, x % 65521);
  }

  lemma {:induction false} SameProduct(x: int, y: int, p: int)
    requires Same(x, y)
    ensures Same(x * p, y * p)
  {
    var k := x / 65521 - y / 65521;
    assert x == y + 65521 * k;
    assert (y + 65521 * k) * p == y * p + 65521 * (k * p);
    SameMultiple(y * p, k * p);
  }

  // ---- reductions without division

  /** CHOP: 65536 leaves 15. */
  function Chop(a: int): (r: int)
    requires a >= 0
    ensures Same(r, a) && 0 <= r <= 65535 + 15 * (a / 65536)
  {
    SameMultiple(a % 65536 + 15 * (a / 65536), a / 65536);
    a % 65536 + (a / 65536 * 16 - a / 65536)
  }

  /** MOD, with or without division hardware. */
  method Reduce(a0: int, noDivide: bool) returns (a: int)
    requires 0 <= a0 < WORD
    ensures a == Mod(a0)
  {
    if noDivide {
      a := Chop(a0);
      a := Reduce28(a, true);
    } else {
      a := a0 % BASE;
    }
  }

  /** MOD28 */
  method Reduce28(a0: int, noDivide: bool) returns (a: int)
    requires 0 <= a0 < 0x1000_0000
    ensures a == Mod(a0)
  {
    if noDivide {
      a := Chop(a0);
      if a >= BASE { a := a - BASE; }
    } else {
      a := a0 % BASE;
    }
  }

  // ---- summing without reducing

  /** a and b stand for the reduced sums x. */
  predicate Stand(a: int, b: int, x: Sums) {
    Same(a, x.a) && Same(b, x.b)
  }

  lemma {:induction false} StandNext(a: int, b: int, x: Sums, c: Byte)
    requires Stand(a, b, x)
    ensures Stand(a + c, b + (a + c), Feed(x, c))
  {
    SameAdd(a, x.a, c);
    SameMod(x.a + c);
    SameSum(b, x.b, a + c, Mod(x.a + c));
    SameMod(x.b + Mod(x.a + c));
  }

  lemma {:induction false} FeedNext(x: Sums, buf: seq<Byte>, i: nat)
    requires i < |buf|
    ensures FeedAll(x, buf[..i + 1]) == Feed(FeedAll(x, buf[..i]), buf[i])
  {
    assert buf[..i + 1][..i] == buf[..i];
  }

  /** 1 + 2 + ... + k */
  function Triangle(k: nat): nat {
    if k == 0 then 0 else Triangle(k - 1) + k
  }

  lemma {:induction false} TriangleIs(k: nat)
    ensures 2 * Triangle(k) == k * (k + 1)
  {
    if k > 0 { TriangleIs(k - 1); }
  }

  /** How large the sums can be k bytes after a reduction. */
  predicate Bounded(a: int, b: int, k: nat) {
    0 <= a <= 65535 + 255 * k && 0 <= b <= 65535 + 65535 * k + 255 * Triangle(k)
  }

  lemma {:induction false} BoundedNext(a: int, b: int, k: nat, c: Byte)
    requires Bounded(a, b, k)
    ensures Bounded(a + c, b + (a + c), k + 1)
  {
  }

  /** NMAX bytes cannot overflow 32 bits. */
  lemma {:induction false} BoundedFits(a: int, b: int, k: nat)
    requires Bounded(a, b, k) && k <= NMAX
    ensures a < WORD && b < WORD
  {
    TriangleIs(k);
    assert k * (k + 1) <= 5552 * 5553 by { Products(k, k + 1, 5552, 5553); }
  }

  lemma {:induction false} Products(a: nat, b: nat, c: nat, d: nat)
    requires a <= c && b <= d
    ensures a * b <= c * d
  {
    assert a * b <= c * b;
    assert c * b <= c * d;
  }

  /** DO1 */
  method AddOne(a0: int, b0: int, buf: seq<Byte>, i: nat, ghost x: Sums, ghost k: nat) returns (a: int, b: int)
    requires i < |buf| && k < NMAX && Stand(a0, b0, FeedAll(x, buf[..i])) && Bounded(a0, b0, k)
    ensures Stand(a, b, FeedAll(x, buf[..i + 1])) && Bounded(a, b, k + 1) && 0 <= a < WORD && 0 <= b < WORD
  {
    hide Stand, FeedAll, Feed, Triangle;
    StandNext(a0, b0, FeedAll(x, buf[..i]), buf[i]);
    FeedNext(x, buf, i);
    BoundedNext(a0, b0, k, buf[i]);
    a := a0 + buf[i];
    b := b0 + a;
    BoundedFits(a, b, k + 1);
  }

  /** DO16 */
  method AddSixteen(a0: int, b0: int, buf: seq<Byte>, i: nat, ghost x: Sums, ghost k: nat) returns (a: int, b: int)
    requires i + 16 <= |buf| && k + 16 <= NMAX && Stand(a0, b0, FeedAll(x, buf[..i])) && Bounded(a0, b0, k)
    ensures Stand(a, b, FeedAll(x, buf[..i + 16])) && Bounded(a, b, k + 16)
  {
    hide Stand, FeedAll, Bounded;
    a, b := a0, b0;
    for j := 0 to 16
      invariant Stand(a, b, FeedAll(x, buf[..i + j])) && Bounded(a, b, k + j)
    {
      a, b := AddOne(a, b, buf, i + j, x, k + j);
    }
  }

  lemma {:induction false} Reduced(a: int, b: int, x: Sums)
    requires Stand(a, b, x)
    ensures Stand(Mod(a), Mod(b), x) && Bounded(Mod(a), Mod(b), 0)
  {
    SameMod(a);
    SameMod(b);
  }

  /** Reduces both sums. */
  method ReduceBoth(a0: int, b0: int, noDivide: bool, ghost x: Sums, ghost k: nat) returns (a: int, b: int)
    requires Stand(a0, b0, x) && Bounded(a0, b0, k) && k <= NMAX
    ensures Stand(a, b, x) && Bounded(a, b, 0) && 0 <= a < BASE && 0 <= b < BASE
  {
    hide Stand, Bounded;
    BoundedFits(a0, b0, k);
    BoundedPositive(a0, b0, k);
    a := Reduce(a0, noDivide);
    b := Reduce(b0, noDivide);
    Reduced(a0, b0, x);
  }

  lemma {:induction false} BoundedPositive(a: int, b: int, k: nat)
    requires Bounded(a, b, k)
    ensures 0 <= a <= 65535 + 255 * k && 0 <= b
  {
  }

  /** All of the buffer but its last part, in blocks of NMAX bytes with one reduction each. */
  method SumBlocks(a0: int, b0: int, buf: seq<Byte>, noDivide: bool, ghost x: Sums) returns (a: int, b: int, i: nat)
    requires 0 <= a0 < 65536 && 0 <= b0 < 65536 && Stand(a0, b0, FeedAll(x, [])) && |buf| >= 16
    ensures i <= |buf| && |buf| - i < NMAX && Stand(a, b, FeedAll(x, buf[..i])) && Bounded(a, b, 0)
    ensures i == |buf| ==> 0 <= a < BASE && 0 <= b < BASE
  {
    hide Stand, FeedAll;
    a, b, i := a0, b0, 0;
    assert buf[..0] == [];
    while |buf| - i >= NMAX
      invariant i <= |buf| && Stand(a, b, FeedAll(x, buf[..i])) && Bounded(a, b, 0)
      invariant i == |buf| ==> 0 <= a < BASE && 0 <= b < BASE
    {
      ghost var start := i;
      var n := NMAX / 16;
      while n > 0
        invariant 0 <= n <= 347 && i == start + 16 * (347 - n) <= |buf|
        invariant Stand(a, b, FeedAll(x, buf[..i])) && Bounded(a, b, i - start)
      {
        a, b := AddSixteen(a, b, buf, i, x, i - start);
        i := i + 16;
        n := n - 1;
      }
      a, b := ReduceBoth(a, b, noDivide, FeedAll(x, buf[..i]), NMAX);
    }
  }

  /** The last part of the buffer, less than NMAX bytes. */
  method SumRest(a0: int, b0: int, buf: seq<Byte>, i0: nat, noDivide: bool, ghost x: Sums) returns (a: int, b: int)
    requires i0 < |buf| && |buf| - i0 < NMAX && Stand(a0, b0, FeedAll(x, buf[..i0])) && Bounded(a0, b0, 0)
    ensures Stand(a, b, FeedAll(x, buf)) && 0 <= a < BASE && 0 <= b < BASE
  {
    hide Stand, FeedAll, Bounded;
    a, b := a0, b0;
    var i := i0;
    while |buf| - i >= 16
      invariant i0 <= i <= |buf| && Stand(a, b, FeedAll(x, buf[..i])) && Bounded(a, b, i - i0)
    {
      a, b := AddSixteen(a, b, buf, i, x, i - i0);
      i := i + 16;
    }
    while i < |buf|
      invariant i0 <= i <= |buf| && Stand(a, b, FeedAll(x, buf[..i])) && Bounded(a, b, i - i0)
    {
      a, b := AddOne(a, b, buf, i, x, i - i0);
      i := i + 1;
    }
    assert buf[..i] == buf;
    a, b := ReduceBoth(a, b, noDivide, FeedAll(x, buf), i - i0);
  }

  /** A buffer of less than 16 bytes: one subtraction is enough for the first sum. */
  method SumShort(a0: int, b0: int, buf: seq<Byte>, noDivide: bool, ghost x: Sums) returns (a: int, b: int)
    requires 0 <= a0 < 65536 && 0 <= b0 < 65536 && Stand(a0, b0, FeedAll(x, [])) && |buf| < 16
    ensures Stand(a, b, FeedAll(x, buf)) && 0 <= a < BASE && 0 <= b < BASE
  {
    hide Stand, FeedAll;
    a, b := a0, b0;
    var i := 0;
    assert buf[..0] == [];
    while i < |buf|
      invariant i <= |buf| && Stand(a, b, FeedAll(x, buf[..i])) && Bounded(a, b, i)
    {
      a, b := AddOne(a, b, buf, i, x, i);
      i := i + 1;
    }
    assert buf[..i] == buf;
    TriangleIs(|buf|);
    Products(|buf|, |buf| + 1, 15, 16);
    Reduced(a, b, FeedAll(x, buf));
    ModLess(a);
    if a >= BASE { a := a - BASE; }
    b := Reduce28(b, noDivide);
  }

  lemma {:induction false} ModLess(a: int)
    requires 0 <= a < 2 * BASE
    ensures Mod(a) == if a >= BASE then a - BASE else a
  {
  }

  /** The sums a checksum stands for. */
  function SumsOf(adler: int): Sums
    requires adler >= 0
  {
    Sums(adler % 65536, adler / 65536 % 65536)
  }

  /** A checksum whose sums are reduced, as every checksum is. */
  predicate IsChecksum(adler: int) {
    0 <= adler && 0 <= adler % 65536 < BASE && 0 <= adler / 65536 < BASE
  }

  /**
   * adler32_z: the sums it returns are, up to multiples of 65521, those of feeding the bytes one by one; for a checksum
   * to go on from they are just those, and the result is the checksum of the longer message.
   */
  method Adler32(adler: int, buf: seq<Byte>, noDivide: bool) returns (r: int)
    requires 0 <= adler < WORD
    ensures 0 <= r < WORD && Stand(SumsOf(r).a, SumsOf(r).b, FeedAll(SumsOf(adler), buf))
    ensures IsChecksum(adler) ==> SumsOf(r) == FeedAll(SumsOf(adler), buf)
    ensures forall s: seq<Byte> | adler == Value(s) :: r == Value(s + buf)
  {
    hide FeedAll, Packed, Stand, Value, Mod;
    ghost var x := SumsOf(adler);
    var a, b;
    var sum2 := adler / 65536 % 65536;
    var adler1 := adler % 65536;
    if |buf| == 1 {
      FedOne(x, buf);
      a, b := AddSingle(adler1, sum2, buf[0], x);
    } else {
      a, b := SumAll(adler1, sum2, buf, noDivide, x);
      if IsChecksum(adler) { Exact(a, b, x, buf); }
    }
    r := Packed(a, b);
    PackedParts(a, b);
    forall s: seq<Byte> | adler == Value(s) ensures r == Value(s + buf) {
      ValueSums(s);
      FeedConcat(Sums(1, 0), s, buf);
      ValueIs(s + buf);
    }
  }

  lemma {:induction false} FeedConcat(x: Sums, s: seq<Byte>, t: seq<Byte>)
    ensures FeedAll(x, s + t) == FeedAll(FeedAll(x, s), t)
  {
    hide Feed;
    if t == [] {
      assert s + t == s;
    } else {
      var u := t[..|t| - 1];
      assert (s + t)[..|s + t| - 1] == s + u;
      FeedConcat(x, s, u);
    }
  }

  /** A buffer of any length but one. */
  method SumAll(a0: int, b0: int, buf: seq<Byte>, noDivide: bool, ghost x: Sums) returns (a: int, b: int)
    requires 0 <= a0 < 65536 && 0 <= b0 < 65536 && x == Sums(a0, b0)
    ensures Stand(a, b, FeedAll(x, buf)) && 0 <= a < BASE && 0 <= b < BASE
  {
    hide FeedAll, Stand;
    StandFirst(x);
    if |buf| < 16 {
      a, b := SumShort(a0, b0, buf, noDivide, x);
      return;
    }
    var i;
    a, b, i := SumBlocks(a0, b0, buf, noDivide, x);
    if i < |buf| {
      a, b := SumRest(a, b, buf, i, noDivide, x);
    }
    assert buf[..|buf|] == buf;
  }

  lemma {:induction false} StandFirst(x: Sums)
    ensures Stand(x.a, x.b, FeedAll(x, []))
  {
  }

  lemma {:induction false} Exact(a: int, b: int, x: Sums, s: seq<Byte>)
    requires 0 <= x.a < BASE && 0 <= x.b < BASE && 0 <= a < BASE && 0 <= b < BASE && Stand(a, b, FeedAll(x, s))
    ensures FeedAll(x, s) == Sums(a, b)
  {
    FedInRange(x, s);
  }

  lemma {:induction false} FedOne(x: Sums, buf: seq<Byte>)
    requires |buf| == 1
    ensures FeedAll(x, buf) == Feed(x, buf[0])
  {
    assert buf[..0] == [];
  }

  lemma {:induction false} FedInRange(x: Sums, s: seq<Byte>)
    requires 0 <= x.a < BASE && 0 <= x.b < BASE
    ensures 0 <= FeedAll(x, s).a < BASE && 0 <= FeedAll(x, s).b < BASE
  {
  }

  /** A single byte: a subtraction each. */
  method AddSingle(adler0: int, sum0: int, c: Byte, ghost x: Sums) returns (a: int, b: int)
    requires 0 <= adler0 < 65536 && 0 <= sum0 < 65536 && x == Sums(adler0, sum0)
    ensures 0 <= a < 65536 && 0 <= b < 65536 && Stand(a, b, Feed(x, c))
    ensures adler0 < BASE && sum0 < BASE ==> Sums(a, b) == Feed(x, c)
  {
    var adler, sum2 := adler0 + c, sum0;
    ModLess(adler);
    if adler >= BASE { adler := adler - BASE; }
    sum2 := sum2 + adler;
    if sum2 < 2 * BASE { ModLess(sum2); }
    SameMod(sum2);
    if sum2 >= BASE { sum2 := sum2 - BASE; }
    a, b := adler, sum2;
  }

  // ---- combining

  /** The sum of the bytes. */
  function Total(s: seq<Byte>): nat {
    if s == [] then 0 else Total(s[..|s| - 1]) + s[|s| - 1]
  }

  /** The sum of the sums of all beginnings. */
  function Cumulated(s: seq<Byte>): nat {
    if s == [] then 0 else Cumulated(s[..|s| - 1]) + Total(s)
  }

  /** The sums that a message leads to from the sums x, before any reduction. */
  lemma {:induction false} FeedIs(x: Sums, s: seq<Byte>)
    ensures Same(FeedAll(x, s).a, x.a + Total(s)) && Same(FeedAll(x, s).b, x.b + |s| * x.a + Cumulated(s))
  {
    if s == [] {
      assert |s| * x.a == 0;
    } else {
      var t, c := s[..|s| - 1], s[|s| - 1];
      FeedIs(x, t);
      assert |s| * x.a == |t| * x.a + x.a;
      StandNext(x.a + Total(t), x.b + |t| * x.a + Cumulated(t), FeedAll(x, t), c) by {
        assert Stand(x.a + Total(t), x.b + |t| * x.a + Cumulated(t), FeedAll(x, t));
      }
    }
  }

  lemma {:induction false} TotalConcat(s: seq<Byte>, t: seq<Byte>)
    ensures Total(s + t) == Total(s) + Total(t)
    ensures Cumulated(s + t) == Cumulated(s) + |t| * Total(s) + Cumulated(t)
  {
    if t == [] {
      assert s + t == s;
      assert |t| * Total(s) == 0;
    } else {
      var u := t[..|t| - 1];
      assert (s + t)[..|s + t| - 1] == s + u;
      TotalConcat(s, u);
      assert |t| * Total(s) == |u| * Total(s) + Total(s);
    }
  }

  /** MOD63 */
  method Reduce63(a0: int, noDivide: bool) returns (a: int)
    requires 0 <= a0 < 0x8000_0000_0000_0000
    ensures a == Mod(a0)
  {
    hide Same, Chop;
    if noDivide {
      var tmp := a0 / WORD;
      a := a0 % WORD;
      a := a + (tmp * 256 - tmp * 32 + tmp);
      High32(a0);
      ChoppedTwice(a, a0);
      a := Chop(a);
      a := Chop(a);
      if a >= BASE { a := a - BASE; }
    } else {
      a := a0 % BASE;
    }
  }

  lemma {:induction false} ChoppedTwice(high: int, x: int)
    requires Same(high, x) && 0 <= high < 0x100_0000_0000
    ensures var c := Chop(Chop(high)); (if c >= BASE then c - BASE else c) == Mod(x)
  {
    var c := Chop(Chop(high));
    assert Same(c, x);
  }

  lemma {:induction false} High32(a: int)
    requires 0 <= a
    ensures Same(a % WORD + 225 * (a / WORD), a)
  {
    SameMultiple(a % WORD + 225 * (a / WORD), 65551 * (a / WORD));
  }

  /** The sums of two messages, put together. */
  function Joined(x: Sums, y: Sums, len2: int): Sums {
    Sums(Mod(x.a + y.a - 1), Mod(x.b + y.b + len2 * (x.a - 1)))
  }

  /** Reduced sums that come in the shape adler32_combine_ computes them. */
  lemma {:induction false} JoinedParts(x: Sums, y: Sums, len2: int, rem: int, prod: int)
    requires rem == Mod(len2) && prod == Mod(rem * x.a)
    ensures Same(x.a + y.a + BASE - 1, x.a + y.a - 1)
    ensures Same(prod + x.b + y.b + BASE - rem, x.b + y.b + len2 * (x.a - 1))
  {
    SameMultiple(x.a + y.a - 1, 1);
    SameMod(len2);
    SameMod(rem * x.a);
    SameProduct(rem, len2, x.a);
    SameProduct(rem, len2, -1);
    SameSum(prod, len2 * x.a, -rem, -len2);
    assert len2 * (x.a - 1) == len2 * x.a - len2;
    SameMultiple(prod - rem, 1);
    SameSum(prod - rem + BASE, len2 * x.a - len2, x.b + y.b, x.b + y.b);
  }

  /** Two conditional subtractions. */
  function Fold2(x: int): int {
    var y := if x >= BASE then x - BASE else x;
    if y >= BASE then y - BASE else y
  }

  /** A conditional subtraction of twice the base, and one of the base. */
  function Fold4(x: int): int {
    var y := if x >= 2 * BASE then x - 2 * BASE else x;
    if y >= BASE then y - BASE else y
  }

  lemma {:induction false} FoldsReduce(x: int)
    ensures 0 <= x < 3 * BASE ==> Fold2(x) == Mod(x)
    ensures 0 <= x < 4 * BASE ==> Fold4(x) == Mod(x)
  {
  }

  lemma {:induction false} RemFits(rem: int, sum1: int)
    requires 0 <= rem < BASE && 0 <= sum1 < 65536
    ensures 0 <= rem * sum1 < WORD
  {
    Products(rem, sum1, 65521, 65535);
  }

  lemma {:induction false} ModBound(x: int)
    ensures 0 <= Mod(x) < BASE
  {
  }

  /** The number a message's checksum is. */
  function Value(s: seq<Byte>): int {
    FedInRange(Sums(1, 0), s);
    Packed(Checksum(s).a, Checksum(s).b)
  }

  lemma {:induction false} ValueSums(s: seq<Byte>)
    ensures Value(s) >= 0 && SumsOf(Value(s)) == Checksum(s) && IsChecksum(Value(s)) && Value(s) < WORD
  {
    hide Packed;
    FedInRange(Sums(1, 0), s);
    PackedParts(Checksum(s).a, Checksum(s).b);
  }

  /** Putting together the sums of two messages gives those of the messages put together. */
  lemma {:induction false} JoinedIs(s: seq<Byte>, t: seq<Byte>)
    ensures Joined(Checksum(s), Checksum(t), |t|) == Checksum(s + t)
  {
    hide Checksum, Total, Cumulated, Same, Mod;
    ChecksumIs(s);
    ChecksumIs(t);
    ChecksumIs(s + t);
    TotalConcat(s, t);
    var x, y, z := Checksum(s), Checksum(t), Checksum(s + t);
    SameSum(x.a, 1 + Total(s), y.a - 1, Total(t)) by { SameAdd(y.a, 1 + Total(t), -1); }
    JoinedB(x.a, x.b, y.b, |t|, Total(s), |s| + Cumulated(s), |t| + Cumulated(t));
    ReducedIs(z.a, x.a + y.a - 1, 1 + Total(s + t));
    ReducedIs(z.b, x.b + y.b + |t| * (x.a - 1), |s + t| + Cumulated(s + t));
  }

  lemma {:induction false} ChecksumIs(s: seq<Byte>)
    ensures Same(Checksum(s).a, 1 + Total(s)) && Same(Checksum(s).b, |s| + Cumulated(s))
    ensures 0 <= Checksum(s).a < BASE && 0 <= Checksum(s).b < BASE
  {
    hide Total, Cumulated, Same, Mod;
    FeedIs(Sums(1, 0), s);
    FedInRange(Sums(1, 0), s);
  }

  lemma {:induction false} JoinedB(a: int, b: int, b2: int, n: int, total: int, v: int, v2: int)
    requires Same(a, 1 + total) && Same(b, v) && Same(b2, v2)
    ensures Same(b + b2 + n * (a - 1), v + v2 + n * total)
  {
    hide Same;
    SameAdd(a, 1 + total, -1);
    SameProduct(a - 1, total, n);
    assert (a - 1) * n == n * (a - 1) && total * n == n * total;
    SameSum(b, v, b2, v2);
    SameSum(b + b2, v + v2, n * (a - 1), n * total);
  }

  lemma {:induction false} ReducedIs(r: int, x: int, y: int)
    requires 0 <= r < BASE && Same(r, y) && Same(x, y)
    ensures r == Mod(x)
  {
  }

  /** adler32_combine_: its four conditional subtractions reduce both sums of checksums fully. */
  method Adler32Combine(adler1: int, adler2: int, len2_0: int, noDivide: bool) returns (r: int)
    requires 0 <= adler1 < WORD && 0 <= adler2 < WORD && len2_0 < 0x8000_0000_0000_0000
    ensures len2_0 < 0 ==> r == 0xffff_ffff
    ensures len2_0 >= 0 && IsChecksum(adler1) && IsChecksum(adler2) ==>
      var z := Joined(SumsOf(adler1), SumsOf(adler2), len2_0); z.a >= 0 && z.b >= 0 && r == Packed(z.a, z.b)
    ensures forall s: seq<Byte>, t: seq<Byte> | adler1 == Value(s) && adler2 == Value(t) && len2_0 == |t| ::
      r == Value(s + t)
  {
    hide Packed, Mod, Same, Value, Checksum;
    if len2_0 < 0 { return 0xffff_ffff; }
    var rem := Reduce63(len2_0, noDivide);
    ModBound(len2_0);
    var sum1 := adler1 % 65536;
    var sum2 := rem * sum1;
    RemFits(rem, sum1);
    ModBound(sum2);
    sum2 := Reduce(sum2, noDivide);
    ghost var prod := sum2;
    sum1 := sum1 + (adler2 % 65536 + BASE - 1);
    sum2 := sum2 + (adler1 / 65536 % 65536 + adler2 / 65536 % 65536 + BASE - rem);
    ghost var s1, s2 := sum1, sum2;
    if sum1 >= BASE { sum1 := sum1 - BASE; }
    if sum1 >= BASE { sum1 := sum1 - BASE; }
    if sum2 >= BASE * 2 { sum2 := sum2 - BASE * 2; }
    if sum2 >= BASE { sum2 := sum2 - BASE; }
    r := Packed(sum1, sum2);
    if IsChecksum(adler1) && IsChecksum(adler2) {
      CombinedSums(adler1, adler2, len2_0, rem, prod, s1, s2);
      assert sum1 == Fold2(s1) && sum2 == Fold4(s2);
    }
    forall s: seq<Byte>, t: seq<Byte> | adler1 == Value(s) && adler2 == Value(t) && len2_0 == |t|
      ensures r == Value(s + t)
    {
      ValueSums(s);
      ValueSums(t);
      JoinedIs(s, t);
      ValueIs(s + t);
    }
  }

  lemma {:induction false} ValueIs(s: seq<Byte>)
    ensures Checksum(s).a >= 0 && Checksum(s).b >= 0 && Value(s) == Packed(Checksum(s).a, Checksum(s).b)
  {
    hide Packed;
    FedInRange(Sums(1, 0), s);
  }

  lemma {:induction false} CombinedSums(adler1: int, adler2: int, len2: int, rem: int, prod: int, s1: int, s2: int)
    requires IsChecksum(adler1) && IsChecksum(adler2) && rem == Mod(len2) && prod == Mod(rem * (adler1 % 65536))
    requires s1 == adler1 % 65536 + (adler2 % 65536 + BASE - 1)
    requires s2 == prod + (adler1 / 65536 % 65536 + adler2 / 65536 % 65536 + BASE - rem)
    ensures Joined(SumsOf(adler1), SumsOf(adler2), len2) == Sums(Fold2(s1), Fold4(s2)) && Fold2(s1) >= 0 &&
      Fold4(s2) >= 0
  {
    hide Mod, Same, Fold2, Fold4;
    ModBound(len2);
    ModBound(rem * (adler1 % 65536));
    JoinedParts(SumsOf(adler1), SumsOf(adler2), len2, rem, prod);
    FoldsReduce(s1);
    FoldsReduce(s2);
    ModBound(s1);
    ModBound(s2);
    SameIs(s1, adler1 % 65536 + adler2 % 65536 - 1);
    SameIs(s2, adler1 / 65536 % 65536 + adler2 / 65536 % 65536 + len2 * (adler1 % 65536 - 1));
  }

  lemma {:induction false} SameIs(x: int, y: int)
    requires Same(x, y)
    ensures Mod(x) == Mod(y)
  {
  }
}
