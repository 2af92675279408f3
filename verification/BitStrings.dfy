/** Numbers as strings of bits, most significant first, and what reading them back yields. */
module BitStrings {
  import opened Bits

  /** The outcome of a parse: a value and the bits behind it, an error, or too few bits so far. */
  datatype Parse<+T> = Done(value: T, rest: seq<bool>) | Bad | NeedMore {
    predicate IsFailure() {
      !Done?
    }

    function PropagateFailure<U>(): Parse<U>
      requires IsFailure()
    {
      if Bad? then Bad else NeedMore
    }

    function Extract(): (T, seq<bool>)
      requires Done?
    {
      (value, rest)
    }
  }

  /** The n low bits of v. */
  function BitsOf(v: nat, n: nat): (r: seq<bool>)
    ensures |r| == n
  {
    if n == 0 then []
    else [(v / Pow2(n - 1)) % 2 == 1] + BitsOf(v % Pow2(n - 1), n - 1)
  }

  /** The number a bit string stands for. */
  function Value(bs: seq<bool>): (v: nat)
    ensures v < Pow2(|bs|)
  {
    if bs == [] then 0 else 2 * Value(bs[..|bs| - 1]) + if bs[|bs| - 1] then 1 else 0
  }

  /** GET_BITS: the next n bits as a number. */
  function ReadBits(bits: seq<bool>, n: nat): (r: Parse<nat>)
    ensures r.Done? ==> |r.rest| == |bits| - n && r.value < Pow2(n)
  {
    if |bits| < n then NeedMore else Done(Value(bits[..n]), bits[n..])
  }

  lemma {:induction false} DivideTop(z: nat, low: nat, p: nat, q: nat)
    requires p > 0 && low < q
    ensures p * q > 0
    ensures (z * q + low) / (p * q) == z / p && (z * q + low) % (p * q) == (z % p) * q + low
  {
    var bit, z' := z / p, z % p;
    assert p * q > 0 by { MulLe(1, p, q); }
    assert z == p * bit + z';
    Distribute(bit, p, z', q);
    BelowProduct(z', low, p, q);
    DivModUnique(z * q + low, p * q, bit, z' * q + low);
  }

  lemma {:induction false} QuotientBelowTwo(z: nat, p: nat)
    requires z < 2 * p
    ensures z / p < 2
  {
    if z < p {
      DivModUnique(z, p, 0, z);
    } else {
      DivModUnique(z, p, 1, z - p);
    }
  }

  lemma {:induction false} TopBit(z: nat, low: nat, n: nat, k: nat)
    requires 0 < n && z < Pow2(n) && low < Pow2(k)
    ensures var v, p, m := z * Pow2(k) + low, Pow2(n - 1), n - 1 + k;
            z / p < 2 && v / Pow2(m) == z / p && v % Pow2(m) == (z % p) * Pow2(k) + low
  {
    Pow2Sum(n - 1, k);
    DivideTop(z, low, Pow2(n - 1), Pow2(k));
    QuotientBelowTwo(z, Pow2(n - 1));
  }

  /** The bits of z * 2^k + low are those of z, then those of low. */
  lemma {:induction false} BitsSplit(z: nat, low: nat, n: nat, k: nat)
    requires z < Pow2(n) && low < Pow2(k)
    ensures BitsOf(z * Pow2(k) + low, n + k) == BitsOf(z, n) + BitsOf(low, k)
    decreases n
  {
    if n > 0 {
      TopBit(z, low, n, k);
      BitsSplit(z % Pow2(n - 1), low, n - 1, k);
    }
  }

  lemma {:induction false} Distribute(a: int, p: int, c: int, q: int)
    ensures (a * p + c) * q == a * (p * q) + c * q
  {
  }

  lemma {:induction false} BelowProduct(z: nat, low: nat, p: nat, q: nat)
    requires z < p && low < q
    ensures z * q + low < p * q
  {
    assert (z + 1) * q <= p * q by { MulLe(z + 1, p, q); }
  }

  lemma {:induction false} QuotientAtLeast(z: nat, low: nat, p: nat, x: nat)
    requires z * p + low >= x * p && low < p
    ensures z >= x
  {
    assert (z + 1) * p == z * p + p;
    if z < x { MulLe(z + 1, x, p); }
  }

  lemma {:induction false} MulLe(a: int, b: int, c: nat)
    requires a <= b
    ensures a * c <= b * c
  {
  }

  lemma {:induction false} BitsAppend(z: nat, bit: nat, n: nat)
    requires z < Pow2(n) && bit < 2
    ensures BitsOf(2 * z + bit, n + 1) == BitsOf(z, n) + [bit == 1]
  {
    assert Pow2(1) == 2;
    BitsSplit(z, bit, n, 1);
    assert BitsOf(bit, 1) == [bit == 1];
  }

  lemma {:induction false} ValueRoundTrip(v: nat, n: nat)
    requires v < Pow2(n)
    ensures Value(BitsOf(v, n)) == v
    decreases n
  {
    if n > 0 {
      BitsAppend(v / 2, v % 2, n - 1);
      var r := BitsOf(v, n);
      assert r == BitsOf(v / 2, n - 1) + [v % 2 == 1];
      assert r[..n - 1] == BitsOf(v / 2, n - 1);
      ValueRoundTrip(v / 2, n - 1);
    }
  }

  lemma {:induction false} BitsRoundTrip(bs: seq<bool>)
    ensures BitsOf(Value(bs), |bs|) == bs
    decreases |bs|
  {
    if bs != [] {
      var n := |bs| - 1;
      BitsRoundTrip(bs[..n]);
      BitsAppend(Value(bs[..n]), if bs[n] then 1 else 0, n);
      assert bs == bs[..n] + [bs[n]];
    }
  }

  lemma {:induction false} ValueSplit(bs: seq<bool>, n: nat)
    requires n <= |bs|
    ensures Value(bs) == Value(bs[..n]) * Pow2(|bs| - n) + Value(bs[n..])
    decreases |bs|
  {
    if n == |bs| {
      assert bs[..n] == bs && bs[n..] == [];
    } else {
      var m := |bs| - 1;
      var s := bs[..m];
      ValueSplit(s, n);
      assert s[..n] == bs[..n] && s[n..] == bs[n..][..m - n];
      DoubleSum(Value(bs[..n]), Pow2(m - n), Value(s[n..]));
    }
  }

  lemma {:induction false} DoubleSum(a: int, p: int, c: int)
    ensures 2 * (a * p + c) == a * (2 * p) + 2 * c
  {
  }

  /** What was written is what is read. */
  lemma {:induction false} ReadBack(v: nat, n: nat, rest: seq<bool>)
    requires v < Pow2(n)
    ensures ReadBits(BitsOf(v, n) + rest, n) == Done(v, rest)
  {
    var bits := BitsOf(v, n) + rest;
    assert bits[..n] == BitsOf(v, n) && bits[n..] == rest;
    ValueRoundTrip(v, n);
  }
}
