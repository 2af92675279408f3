/** Combining checksums: the operator "this many zero bits" as a matrix of 32 columns over GF(2), squared repeatedly. */
module CrcCombine {
  import opened Rotations
  import opened ZlibCrc

  const DIM: nat := 32

  function Twice(c: bv32): bv32 { c << 1 }

  /** 1 shifted left k places. */
  function Unit(k: nat): bv32 {
    if k == 0 then 1 else Twice(Unit(k - 1))
  }

  /** v shifted left k places. */
  function Up(v: bv32, k: nat): bv32 {
    if k == 0 then v else Twice(Up(v, k - 1))
  }

  /** The columns of m picked by the bits of v, the lowest bit picking column j. */
  function Picked(m: seq<bv32>, v: bv32, j: nat): bv32
    decreases |m| - j
  {
    if v == 0 || j >= |m| then 0
    else if Odd(v) then Xor(m[j], Picked(m, Half(v), j + 1))
    else Picked(m, Half(v), j + 1)
  }

  /** v has at most k bits. */
  predicate Fits(v: bv32, k: nat)
    decreases k
  {
    if k == 0 then v == 0 else Fits(Half(v), k - 1)
  }

  function Down(v: bv32, k: nat): bv32
    decreases k
  {
    if k == 0 then v else Down(Half(v), k - 1)
  }

  lemma {:induction false} DownSum(v: bv32, i: nat, k: nat)
    ensures Down(v, i + k) == Down(Down(v, i), k)
    decreases i
  {
    hide Half;
    if i > 0 { DownSum(Half(v), i - 1, k); }
  }

  lemma {:induction false} FitsWhenDown(v: bv32, k: nat)
    ensures Fits(v, k) <==> Down(v, k) == 0
    decreases k
  {
    hide Half;
    if k > 0 { FitsWhenDown(Half(v), k - 1); }
  }

  lemma {:induction false} DownStep(v: bv32, k: nat)
    requires k > 0
    ensures Down(v, k) == Down(Half(v), k - 1)
  {
  }

  lemma {:induction false} DownFour(v: bv32)
    ensures Down(v, 4) == Half(Half(Half(Half(v))))
  {
    hide *;
    var a := Half(v);
    var b := Half(a);
    var c := Half(b);
    DownStep(v, 4);
    DownStep(a, 3);
    DownStep(b, 2);
    DownStep(c, 1);
    DownNone(Half(c));
  }

  lemma {:induction false} DownNone(v: bv32)
    ensures Down(v, 0) == v
  {
  }

  lemma {:induction false} DownByte(v: bv32)
    ensures Down(v, 8) == ByteDown(v)
  {
    hide Down;
    var a := Half(Half(Half(Half(v))));
    DownFour(v);
    DownFour(a);
    DownSum(v, 4, 4);
  }

  function ByteDown(v: bv32): bv32 { v >> 8 }

  lemma {:induction false} ShiftedOut(v: bv32)
    ensures ByteDown(ByteDown(ByteDown(ByteDown(v)))) == 0
  {
  }

  lemma {:induction false} AllFit(v: bv32)
    ensures Fits(v, DIM)
  {
    hide ByteDown, Down, Fits;
    var a := ByteDown(v);
    var b := ByteDown(a);
    var c := ByteDown(b);
    DownByte(v);
    DownByte(a);
    DownByte(b);
    DownByte(c);
    ShiftedOut(v);
    DownSum(v, 8, 8);
    DownSum(v, 16, 8);
    DownSum(v, 24, 8);
    FitsWhenDown(v, 32);
  }

  lemma {:induction false} FitsNone(v: bv32)
    ensures Fits(v, 0) <==> v == 0
  {
  }

  lemma {:induction false} FitsHalf(v: bv32, k: nat)
    requires Fits(v, k) && k > 0
    ensures Fits(Half(v), k - 1)
  {
  }

  /** m is the operator that feeds n zero bits. */
  ghost predicate IsOperator(m: seq<bv32>, n: nat) {
    |m| == DIM && forall k | 0 <= k < DIM :: m[k] == Zeros(Unit(k), n)
  }

  lemma {:induction false} TwiceXor(a: bv32, b: bv32)
    ensures Twice(Xor(a, b)) == Xor(Twice(a), Twice(b))
  {
  }

  lemma {:induction false} UpXor(a: bv32, b: bv32, k: nat)
    ensures Up(Xor(a, b), k) == Xor(Up(a, k), Up(b, k))
  {
    hide Twice, Xor;
    if k > 0 {
      UpXor(a, b, k - 1);
      TwiceXor(Up(a, k - 1), Up(b, k - 1));
    }
  }

  lemma {:induction false} SplitLow(v: bv32)
    ensures v == Xor(if Odd(v) then 1 else 0, Twice(Half(v)))
  {
  }

  lemma {:induction false} UpTwice(v: bv32, k: nat)
    ensures Up(Twice(v), k) == Up(v, k + 1)
  {
    hide Twice;
    if k > 0 { UpTwice(v, k - 1); }
  }

  lemma {:induction false} UpZero(k: nat)
    ensures Up(0, k) == 0 && Up(1, k) == Unit(k)
  {
    if k > 0 { UpZero(k - 1); }
  }

  /** Every register value is the sum of the unit vectors its bits pick. */
  lemma {:induction false} UpSplit(v: bv32, k: nat)
    ensures Up(v, k) == Xor(if Odd(v) then Unit(k) else 0, Up(Half(v), k + 1))
  {
    hide *;
    SplitLow(v);
    UpXor(if Odd(v) then 1 else 0, Twice(Half(v)), k);
    UpTwice(Half(v), k);
    UpZero(k);
  }

  lemma {:induction false} PickedStep(m: seq<bv32>, v: bv32, j: nat)
    requires j < |m|
    ensures Picked(m, v, j) == Xor(if Odd(v) then m[j] else 0, Picked(m, Half(v), j + 1))
  {
    hide Odd, Half, Xor;
    HalfZero();
    XorZero(Picked(m, Half(v), j + 1));
  }

  lemma {:induction false} HalfZero()
    ensures Half(0) == 0 && !Odd(0)
  {
  }

  lemma {:induction false} PickedNone(m: seq<bv32>, j: nat)
    ensures Picked(m, 0, j) == 0
  {
  }

  lemma {:induction false} OperatorColumn(m: seq<bv32>, n: nat, k: nat)
    requires IsOperator(m, n) && k < DIM
    ensures |m| == DIM && m[k] == Zeros(Unit(k), n)
  {
  }

  /** A product with the operator feeds its zero bits to any register value. */
  lemma {:induction false} OperatorApplies(m: seq<bv32>, n: nat, v: bv32, j: nat)
    requires IsOperator(m, n) && j <= DIM && Fits(v, DIM - j)
    ensures Picked(m, v, j) == Zeros(Up(v, j), n)
    decreases DIM - j
  {
    hide *;
    if j == DIM {
      FitsNone(v);
      PickedNone(m, j);
      UpZero(j);
      ZerosOfZero(n);
    } else {
      OperatorColumn(m, n, j);
      FitsHalf(v, DIM - j);
      OperatorApplies(m, n, Half(v), j + 1);
      PickedStep(m, v, j);
      UpSplit(v, j);
      var low := if Odd(v) then Unit(j) else 0;
      ZerosLinear(low, Up(Half(v), j + 1), n);
      ZerosOfZero(n);
    }
  }

  lemma {:induction false} Times(m: seq<bv32>, n: nat, v: bv32)
    requires IsOperator(m, n)
    ensures Picked(m, v, 0) == Zeros(v, n)
  {
    hide Fits, Picked, Zeros, Up, IsOperator;
    AllFit(v);
    UpNone(v);
    OperatorApplies(m, n, v, 0);
  }

  lemma {:induction false} UpNone(v: bv32)
    ensures Up(v, 0) == v
  {
  }

  /** gf2_matrix_times */
  method MatrixTimes(mat: array<bv32>, vec: bv32) returns (sum: bv32)
    requires mat.Length == DIM
    ensures sum == Picked(mat[..], vec, 0)
  {
    hide Half, Odd, Xor;
    ghost var m := mat[..];
    var v, j := vec, 0;
    sum := 0;
    AllFit(vec);
    XorZero(Picked(m, vec, 0));
    while v != 0
      invariant j <= DIM && Fits(v, DIM - j)
      invariant mat[..] == m && |m| == DIM
      invariant Picked(m, vec, 0) == Xor(sum, Picked(m, v, j))
      decreases DIM - j
    {
      PickedTurn(m, sum, v, j);
      if Odd(v) {
        sum := Xor(sum, mat[j]);
      }
      v := Half(v);
      j := j + 1;
    }
    PickedNone(m, j);
    XorZero(sum);
  }

  lemma {:induction false} PickedTurn(m: seq<bv32>, sum: bv32, v: bv32, j: nat)
    requires |m| == DIM && j <= DIM && v != 0 && Fits(v, DIM - j)
    ensures j < DIM && Fits(Half(v), DIM - j - 1)
    ensures Odd(v) ==> Xor(sum, Picked(m, v, j)) == Xor(Xor(sum, m[j]), Picked(m, Half(v), j + 1))
    ensures !Odd(v) ==> Xor(sum, Picked(m, v, j)) == Xor(sum, Picked(m, Half(v), j + 1))
  {
    hide Half, Odd, Xor;
    XorAssoc(sum, m[j], Picked(m, Half(v), j + 1));
  }

  /** gf2_matrix_square */
  method MatrixSquare(square: array<bv32>, mat: array<bv32>)
    requires square.Length == DIM && mat.Length == DIM && square != mat
    modifies square
    ensures forall k | 0 <= k < DIM :: square[k] == Picked(mat[..], mat[k], 0)
  {
    hide Picked;
    var n := 0;
    while n < DIM
      invariant n <= DIM
      invariant forall k | 0 <= k < n :: square[k] == Picked(mat[..], mat[k], 0)
    {
      square[n] := MatrixTimes(mat, mat[n]);
      n := n + 1;
    }
  }

  /** The square of the operator for n zero bits is the one for 2 * n. */
  lemma {:induction false} SquareDoubles(m: seq<bv32>, s: seq<bv32>, n: nat)
    requires IsOperator(m, n) && |s| == DIM
    requires forall k | 0 <= k < DIM :: s[k] == Picked(m, m[k], 0)
    ensures IsOperator(s, 2 * n)
  {
    hide Picked, Zeros, Unit;
    forall k | 0 <= k < DIM
      ensures s[k] == Zeros(Unit(k), 2 * n)
    {
      Times(m, n, m[k]);
      ZerosSum(Unit(k), n, n);
    }
  }

  /** One squaring, as crc32_combine_ uses it. */
  method Doubled(square: array<bv32>, mat: array<bv32>, ghost n: nat)
    requires square.Length == DIM && mat.Length == DIM && square != mat
    requires IsOperator(mat[..], n)
    modifies square
    ensures IsOperator(square[..], 2 * n)
  {
    hide Picked, IsOperator;
    MatrixSquare(square, mat);
    SquareDoubles(mat[..], square[..], n);
  }

  lemma {:induction false} FitsMore(v: bv32, k: nat, n: nat)
    requires Fits(v, k) && k <= n
    ensures Fits(v, n)
    decreases n
  {
    hide Half, Odd;
    HalfZero();
    if k > 0 {
      FitsMore(Half(v), k - 1, n - 1);
    } else if n > 0 {
      FitsMore(v, 0, n - 1);
    }
  }

  function SevenDown(w: bv32): bv32 { w >> 7 }

  lemma {:induction false} DownSeven(w: bv32)
    ensures Down(w, 7) == SevenDown(w)
  {
    hide Down;
    var a := Half(Half(Half(Half(w))));
    DownFour(w);
    DownStep(a, 3);
    DownStep(Half(a), 2);
    DownStep(Half(Half(a)), 1);
    DownNone(Half(Half(Half(a))));
    DownSum(w, 4, 3);
  }

  lemma {:induction false} TopClear(v: bv32)
    requires SevenDown(ByteDown(ByteDown(ByteDown(v)))) == 0
    ensures Half(Twice(v)) == v
  {
  }

  /** A value of at most 31 bits loses none when doubled. */
  lemma {:induction false} HalfTwice(v: bv32)
    requires Fits(v, 31)
    ensures Half(Twice(v)) == v
  {
    hide ByteDown, SevenDown, Down, Fits, Half, Twice;
    var a := ByteDown(v);
    var b := ByteDown(a);
    DownByte(v);
    DownByte(a);
    DownByte(b);
    DownSeven(ByteDown(b));
    DownSum(v, 8, 8);
    DownSum(v, 16, 8);
    DownSum(v, 24, 7);
    FitsWhenDown(v, 31);
    TopClear(v);
  }

  lemma {:induction false} UnitFits(k: nat)
    requires k < 31
    ensures Fits(Unit(k), k + 1) && Half(Twice(Unit(k))) == Unit(k)
  {
    if k == 0 {
      OneFits();
    } else {
      hide Half, Twice, Fits;
      UnitFits(k - 1);
      FitsTwice(Unit(k - 1), k);
    }
    hide *;
    FitsMore(Unit(k), k + 1, 31);
    HalfTwice(Unit(k));
  }

  lemma {:induction false} OneFits()
    ensures Unit(0) == 1 && Fits(Unit(0), 1)
  {
    assert Half(1) == 0;
    assert Fits(0, 0);
  }

  lemma {:induction false} FitsTwice(v: bv32, k: nat)
    requires Fits(v, k) && Half(Twice(v)) == v
    ensures Fits(Twice(v), k + 1)
  {
  }

  lemma {:induction false} TwiceEven(v: bv32)
    ensures !Odd(Twice(v))
  {
  }

  /** The first columns of the operator for one zero bit. */
  lemma {:induction false} ZeroBitOfUnit(k: nat)
    requires 0 < k < DIM
    ensures Zeros(Unit(k), 1) == Unit(k - 1)
  {
    hide Half, Odd, Twice, Xor;
    UnitFits(k - 1);
    TwiceEven(Unit(k - 1));
    assert Zeros(Unit(k), 0) == Unit(k);
  }

  lemma {:induction false} ZeroBitOfOne()
    ensures Zeros(Unit(0), 1) == CRC_POLY
  {
    assert Zeros(Unit(0), 0) == 1;
    assert ZeroBit(1) == CRC_POLY;
  }

  /** Fills odd with the operator for one zero bit. */
  method OneZeroBit(odd: array<bv32>)
    requires odd.Length == DIM
    modifies odd
    ensures IsOperator(odd[..], 1)
  {
    hide Zeros, Twice;
    odd[0] := CRC_POLY;
    ZeroBitOfOne();
    var row: bv32 := 1;
    var n := 1;
    while n < DIM
      invariant 1 <= n <= DIM
      invariant row == Unit(n - 1)
      invariant forall k | 0 <= k < n :: odd[k] == Zeros(Unit(k), 1)
    {
      ZeroBitOfUnit(n);
      odd[n] := row;
      row := Twice(row);
      n := n + 1;
    }
  }

  /** What is left to apply: p zero bits for each unit of len. */
  ghost predicate Remains(start: bv32, total: nat, crc: bv32, p: nat, len: nat) {
    Zeros(start, total) == Zeros(crc, p * len)
  }

  /** Using the lowest bit of len. */
  lemma {:induction false} BitUsed(start: bv32, total: nat, crc: bv32, p: nat, len: nat)
    requires Remains(start, total, crc, p, len)
    ensures Remains(start, total, if len % 2 == 1 then Zeros(crc, p) else crc, 2 * p, len / 2)
  {
    hide Zeros;
    var h, b := len / 2, len % 2;
    assert p * len == b * p + (2 * p) * h by {
      assert len == 2 * h + b;
      assert p * (2 * h + b) == p * b + p * (2 * h);
    }
    ZerosSum(crc, b * p, (2 * p) * h);
    if b == 1 { assert b * p == p; } else { assert b * p == 0; ZerosNone(crc); }
  }

  lemma {:induction false} NothingRemains(start: bv32, total: nat, crc: bv32, p: nat)
    requires Remains(start, total, crc, p, 0)
    ensures crc == Zeros(start, total)
  {
    assert p * 0 == 0;
    ZerosNone(crc);
  }

  lemma {:induction false} AllRemains(crc: bv32, len: nat)
    ensures Remains(crc, 8 * len, crc, 8, len)
  {
  }

  /** One turn of crc32_combine_'s loop: the next square, applied when the lowest bit of len asks for it. */
  method Turn(square: array<bv32>, mat: array<bv32>, crc: bv32, len: nat, ghost start: bv32, ghost total: nat,
    ghost p: nat)
    returns (crc': bv32, len': nat)
    requires square.Length == DIM && mat.Length == DIM && square != mat
    requires IsOperator(mat[..], p) && Remains(start, total, crc, 2 * p, len)
    modifies square
    ensures IsOperator(square[..], 2 * p) && len' == len / 2
    ensures Remains(start, total, crc', 4 * p, len')
  {
    hide *;
    Doubled(square, mat, p);
    crc' := crc;
    if len % 2 == 1 {
      crc' := MatrixTimes(square, crc);
      Times(square[..], 2 * p, crc);
    }
    len' := len / 2;
    BitUsed(start, total, crc, 2 * p, len);
    assert 2 * (2 * p) == 4 * p;
  }

  /** crc32_combine_ gives the checksum of a concatenation from the checksums of its parts and the second's length. */
  method Crc32Combine(crc1: bv32, crc2: bv32, len2: int) returns (crc: bv32)
    ensures len2 <= 0 ==> crc == crc1
    ensures len2 > 0 ==> crc == Xor(Zeros(crc1, 8 * len2), crc2)
    ensures forall s: seq<Byte>, t: seq<Byte> | crc1 == Crc32(s) && crc2 == Crc32(t) && |t| == len2 ::
      crc == Crc32(s + t)
  {
    hide *;
    if len2 <= 0 {
      crc := crc1;
      forall s: seq<Byte>, t: seq<Byte> | crc1 == Crc32(s) && crc2 == Crc32(t) && |t| == len2
        ensures crc == Crc32(s + t)
      {
        CombinesChecksums(crc, s, t);
      }
      return;
    }
    var even, odd := new bv32[DIM], new bv32[DIM];
    OneZeroBit(odd);
    Doubled(even, odd, 1);
    Doubled(odd, even, 2);
    crc := crc1;
    var len: nat := len2;
    ghost var p: nat := 4;
    AllRemains(crc1, len2);
    while true
      invariant even != odd && even.Length == DIM && odd.Length == DIM && fresh(even) && fresh(odd)
      invariant len > 0
      invariant IsOperator(odd[..], p) && Remains(crc1, 8 * len2, crc, 2 * p, len)
      decreases len
    {
      crc, len := Turn(even, odd, crc, len, crc1, 8 * len2, p);
      p := 2 * p;
      if len == 0 {
        break;
      }
      crc, len := Turn(odd, even, crc, len, crc1, 8 * len2, p);
      p := 2 * p;
      if len == 0 {
        break;
      }
    }
    NothingRemains(crc1, 8 * len2, crc, 2 * p);
    crc := Xor(crc, crc2);
    forall s: seq<Byte>, t: seq<Byte> | crc1 == Crc32(s) && crc2 == Crc32(t) && |t| == len2
      ensures crc == Crc32(s + t)
    {
      CombinesChecksums(crc, s, t);
    }
  }

  /** The same on checksums of messages. */
  lemma {:induction false} CombinesChecksums(crc: bv32, s: seq<Byte>, t: seq<Byte>)
    requires t == [] ==> crc == Crc32(s)
    requires t != [] ==> crc == Xor(Zeros(Crc32(s), 8 * |t|), Crc32(t))
    ensures crc == Crc32(s + t)
  {
    hide *;
    if t == [] {
      assert s + t == s;
    } else {
      CrcOfConcat(s, t);
    }
  }
}
