/** Reading an array of 32-bit words as bytes, least significant first, as the sorter does with arr2. */
module ByteView {
  import opened Bits
  import opened Rotations

  function Scale(k: int): int
    requires 0 <= k < 4
  {
    if k == 0 then 1 else if k == 1 then 0x100 else if k == 2 then 0x1_0000 else 0x100_0000
  }

  /** Byte i of the words w. */
  function ByteAt(w: seq<int>, i: int): Byte
    requires 0 <= i < 4 * |w|
  {
    (w[i / 4] / Scale(i % 4)) % 256
  }

  function BytesOf(w: seq<int>, n: nat): (r: seq<Byte>)
    requires n <= 4 * |w|
    ensures |r| == n
  {
    seq(n, i requires 0 <= i < n => ByteAt(w, i))
  }

  function ReadByte(a: array<int>, i: int): (c: Byte)
    requires 0 <= i < 4 * a.Length
    reads a
    ensures c == ByteAt(a[..], i)
  {
    (a[i / 4] / Scale(i % 4)) % 256
  }

  function Digit(v: int, k: int): Byte
    requires 0 <= k < 4
  {
    (v / Scale(k)) % 256
  }

  /** v with byte k replaced by c. */
  function WithByte(v: int, k: int, c: Byte): int
    requires 0 <= k < 4
  {
    v + (c - Digit(v, k)) * Scale(k)
  }

  lemma {:induction false} WithByteDigits(v: int, k: int, c: Byte)
    requires 0 <= k < 4
    ensures forall j | 0 <= j < 4 :: Digit(WithByte(v, k, c), j) == if j == k then c else Digit(v, j)
  {
    var d0, q1 := v % 256, v / 256;
    var d1, q2 := q1 % 256, q1 / 256;
    var d2, q3 := q2 % 256, q2 / 256;
    var d3, top := q3 % 256, q3 / 256;
    FourDigits(v, d0, d1, d2, d3, top);
    assert v == d0 + 256 * d1 + 0x1_0000 * d2 + 0x100_0000 * d3 + 0x1_0000_0000 * top;
    var e0, e1, e2, e3 := if k == 0 then c else d0, if k == 1 then c else d1, if k == 2 then c else d2, if k == 3 then c
      else d3;
    var u := WithByte(v, k, c);
    assert u == e0 + 256 * e1 + 0x1_0000 * e2 + 0x100_0000 * e3 + 0x1_0000_0000 * top;
    FourDigits(u, e0, e1, e2, e3, top);
  }

  lemma {:induction false} FourDigits(u: int, e0: Byte, e1: Byte, e2: Byte, e3: Byte, top: int)
    requires u == e0 + 256 * e1 + 0x1_0000 * e2 + 0x100_0000 * e3 + 0x1_0000_0000 * top
    ensures Digit(u, 0) == e0 && Digit(u, 1) == e1 && Digit(u, 2) == e2 && Digit(u, 3) == e3
  {
    var q1 := e1 + 256 * e2 + 0x1_0000 * e3 + 0x100_0000 * top;
    var q2 := e2 + 256 * e3 + 0x1_0000 * top;
    var q3 := e3 + 256 * top;
    DivModUnique(u, 0x100, q1, e0);
    DivModUnique(u, 0x1_0000, q2, e0 + 256 * e1);
    DivModUnique(u, 0x100_0000, q3, e0 + 256 * e1 + 0x1_0000 * e2);
    DivModUnique(q1, 0x100, q2, e1);
    DivModUnique(q2, 0x100, q3, e2);
    DivModUnique(q3, 0x100, top, e3);
  }

  /** Storing a byte changes that byte and no other. */
  method SetByte(a: array<int>, i: int, c: Byte)
    requires 0 <= i < 4 * a.Length
    modifies a
    ensures forall j | 0 <= j < 4 * a.Length :: ByteAt(a[..], j) == if j == i then c else old(ByteAt(a[..], j))
  {
    ghost var w: seq<int> := a[..];
    WithByteDigits(a[i / 4], i % 4, c);
    a[i / 4] := WithByte(a[i / 4], i % 4, c);
    assert a[..] == w[i / 4 := WithByte(w[i / 4], i % 4, c)];
    forall j | 0 <= j < 4 * |w| ensures ByteAt(a[..], j) == if j == i then c else ByteAt(w, j) {
      assert j == 4 * (j / 4) + j % 4;
      assert ByteAt(a[..], j) == Digit(a[..][j / 4], j % 4);
      assert ByteAt(w, j) == Digit(w[j / 4], j % 4);
    }
  }
}
