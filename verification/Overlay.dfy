/**
 * The main sorter's view of arr2: the block's bytes with an overshoot, and 16-bit quadrants further on in the same
 * memory.
 */
module Overlay {
  import opened Rotations
  import opened ByteView

  const N_OVERSHOOT := 34

  /** The 16-bit number at byte q0 + 2 * k, low byte first. */
  function QuadAt(w: seq<int>, q0: int, k: int): (r: int)
    requires 0 <= q0 && 0 <= k && q0 + 2 * k + 1 < 4 * |w|
    ensures 0 <= r < 0x1_0000
  {
    ByteAt(w, q0 + 2 * k) + 256 * ByteAt(w, q0 + 2 * k + 1)
  }

  /** The words w hold the bytes blk and, from byte q0 on, the quadrants quad. */
  ghost predicate Shows(w: seq<int>, q0: int, blk: seq<Byte>, quad: seq<int>) {
    && |blk| == |quad| <= q0 && q0 + 2 * |quad| <= 4 * |w|
    && (forall k | 0 <= k < |blk| :: ByteAt(w, k) == blk[k])
    && (forall k | 0 <= k < |quad| :: QuadAt(w, q0, k) == quad[k])
  }

  ghost function QuadsOf(w: seq<int>, q0: int, n: nat): (r: seq<int>)
    requires 0 <= q0 && q0 + 2 * n <= 4 * |w|
    ensures |r| == n && forall k | 0 <= k < n :: r[k] == QuadAt(w, q0, k)
  {
    seq(n, k requires 0 <= k < n => QuadAt(w, q0, k))
  }

  /** Byte k of the block, overshoot included. */
  function BlockByte(a: array<int>, k: int): (c: Byte)
    requires 0 <= k < 4 * a.Length
    reads a
    ensures c == ByteAt(a[..], k)
  {
    ReadByte(a, k)
  }

  /** Quadrant k, from its two bytes. */
  function Quadrant(a: array<int>, q0: int, k: int): (r: int)
    requires 0 <= q0 && 0 <= k && q0 + 2 * k + 1 < 4 * a.Length
    reads a
    ensures r == QuadAt(a[..], q0, k)
  {
    ReadByte(a, q0 + 2 * k) + 256 * ReadByte(a, q0 + 2 * k + 1)
  }

  lemma {:induction false} QuadKept(w: seq<int>, w': seq<int>, q0: int, k: int)
    requires |w| == |w'| && 0 <= q0 && 0 <= k && q0 + 2 * k + 1 < 4 * |w|
    requires ByteAt(w, q0 + 2 * k) == ByteAt(w', q0 + 2 * k) && ByteAt(w, q0 + 2 * k + 1) == ByteAt(w', q0 + 2 * k + 1)
    ensures QuadAt(w', q0, k) == QuadAt(w, q0, k)
  {
  }

  /** Stores a byte of the block; no quadrant changes. */
  method SetBlockByte(a: array<int>, q0: int, k: int, c: Byte, ghost blk: seq<Byte>, ghost quad: seq<int>)
    requires Shows(a[..], q0, blk, quad) && 0 <= k < |blk|
    modifies a
    ensures Shows(a[..], q0, blk[k := c], quad)
  {
    ghost var w: seq<int> := a[..];
    SetByte(a, k, c);
    hide ByteAt;
    forall i | 0 <= i < |quad| ensures QuadAt(a[..], q0, i) == quad[i] {
      QuadKept(w, a[..], q0, i);
    }
  }

  /** Stores a quadrant; no byte of the block and no other quadrant changes. */
  method SetQuadrant(a: array<int>, q0: int, k: int, v: int, ghost blk: seq<Byte>, ghost quad: seq<int>)
    requires Shows(a[..], q0, blk, quad) && 0 <= k < |blk| && 0 <= v < 0x1_0000
    modifies a
    ensures Shows(a[..], q0, blk, quad[k := v])
  {
    ghost var w: seq<int> := a[..];
    SetByte(a, q0 + 2 * k, v % 256);
    SetByte(a, q0 + 2 * k + 1, v / 256);
    hide ByteAt;
    forall i | 0 <= i < |quad| ensures QuadAt(a[..], q0, i) == quad[k := v][i] {
      if i != k { QuadKept(w, a[..], q0, i); }
    }
  }
}
