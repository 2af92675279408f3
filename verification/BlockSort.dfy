/** BZ2_blockSort: the fallback sorter for small blocks and those the main sorter gives up on. */
module BlockSort {
  import opened Bits
  import opened Rotations
  import opened InverseBwt
  import opened ByteView
  import opened BucketHeaders
  import FallbackSort
  import MainSort

  const SMALL_BLOCK := 10000
  const OVERSHOOT := 34

  /** How much work the main sorter may spend on a block. */
  function Budget(nblock: int, workFactor: int): (r: int)
    requires nblock >= 0
    ensures r >= 0
  {
    var wfact := if workFactor < 1 then 1 else if workFactor > 100 then 100 else workFactor;
    Product(nblock, (wfact - 1) / 3);
    nblock * ((wfact - 1) / 3)
  }

  lemma {:induction false} Product(x: int, y: int)
    requires x >= 0 && y >= 0
    ensures x * y >= 0
  {
  }

  lemma {:induction false} TableOf(t: seq<int>)
    requires |t| == 65537 && forall c | 0 <= c < 65537 :: 0 <= t[c] < WORD
    ensures IsTable(t)
  {
  }

  /** The first place of rotation 0 in the order. */
  method FindZero(arr1: array<int>, nblock: int, ghost b: Block) returns (origPtr: int)
    requires 0 < nblock == |b| <= arr1.Length && IsRotationOrder(b, arr1[..nblock])
    ensures 0 <= origPtr < nblock && arr1[origPtr] == 0
  {
    Surjective(arr1[..nblock], nblock, 0);
    origPtr := -1;
    for i := 0 to nblock
      invariant forall k | 0 <= k < i :: arr1[..nblock][k] != 0
    {
      if arr1[i] == 0 { return i; }
    }
  }

  /** Whichever sorter does it, the rotations end up sorted, the block is as it was, and rotation 0 is found. */
  method BlockSort(arr1: array<int>, arr2: array<int>, ftab: array<int>, nblock: int, workFactor: int)
    returns (origPtr: int)
    requires arr1 != arr2 && arr1 != ftab && arr2 != ftab && 0 < nblock <= 900_000
    requires nblock <= arr1.Length && nblock + OVERSHOOT <= arr2.Length && ftab.Length == 65537 && IsTable(ftab[..])
    modifies arr1, arr2, ftab
    ensures IsRotationOrder(old(BytesOf(arr2[..], nblock)), arr1[..nblock])
    ensures BytesOf(arr2[..], nblock) == old(BytesOf(arr2[..], nblock))
    ensures 0 <= origPtr < nblock && arr1[origPtr] == 0 && IsTable(ftab[..])
  {
    hide IsRotationOrder, BytesOf, IsTable, Budget;
    ghost var b: Block := BytesOf(arr2[..], nblock);
    BytesSize(arr2[..], nblock);
    if nblock < SMALL_BLOCK {
      FallbackSort.FallbackSort(arr1, arr2, ftab, nblock);
    } else {
      var i := nblock + OVERSHOOT;
      if i % 2 == 1 { i := i + 1; }
      var budget := MainSort.MainSort(arr1, arr2, i, ftab, nblock, Budget(nblock, workFactor), b);
      TableOf(ftab[..]);
      if budget < 0 {
        FallbackSort.FallbackSort(arr1, arr2, ftab, nblock);
      }
    }
    origPtr := FindZero(arr1, nblock, b);
  }

  lemma {:induction false} BytesSize(w: seq<int>, n: nat)
    requires n <= 4 * |w|
    ensures |BytesOf(w, n)| == n
  {
  }
}
