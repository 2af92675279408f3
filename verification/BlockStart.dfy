/**
 * From a block's bytes in transmitted order to the start of its output: the checks, the links, the first byte fetched.
 */
module BlockStart {
  import opened Bits
  import opened Rotations
  import opened InverseBwt
  import opened Counting
  import opened FastDecode
  import opened SmallDecode
  import opened RunLength
  import opened Crc
  import opened BlockOutput
  import opened UnpackBlock
  import opened BlockFormat
  import opened Randomisation

  /** cftab, and the decoder's checks of it: none of them can fail for counts that come from the block itself. */
  method CheckedTable(unzftab: array<int>, nblock: int, ghost l: seq<Byte>) returns (ok: bool, cftab: array<int>)
    requires unzftab.Length == 256 && nblock == |l| && forall c | 0 <= c < 256 :: unzftab[c] == Count(l, c, |l|)
    ensures ok && fresh(cftab) && cftab.Length == 257 && forall c | 0 <= c <= 256 :: cftab[c] == Below(l, c, |l|)
  {
    cftab := new int[257];
    for i := 0 to 256 {
      if unzftab[i] < 0 || unzftab[i] > nblock { return false, cftab; }
    }
    StartTable(unzftab, cftab, l);
    for i := 0 to 257
      invariant forall c | 0 <= c <= 256 :: cftab[c] == Below(l, c, |l|)
    {
      BelowInRange(l, i);
      if cftab[i] < 0 || cftab[i] > nblock { return false, cftab; }
    }
    for i := 1 to 257
      invariant forall c | 0 <= c <= 256 :: cftab[c] == Below(l, c, |l|)
    {
      BelowMono(l, i - 1, i, |l|);
      if cftab[i - 1] > cftab[i] { return false, cftab; }
    }
    ok := true;
  }

  lemma {:induction false} BelowInRange(l: seq<Byte>, c: nat)
    ensures 0 <= Below(l, c, |l|) <= |l|
  {
  }

  /** The output stage for a block just decoded, or null if origPtr is not a position of the block. */
  method StartFast(tt: array<int>, unzftab: array<int>, nblock: int, origPtr: int, blockSize100k: int,
    randomised: bool, ghost l: seq<Byte>)
    returns (s: Output?)
    requires tt != unzftab && nblock == |l| <= MAX_BLOCK && |l| <= 100_000 * blockSize100k &&
      UnpackBlock.Output(tt[..], unzftab[..], l)
    modifies tt
    ensures s == null <==> !(0 <= origPtr < nblock)
    ensures s != null ==> !s.smallDecompress && s.tt == tt && s.ll16 == tt && s.ll4 == tt && s.cftab == tt
    ensures s != null ==>
      fresh(s) && s.Valid() && s.l == l && s.t == CountingOrder(l) && s.state_out_len == 0 &&
      s.calculatedBlockCRC == CRC_START
    ensures s != null ==>
      Leads(l, s.t) && s.Ahead() == Derandomised(randomised, Fetch(l, s.t, s.t[origPtr], nblock + 1))
  {
    if origPtr < 0 || origPtr >= nblock { return null; }
    var ok, cftab := CheckedTable(unzftab, nblock, l);
    LinkTt(tt, cftab, nblock, l);
    s := new Output.Fast(tt, origPtr, blockSize100k, nblock, randomised, l, CountingOrder(l));
  }

  method StartSmall(ll16: array<int>, ll4: array<int>, unzftab: array<int>, nblock: int, origPtr: int,
    blockSize100k: int, randomised: bool, ghost l: seq<Byte>)
    returns (s: Output?)
    requires ll16 != unzftab && ll16 != ll4 && ll4 != unzftab && nblock == |l| <= MAX_BLOCK &&
      |l| <= 100_000 * blockSize100k
    requires UnpackBlock.Output(ll16[..], unzftab[..], l) && IsStore(ll16[..], ll4[..], nblock)
    modifies ll16, ll4
    ensures s == null <==> !(0 <= origPtr < nblock)
    ensures s != null ==> s.smallDecompress && s.tt == ll16 && s.ll16 == ll16 && s.ll4 == ll4 && fresh(s.cftab)
    ensures s != null ==>
      fresh(s) && s.Valid() && s.l == l && s.t == CountingOrder(l) && s.state_out_len == 0 &&
      s.calculatedBlockCRC == CRC_START
    ensures s != null ==>
      Leads(l, s.t) && s.Ahead() == Derandomised(randomised, Fetch(l, s.t, s.t[origPtr], nblock + 1))
  {
    if origPtr < 0 || origPtr >= nblock { return null; }
    var ok, cftab := CheckedTable(unzftab, nblock, l);
    SortedColumn(cftab[..], l);
    SlotsTurnable(l);
    var cftabCopy := new int[257];
    for i := 0 to 257
      invariant forall k | 0 <= k < i :: cftabCopy[k] == cftab[k]
      modifies cftabCopy
    {
      cftabCopy[i] := cftab[i];
    }
    hide IsStore, Numbers, FirstColumn, Follows, IsMap, Undoes, Leads, Below, Count, Slot, CountingOrder;
    BuildT(ll16, ll4, cftabCopy, nblock, l);
    TurnRound(ll16, ll4, origPtr, nblock, Slots(l), CountingOrder(l));
    s := new Output.Small(ll16, ll4, cftab, origPtr, blockSize100k, nblock, randomised, l, CountingOrder(l));
  }
}
