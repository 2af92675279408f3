/** Canonical Huffman codes: the codes the encoder assigns and the tables the decoder reads them with. */
module HuffmanCodes {
  import opened Bits
  import opened Rotations
  import opened InverseBwt
  import opened Counting
  import opened BitStrings

  const MAX_ALPHA_SIZE := 258
  const MAX_CODE_LEN := 23
  const LONGEST_CODE := 20

  /** Code lengths of an alphabet. */
  ghost predicate IsLengths(len: seq<Byte>) {
    1 <= |len| <= MAX_ALPHA_SIZE && forall i | 0 <= i < |len| :: 1 <= len[i] <= LONGEST_CODE
  }

  /** The first code of length n. */
  function First(len: seq<Byte>, n: nat): nat {
    if n == 0 then 0 else 2 * (First(len, n - 1) + Count(len, n - 1, |len|))
  }

  /** The code of symbol i: codes of one length are consecutive, in symbol order. */
  function Code(len: seq<Byte>, i: nat): nat
    requires i < |len|
  {
    First(len, len[i]) + Count(len, len[i], i)
  }

  function CodeBits(len: seq<Byte>, i: nat): (r: seq<bool>)
    requires i < |len|
    ensures |r| == len[i]
  {
    BitsOf(Code(len, i), len[i])
  }

  /** The lengths leave room for all codes. */
  ghost predicate HasRoom(len: seq<Byte>) {
    First(len, LONGEST_CODE + 1) <= Pow2(LONGEST_CODE + 1)
  }

  lemma {:induction false} NoneShorter(len: seq<Byte>, minLen: nat, n: nat)
    requires n <= minLen && forall i | 0 <= i < |len| :: minLen <= len[i]
    ensures First(len, n) == 0
    decreases n
  {
    if n > 0 {
      NoneShorter(len, minLen, n - 1);
      CountAbsent(len, n - 1, 0, |len|);
    }
  }

  lemma {:induction false} FirstGrows(len: seq<Byte>, n: nat, m: nat)
    requires n < m
    ensures First(len, m) >= (First(len, n) + Count(len, n, |len|)) * Pow2(m - n)
    decreases m
  {
    assert Pow2(1) == 2 && Pow2(m - n) == 2 * Pow2(m - 1 - n);
    FirstStep(len, m);
    hide First, Count, Pow2;
    if n + 1 < m {
      FirstGrows(len, n, m - 1);
      TwiceProduct(First(len, n) + Count(len, n, |len|), Pow2(m - 1 - n));
    }
  }

  lemma {:induction false} FirstStep(len: seq<Byte>, n: nat)
    requires n > 0
    ensures First(len, n) == 2 * (First(len, n - 1) + Count(len, n - 1, |len|))
  {
  }

  /** Every code fits in its length. */
  lemma {:induction false} CodeFits(len: seq<Byte>, i: nat)
    requires IsLengths(len) && HasRoom(len) && i < |len|
    ensures Code(len, i) < First(len, len[i]) + Count(len, len[i], |len|) <= Pow2(len[i])
  {
    var n: nat := len[i];
    CountMono(len, n, i + 1, |len|);
    var x, m := First(len, n) + Count(len, n, |len|), LONGEST_CODE + 1;
    FirstGrows(len, n, m);
    Pow2Sum(n, m - n);
    if x > Pow2(n) {
      MulStrict(Pow2(n), x, Pow2(m - n));
    }
  }

  lemma {:induction false} MulStrict(a: nat, b: nat, c: nat)
    requires a < b && c > 0
    ensures a * c < b * c
  {
  }

  /** The first n bits of a longer code are a number behind all codes of length n. */
  lemma {:induction false} LongerCode(len: seq<Byte>, i: nat, n: nat)
    requires IsLengths(len) && HasRoom(len) && i < |len| && n < len[i]
    ensures Value(CodeBits(len, i)[..n]) >= First(len, n) + Count(len, n, |len|)
  {
    hide Pow2, First, Count, BitsOf, Value, HasRoom;
    var bs := CodeBits(len, i);
    CodeFits(len, i);
    ValueRoundTrip(Code(len, i), len[i]);
    ValueSplit(bs, n);
    FirstGrows(len, n, len[i]);
    QuotientAtLeast(Value(bs[..n]), Value(bs[n..]), Pow2(len[i] - n), First(len, n) + Count(len, n, |len|));
  }

  // ---- the encoder's side

  method AssignCodes(code: array<int>, length: array<int>, minLen: int, maxLen: int, alphaSize: int,
    ghost len: seq<Byte>)
    requires code != length && 0 <= alphaSize == |len| && alphaSize <= code.Length && alphaSize <= length.Length
    requires 0 <= minLen <= maxLen && forall i | 0 <= i < alphaSize :: length[i] == len[i] && minLen <= len[i] <= maxLen
    modifies code
    ensures forall i | 0 <= i < alphaSize :: code[i] == Code(len, i)
  {
    var vec := 0;
    NoneShorter(len, minLen, minLen);
    for n := minLen to maxLen + 1
      invariant vec == First(len, n)
      invariant forall i | 0 <= i < alphaSize && len[i] < n :: code[i] == Code(len, i)
    {
      for i := 0 to alphaSize
        invariant vec == First(len, n) + Count(len, n, i)
        invariant forall j | 0 <= j < alphaSize && (len[j] < n || (len[j] == n && j < i)) :: code[j] == Code(len, j)
      {
        if length[i] == n {
          code[i] := vec;
          vec := vec + 1;
        }
      }
      vec := vec * 2;
    }
  }

  // ---- the decoder's side

  /** What the decoder keeps of one coding table; maxLen is the longest length it was built for. */
  datatype Tables = Tables(limit: seq<int>, base: seq<int>, perm: seq<int>, minLen: int, maxLen: int)

  /** The last code of length n. */
  function Last(len: seq<Byte>, n: nat): int {
    First(len, n) + Count(len, n, |len|) - 1
  }

  ghost predicate LengthsWithin(len: seq<Byte>, minLen: int, maxLen: int) {
    && 1 <= minLen <= maxLen <= LONGEST_CODE
    && (forall i | 0 <= i < |len| :: minLen <= len[i] <= maxLen)
    && Count(len, minLen, |len|) > 0 && Count(len, maxLen, |len|) > 0
  }

  ghost predicate LimitsOf(limit: seq<int>, len: seq<Byte>, minLen: nat, maxLen: int) {
    && |limit| >= MAX_CODE_LEN
    && (forall n: nat | minLen <= n <= maxLen && n < |limit| :: limit[n] == Last(len, n))
    && (forall n: nat | maxLen < n < MAX_CODE_LEN :: limit[n] == 0)
  }

  ghost predicate BasesOf(base: seq<int>, len: seq<Byte>, minLen: nat, maxLen: int) {
    && |base| >= MAX_CODE_LEN
    && (forall n: nat | minLen <= n <= maxLen && n < |base| :: base[n] == First(len, n) - Below(len, n, |len|))
  }

  ghost predicate PermOf(perm: seq<int>, len: seq<Byte>) {
    |perm| >= |len| && forall i | 0 <= i < |len| :: 0 <= Slot(len, i) < |len| && perm[Slot(len, i)] == i
  }

  /** t is what the decoder builds for the lengths len. */
  ghost predicate IsTables(t: Tables, len: seq<Byte>) {
    && LengthsWithin(len, t.minLen, t.maxLen)
    && LimitsOf(t.limit, len, t.minLen, t.maxLen)
    && BasesOf(t.base, len, t.minLen, t.maxLen)
    && PermOf(t.perm, len)
  }

  /** All symbols shorter than n, and those of length n in front of symbol j, are at their slots. */
  ghost predicate PlacedTo(perm: seq<int>, len: seq<Byte>, n: int, j: int) {
    |perm| >= |len| &&
      forall k | 0 <= k < |len| && (len[k] < n || (len[k] == n && k < j)) ::
      0 <= Slot(len, k) < |len| && perm[Slot(len, k)] == k
  }

  lemma {:induction false} PlaceNext(perm: seq<int>, len: seq<Byte>, j: nat)
    requires j < |len| && PlacedTo(perm, len, len[j], j)
    ensures Slot(len, j) < |len| <= |perm| && PlacedTo(perm[Slot(len, j) := j], len, len[j], j + 1)
  {
    SlotInBucket(len, j);
    hide Slot;
    forall k | 0 <= k < |len| && k != j ensures Slot(len, k) != Slot(len, j) { SlotInjective(len, k, j); }
  }

  lemma {:induction false} NonePlaced(perm: seq<int>, len: seq<Byte>, minLen: int, maxLen: int)
    requires LengthsWithin(len, minLen, maxLen) && |len| <= |perm|
    ensures Fill(len, minLen, 0) == 0 && PlacedTo(perm, len, minLen, 0) && minLen <= maxLen
  {
    NoneBelow(len, minLen);
    hide Slot, Below;
  }

  lemma {:induction false} AllPlaced(perm: seq<int>, len: seq<Byte>, minLen: int, maxLen: int)
    requires LengthsWithin(len, minLen, maxLen) && PlacedTo(perm, len, maxLen + 1, 0)
    ensures PermOf(perm, len)
  {
    hide Slot;
  }

  lemma {:induction false} PlacedBucket(perm: seq<int>, len: seq<Byte>, n: int)
    requires PlacedTo(perm, len, n, |len|)
    ensures PlacedTo(perm, len, n + 1, 0)
  {
    hide Slot;
  }

  lemma {:induction false} PlacedOn(perm: seq<int>, len: seq<Byte>, n: int, j: nat)
    requires j < |len| && len[j] != n && PlacedTo(perm, len, n, j)
    ensures PlacedTo(perm, len, n, j + 1)
  {
    hide Slot;
  }

  lemma {:induction false} BucketEnd(len: seq<Byte>, n: int)
    ensures Fill(len, n, |len|) == Fill(len, n + 1, 0)
  {
    BelowStep(len, n, |len|);
  }

  /** The symbols in order of length, each at its slot. */
  method FillPerm(perm: array<int>, length: array<int>, minLen: int, maxLen: int, alphaSize: int, ghost len: seq<Byte>)
    requires perm != length && 0 <= alphaSize == |len| && alphaSize <= perm.Length && alphaSize <= length.Length
    requires LengthsWithin(len, minLen, maxLen) && forall i | 0 <= i < alphaSize :: length[i] == len[i]
    modifies perm
    ensures PermOf(perm[..], len)
  {
    hide Slot, Fill, Count, Below, PlacedTo, LengthsWithin;
    var pp := 0;
    NonePlaced(perm[..], len, minLen, maxLen);
    for i := minLen to maxLen + 1
      invariant pp == Fill(len, i, 0) && PlacedTo(perm[..], len, i, 0)
    {
      for j := 0 to alphaSize
        invariant pp == Fill(len, i, j) && PlacedTo(perm[..], len, i, j)
      {
        FillStep(len, j);
        if length[j] == i {
          ghost var before := perm[..];
          PlaceNext(before, len, j);
          perm[pp] := j;
          assert perm[..] == before[pp := j];
          pp := pp + 1;
        } else {
          PlacedOn(perm[..], len, i, j);
        }
      }
      BucketEnd(len, i);
      PlacedBucket(perm[..], len, i);
    }
    AllPlaced(perm[..], len, minLen, maxLen);
  }

  lemma {:induction false} NoneBelow(len: seq<Byte>, minLen: int)
    requires forall i | 0 <= i < |len| :: minLen <= len[i]
    ensures Below(len, minLen, |len|) == 0
  {
    BelowAll(len, minLen, |len|);
  }

  lemma {:induction false} BelowAll(len: seq<Byte>, c: int, m: nat)
    requires m <= |len| && forall i | 0 <= i < |len| :: c <= len[i]
    ensures Below(len, c, m) == 0
  {
    if m > 0 { BelowAll(len, c, m - 1); }
  }

  /** How many symbols have a length less than n, for every n. */
  method CountShorter(base: array<int>, length: array<int>, alphaSize: int, ghost len: seq<Byte>)
    requires base != length && 0 <= alphaSize == |len| && alphaSize <= length.Length && MAX_CODE_LEN <= base.Length
    requires forall i | 0 <= i < alphaSize :: length[i] == len[i] && 1 <= len[i] <= LONGEST_CODE
    modifies base
    ensures forall n | 0 <= n < MAX_CODE_LEN :: base[n] == Below(len, n, |len|)
  {
    for i := 0 to MAX_CODE_LEN
      invariant forall n | 0 <= n < i :: base[n] == 0
    {
      base[i] := 0;
    }
    for i := 0 to alphaSize
      invariant forall n | 0 <= n < MAX_CODE_LEN :: base[n] == Count(len, n - 1, i)
    {
      base[length[i] + 1] := base[length[i] + 1] + 1;
    }
    BelowAll(len, 0, |len|);
    CountAbsent(len, -1, 0, |len|);
    for i := 1 to MAX_CODE_LEN
      invariant forall n | 0 <= n < i :: base[n] == Below(len, n, |len|)
      invariant forall n | i <= n < MAX_CODE_LEN :: base[n] == Count(len, n - 1, |len|)
    {
      BelowStep(len, i - 1, |len|);
      base[i] := base[i] + base[i - 1];
    }
  }

  /** The last code of each length in use; 0 for all other lengths. */
  method FillLimits(limit: array<int>, base: array<int>, minLen: int, maxLen: int, ghost len: seq<Byte>)
    requires limit != base && limit.Length == base.Length == MAX_ALPHA_SIZE
    requires LengthsWithin(len, minLen, maxLen)
    requires forall n | 0 <= n < MAX_CODE_LEN :: base[n] == Below(len, n, |len|)
    modifies limit
    ensures LimitsOf(limit[..], len, minLen, maxLen)
  {
    for i := 0 to MAX_CODE_LEN
      invariant forall n | 0 <= n < i :: limit[n] == 0
    {
      limit[i] := 0;
    }
    var vec := 0;
    NoneShorter(len, minLen, minLen);
    hide First, Count, Below;
    for i := minLen to maxLen + 1
      invariant vec == First(len, i)
      invariant forall n: nat | minLen <= n < i :: limit[n] == Last(len, n)
      invariant forall n | maxLen < n < MAX_CODE_LEN :: limit[n] == 0
    {
      BelowStep(len, i, |len|);
      FirstStep(len, i + 1);
      vec := vec + (base[i + 1] - base[i]);
      limit[i] := vec - 1;
      vec := vec * 2;
    }
  }

  /** The bases of the lengths below i are final, the others still count shorter symbols. */
  ghost predicate BasesTo(base: seq<int>, len: seq<Byte>, minLen: nat, i: int) {
    && |base| >= MAX_CODE_LEN
    && (forall n: nat | minLen <= n < i && n < |base| :: base[n] == First(len, n) - Below(len, n, |len|))
    && (forall n: nat | i <= n < MAX_CODE_LEN :: base[n] == Below(len, n, |len|))
  }

  lemma {:induction false} BaseStep(base: seq<int>, limit: seq<int>, len: seq<Byte>, minLen: nat, maxLen: int, i: nat)
    requires minLen < i <= maxLen < MAX_CODE_LEN && BasesTo(base, len, minLen, i) &&
      LimitsOf(limit, len, minLen, maxLen)
    ensures i < |base| && i <= |limit| && BasesTo(base[i := (limit[i - 1] + 1) * 2 - base[i]], len, minLen, i + 1)
  {
    FirstStep(len, i);
    hide First, Count, Below;
  }

  /** From how many symbols are shorter to where the codes of each length start in perm. */
  method FillBases(limit: array<int>, base: array<int>, minLen: int, maxLen: int, ghost len: seq<Byte>)
    requires limit != base && limit.Length == base.Length == MAX_ALPHA_SIZE
    requires LengthsWithin(len, minLen, maxLen) && LimitsOf(limit[..], len, minLen, maxLen)
    requires forall n | 0 <= n < MAX_CODE_LEN :: base[n] == Below(len, n, |len|)
    modifies base
    ensures BasesOf(base[..], len, minLen, maxLen)
  {
    NoneBelow(len, minLen);
    NoneShorter(len, minLen, minLen);
    hide First, Count, Below, LimitsOf;
    for i := minLen + 1 to maxLen + 1
      invariant BasesTo(base[..], len, minLen, i)
    {
      ghost var before := base[..];
      BaseStep(before, limit[..], len, minLen, maxLen, i);
      base[i] := (limit[i - 1] + 1) * 2 - base[i];
      assert base[..] == before[i := (limit[i - 1] + 1) * 2 - before[i]];
    }
  }

  method CreateDecodeTables(limit: array<int>, base: array<int>, perm: array<int>, length: array<int>, minLen: int,
    maxLen: int, alphaSize: int, ghost len: seq<Byte>)
    requires limit != base && limit != perm && limit != length && base != perm && base != length && perm != length
    requires limit.Length == base.Length == perm.Length == MAX_ALPHA_SIZE && alphaSize <= length.Length
    requires IsLengths(len) && alphaSize == |len| && LengthsWithin(len, minLen, maxLen)
    requires forall i | 0 <= i < alphaSize :: length[i] == len[i]
    modifies limit, base, perm
    ensures IsTables(Tables(limit[..], base[..], perm[..], minLen, maxLen), len)
  {
    FillPerm(perm, length, minLen, maxLen, alphaSize, len);
    hide Slot, First, Count, Below, LimitsOf, BasesOf, PermOf;
    ghost var p := perm[..];
    CountShorter(base, length, alphaSize, len);
    FillLimits(limit, base, minLen, maxLen, len);
    FillBases(limit, base, minLen, maxLen, len);
    assert perm[..] == p;
  }

  /** GET_MTF_VAL behind its first minLen bits: one more bit until the value is within the limit for its length. */
  function SymbolFrom(t: Tables, zn: nat, zvec: nat, bits: seq<bool>): (r: Parse<int>)
    requires |t.limit| >= MAX_CODE_LEN && |t.base| >= MAX_CODE_LEN
    ensures r.Done? ==> |r.rest| <= |bits|
    decreases LONGEST_CODE + 1 - zn
  {
    if zn > LONGEST_CODE then Bad
    else if zvec <= t.limit[zn] then
      var j := zvec - t.base[zn];
      if j < 0 || j >= MAX_ALPHA_SIZE || j >= |t.perm| then Bad else Done(t.perm[j], bits)
    else if bits == [] then NeedMore
    else SymbolFrom(t, zn + 1, 2 * zvec + (if bits[0] then 1 else 0), bits[1..])
  }

  function DecodeSymbol(t: Tables, bits: seq<bool>): (r: Parse<int>)
    requires |t.limit| >= MAX_CODE_LEN && |t.base| >= MAX_CODE_LEN && t.minLen >= 0
    ensures r.Done? ==> |r.rest| <= |bits|
  {
    var (zvec, rest) :- ReadBits(bits, t.minLen);
    SymbolFrom(t, t.minLen, zvec, rest)
  }

  lemma {:induction false} CodeBitsLength(len: seq<Byte>, i: nat)
    requires IsLengths(len) && HasRoom(len) && i < |len|
    ensures |CodeBits(len, i)| == len[i] && CodeBits(len, i) == BitsOf(Code(len, i), len[i]) && |len| <= MAX_ALPHA_SIZE
  {
    hide HasRoom, Code, BitsOf;
  }

  lemma {:induction false} TableShape(t: Tables, len: seq<Byte>)
    requires IsTables(t, len)
    ensures |t.limit| >= MAX_CODE_LEN && |t.base| >= MAX_CODE_LEN && |t.perm| >= |len| &&
      1 <= t.minLen <= t.maxLen <= LONGEST_CODE
    ensures LengthsWithin(len, t.minLen, t.maxLen)
  {
  }

  lemma {:induction false} LengthAt(len: seq<Byte>, minLen: int, maxLen: int, i: nat)
    requires LengthsWithin(len, minLen, maxLen) && i < |len|
    ensures 1 <= minLen <= len[i] <= maxLen <= LONGEST_CODE
  {
  }

  /** The tables at a length in use. */
  lemma {:induction false} TablesAt(t: Tables, len: seq<Byte>, n: nat)
    requires IsTables(t, len) && t.minLen <= n <= t.maxLen
    ensures n < |t.limit| && n < |t.base|
    ensures t.limit[n] == Last(len, n) && t.base[n] == First(len, n) - Below(len, n, |len|)
  {
    hide First, Count, Below, PermOf;
  }

  lemma {:induction false} PermAt(t: Tables, len: seq<Byte>, i: nat)
    requires IsTables(t, len) && i < |len|
    ensures 0 <= Slot(len, i) < |len| <= |t.perm| && t.perm[Slot(len, i)] == i
  {
    hide First, Count, Below, Slot, LimitsOf, BasesOf;
  }

  lemma {:induction false} AcceptedHere(t: Tables, len: seq<Byte>, i: nat)
    requires IsTables(t, len) && i < |len|
    ensures var n, c := len[i], Code(len, i);
      n < |t.limit| && n < |t.base| && c <= t.limit[n] && 0 <= c - t.base[n] < |len| <= |t.perm| &&
        t.perm[c - t.base[n]] == i
  {
    hide IsTables;
    TableShape(t, len);
    LengthAt(len, t.minLen, t.maxLen, i);
    TablesAt(t, len, len[i]);
    PermAt(t, len, i);
    CountMono(len, len[i], i + 1, |len|);
  }

  lemma {:induction false} ValueStep(bs: seq<bool>, n: nat)
    requires n < |bs|
    ensures Value(bs[..n + 1]) == 2 * Value(bs[..n]) + if bs[n] then 1 else 0
  {
    assert bs[..n + 1][..n] == bs[..n];
  }

  lemma {:induction false} SymbolHere(t: Tables, zn: nat, zvec: nat, bits: seq<bool>)
    requires |t.limit| >= MAX_CODE_LEN && |t.base| >= MAX_CODE_LEN && zn <= LONGEST_CODE
    requires zvec <= t.limit[zn] && 0 <= zvec - t.base[zn] < |t.perm| && zvec - t.base[zn] < MAX_ALPHA_SIZE
    ensures SymbolFrom(t, zn, zvec, bits) == Done(t.perm[zvec - t.base[zn]], bits)
  {
  }

  lemma {:induction false} SymbolStep(t: Tables, zn: nat, zvec: nat, bits: seq<bool>)
    requires |t.limit| >= MAX_CODE_LEN && |t.base| >= MAX_CODE_LEN && zn <= LONGEST_CODE && zvec > t.limit[zn] &&
      bits != []
    ensures SymbolFrom(t, zn, zvec, bits) == SymbolFrom(t, zn + 1, 2 * zvec + (if bits[0] then 1 else 0), bits[1..])
  {
  }

  /** Having read the first zn bits of symbol i's code, the decoder reads the rest and finds i. */
  lemma {:induction false} FollowCode(t: Tables, len: seq<Byte>, i: nat, zn: nat, rest: seq<bool>)
    requires IsLengths(len) && HasRoom(len) && IsTables(t, len)
    requires i < |len| && t.minLen <= zn <= len[i]
    ensures |t.limit| >= MAX_CODE_LEN && |t.base| >= MAX_CODE_LEN
    ensures SymbolFrom(t, zn, Value(CodeBits(len, i)[..zn]), CodeBits(len, i)[zn..] + rest) == Done(i, rest)
    decreases len[i] - zn
  {
    hide IsTables, IsLengths, LengthsWithin, First, Count, Pow2, HasRoom, BitsOf, Code, Value, SymbolFrom, CodeBits;
    CodeBitsLength(len, i);
    var cb := CodeBits(len, i);
    var bits := cb[zn..] + rest;
    TableShape(t, len);
    LengthAt(len, t.minLen, t.maxLen, i);
    if zn == len[i] {
      AcceptedHere(t, len, i);
      CodeFits(len, i);
      ValueRoundTrip(Code(len, i), len[i]);
      assert bits == rest && cb[..zn] == cb;
      SymbolHere(t, zn, Code(len, i), rest);
    } else {
      TablesAt(t, len, zn);
      LongerCode(len, i, zn);
      assert bits[0] == cb[zn] && bits[1..] == cb[zn + 1..] + rest;
      ValueStep(cb, zn);
      SymbolStep(t, zn, Value(cb[..zn]), bits);
      FollowCode(t, len, i, zn + 1, rest);
    }
  }

  /** Decoding the bits written for symbol i gives i and uses exactly the bits of its code. */
  lemma {:induction false} DecodesCode(t: Tables, len: seq<Byte>, i: nat, rest: seq<bool>)
    requires IsLengths(len) && HasRoom(len) && IsTables(t, len) && i < |len|
    ensures |t.limit| >= MAX_CODE_LEN && |t.base| >= MAX_CODE_LEN && t.minLen >= 0
    ensures DecodeSymbol(t, CodeBits(len, i) + rest) == Done(i, rest)
  {
    var cb := CodeBits(len, i);
    var bits := cb + rest;
    TableShape(t, len);
    LengthAt(len, t.minLen, t.maxLen, i);
    hide IsTables, IsLengths, LengthsWithin, First, Count, Pow2, HasRoom, BitsOf, Code, Value, SymbolFrom;
    assert bits[..t.minLen] == cb[..t.minLen] && bits[t.minLen..] == cb[t.minLen..] + rest;
    FollowCode(t, len, i, t.minLen, rest);
  }

  /** A value above its limit, with one more bit, is at or behind the first code one bit longer. */
  lemma {:induction false} Rejected(t: Tables, len: seq<Byte>, zn: nat, zvec: nat)
    requires IsTables(t, len) && t.minLen <= zn <= LONGEST_CODE && zn < |t.limit|
    requires First(len, zn) <= zvec && zvec > t.limit[zn]
    ensures First(len, zn + 1) <= 2 * zvec
    ensures zn + 1 > t.maxLen ==> zvec > 0
  {
    TableShape(t, len);
    FirstStep(len, zn + 1);
    if zn > t.maxLen {
      CountAbsent(len, zn, 0, |len|);
      hide First, Count, Below;
      PositiveFirst(len, zn, t.maxLen);
    } else {
      hide First, Count, Below, IsTables;
      TablesAt(t, len, zn);
      if zn == t.maxLen { CountInUse(len, t.minLen, zn); }
    }
  }

  lemma {:induction false} CountInUse(len: seq<Byte>, minLen: int, maxLen: int)
    requires LengthsWithin(len, minLen, maxLen)
    ensures Count(len, maxLen, |len|) > 0
  {
  }

  /** Behind the longest length all first codes are positive, so a limit of 0 accepts nothing. */
  lemma {:induction false} PositiveFirst(len: seq<Byte>, n: nat, maxLen: nat)
    requires Count(len, maxLen, |len|) > 0
    ensures n > maxLen ==> First(len, n) > 0
    decreases n
  {
    if n > 0 { PositiveFirst(len, n - 1, maxLen); }
  }

  /** Whatever the bits, what the decoder returns is a symbol, and the bits it used are that symbol's code. */
  lemma {:induction false} OnlyCodes(t: Tables, len: seq<Byte>, zn: nat, bits: seq<bool>)
    requires IsTables(t, len)
    requires t.minLen <= zn <= |bits| && First(len, zn) <= Value(bits[..zn])
    requires zn > t.maxLen ==> Value(bits[..zn]) > 0
    ensures |t.limit| >= MAX_CODE_LEN && |t.base| >= MAX_CODE_LEN
    ensures var r := SymbolFrom(t, zn, Value(bits[..zn]), bits[zn..]);
            r.Done? ==> 0 <= r.value < |len| && bits == CodeBits(len, r.value) + r.rest
    decreases LONGEST_CODE + 1 - zn
  {
    hide IsTables, First, Count, Pow2, BitsOf, Code, Value, CodeBits, LengthsWithin;
    TableShape(t, len);
    var zvec := Value(bits[..zn]);
    if zn > LONGEST_CODE {
    } else if zvec <= t.limit[zn] {
      Accepted(t, len, zn, bits);
    } else if zn < |bits| {
      ValueStep(bits, zn);
      assert bits[zn..][1..] == bits[zn + 1..];
      Rejected(t, len, zn, zvec);
      OnlyCodes(t, len, zn + 1, bits);
    }
  }

  lemma {:induction false} Accepted(t: Tables, len: seq<Byte>, zn: nat, bits: seq<bool>)
    requires IsTables(t, len)
    requires t.minLen <= zn <= |bits| && zn <= LONGEST_CODE && zn < |t.limit| &&
      First(len, zn) <= Value(bits[..zn]) <= t.limit[zn]
    requires zn > t.maxLen ==> Value(bits[..zn]) > 0
    ensures zn < |t.base|
    ensures var j := Value(bits[..zn]) - t.base[zn];
            0 <= j < |len| && j < |t.perm| && 0 <= t.perm[j] < |len| && bits == CodeBits(len, t.perm[j]) + bits[zn..]
  {
    hide IsTables, First, Count, Pow2, BitsOf, Code, Value;
    var zvec := Value(bits[..zn]);
    assert bits[..zn] == BitsOf(zvec, zn) && bits == bits[..zn] + bits[zn..] by { BitsRoundTrip(bits[..zn]); }
    InBucket(t, len, zn, zvec);
  }

  lemma {:induction false} InBucket(t: Tables, len: seq<Byte>, zn: nat, zvec: nat)
    requires IsTables(t, len) && t.minLen <= zn <= LONGEST_CODE
    requires zn < |t.limit| && First(len, zn) <= zvec <= t.limit[zn] && (zn > t.maxLen ==> zvec > 0)
    ensures zn < |t.base|
    ensures var j := zvec - t.base[zn];
            0 <= j < |len| && j < |t.perm| && 0 <= t.perm[j] < |len| && len[t.perm[j]] == zn &&
              Code(len, t.perm[j]) == zvec
  {
    if zn > t.maxLen {
      assert false;
    } else {
      TablesAt(t, len, zn);
      var y := zvec - t.base[zn];
      hide First, Count, Below, IsTables;
      BelowStep(len, zn, |len|);
      BelowMono(len, zn + 1, 256, |len|);
      BelowEnds(len, |len|);
      var i := FromSlot(len, y);
      SlotSymbol(len, y, zn);
      PermAt(t, len, i);
    }
  }

  /** The decoder returns symbol i exactly on the bits that start with symbol i's code. */
  lemma {:induction false} DecodesExactly(t: Tables, len: seq<Byte>, bits: seq<bool>, i: int, rest: seq<bool>)
    requires IsLengths(len) && HasRoom(len) && IsTables(t, len)
    ensures |t.limit| >= MAX_CODE_LEN && |t.base| >= MAX_CODE_LEN && t.minLen >= 0
    ensures DecodeSymbol(t, bits) == Done(i, rest) <==> (0 <= i < |len| && bits == CodeBits(len, i) + rest)
  {
    TableShape(t, len);
    NoneShorter(len, t.minLen, t.minLen);
    hide IsTables, IsLengths, LengthsWithin, First, Count, Pow2, HasRoom, BitsOf, Code, Value, SymbolFrom;
    if 0 <= i < |len| && bits == CodeBits(len, i) + rest {
      DecodesCode(t, len, i, rest);
    }
    if |bits| >= t.minLen {
      OnlyCodes(t, len, t.minLen, bits);
    }
  }
}
