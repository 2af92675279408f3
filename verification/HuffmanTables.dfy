/** The decoding tables as a function of the code lengths: any tables built for the same lengths decode alike. */
module HuffmanTables {
  import opened Bits
  import opened Rotations
  import opened Counting
  import opened BitStrings
  import opened HuffmanCodes

  function Shortest(len: seq<Byte>, k: nat): (r: int)
    requires 1 <= k <= |len|
    ensures forall i | 0 <= i < k :: r <= len[i] as int
    ensures exists i | 0 <= i < k :: r == len[i] as int
  {
    if k == 1 then len[0] as int
    else
      var m := Shortest(len, k - 1);
      if (len[k - 1] as int) < m then len[k - 1] as int else m
  }

  function Longest(len: seq<Byte>, k: nat): (r: int)
    requires 1 <= k <= |len|
    ensures forall i | 0 <= i < k :: len[i] as int <= r
    ensures exists i | 0 <= i < k :: r == len[i] as int
  {
    if k == 1 then len[0] as int
    else
      var m := Longest(len, k - 1);
      if len[k - 1] as int > m then len[k - 1] as int else m
  }

  lemma {:induction false} CountPositive(len: seq<Byte>, i: nat, m: nat)
    requires i < m <= |len|
    ensures Count(len, len[i] as int, m) > 0
    decreases m
  {
    if i < m - 1 { CountPositive(len, i, m - 1); }
  }

  lemma {:induction false} CountWitness(len: seq<Byte>, c: int, m: nat)
    requires m <= |len| && Count(len, c, m) > 0
    ensures exists i | 0 <= i < m :: len[i] as int == c
  {
    if len[m - 1] as int != c { CountWitness(len, c, m - 1); }
  }

  /** The shortest and the longest length are what the loops of compress.c and decompress.c compute. */
  lemma {:induction false} Within(len: seq<Byte>)
    requires IsLengths(len)
    ensures LengthsWithin(len, Shortest(len, |len|), Longest(len, |len|))
  {
    var i :| 0 <= i < |len| && Shortest(len, |len|) == len[i] as int;
    var j :| 0 <= j < |len| && Longest(len, |len|) == len[j] as int;
    CountPositive(len, i, |len|);
    CountPositive(len, j, |len|);
  }

  /** Only one pair of bounds is tight. */
  lemma {:induction false} WithinUnique(len: seq<Byte>, minLen: int, maxLen: int)
    requires IsLengths(len) && LengthsWithin(len, minLen, maxLen)
    ensures minLen == Shortest(len, |len|) && maxLen == Longest(len, |len|)
  {
    CountWitness(len, minLen, |len|);
    CountWitness(len, maxLen, |len|);
  }

  /** The tables for the lengths len, with zeros wherever the decoder never looks. */
  ghost function TablesFor(len: seq<Byte>): (t: Tables)
    requires IsLengths(len)
    ensures IsTables(t, len)
  {
    Within(len);
    var minLen, maxLen := Shortest(len, |len|), Longest(len, |len|);
    var limit := seq(MAX_CODE_LEN,
      n requires 0 <= n < MAX_CODE_LEN => if minLen <= n <= maxLen then Last(len, n) else 0);
    var base := seq(MAX_CODE_LEN,
      n requires 0 <= n < MAX_CODE_LEN => if minLen <= n <= maxLen then First(len, n) - Below(len, n, |len|) else 0);
    var perm := seq(|len|, y requires 0 <= y < |len| => FromSlot(len, y));
    PermFits(len, perm);
    Tables(limit, base, perm, minLen, maxLen)
  }

  lemma {:induction false} PermFits(len: seq<Byte>, perm: seq<int>)
    requires |perm| == |len| && forall y | 0 <= y < |len| :: perm[y] == FromSlot(len, y)
    ensures PermOf(perm, len)
  {
    forall i | 0 <= i < |len| ensures 0 <= Slot(len, i) < |len| && perm[Slot(len, i)] == i {
      CountingOrderOf(len, i);
    }
  }

  lemma {:induction false} SamePerm(t: Tables, len: seq<Byte>, y: int)
    requires IsTables(t, len) && 0 <= y < |len|
    ensures y < |t.perm| && t.perm[y] == FromSlot(len, y)
  {
    var i := FromSlot(len, y);
    hide IsTables, FromSlot;
    PermAt(t, len, i);
  }

  lemma {:induction false} LimitBehind(t: Tables, len: seq<Byte>, n: nat)
    requires IsTables(t, len) && t.maxLen < n < MAX_CODE_LEN
    ensures n < |t.limit| && t.limit[n] == 0
  {
  }

  /** Whatever the bits, tables built for the same lengths decode them alike. */
  lemma {:induction false} SameFrom(t: Tables, u: Tables, len: seq<Byte>, zn: nat, zvec: nat, bits: seq<bool>)
    requires IsTables(t, len) && IsTables(u, len) && t.minLen == u.minLen && t.maxLen == u.maxLen
    requires t.minLen <= zn && First(len, zn) <= zvec && (zn > t.maxLen ==> zvec > 0)
    ensures |t.limit| >= MAX_CODE_LEN && |t.base| >= MAX_CODE_LEN && |u.limit| >= MAX_CODE_LEN &&
      |u.base| >= MAX_CODE_LEN
    ensures SymbolFrom(t, zn, zvec, bits) == SymbolFrom(u, zn, zvec, bits)
    decreases LONGEST_CODE + 1 - zn
  {
    hide IsTables, First, Count, Below, FromSlot;
    TableShape(t, len);
    TableShape(u, len);
    if zn <= LONGEST_CODE {
      if zn <= t.maxLen {
        TablesAt(t, len, zn);
        TablesAt(u, len, zn);
      } else {
        LimitBehind(t, len, zn);
        LimitBehind(u, len, zn);
      }
      if zvec <= t.limit[zn] {
        InBucket(t, len, zn, zvec);
        SamePerm(t, len, zvec - t.base[zn]);
        SamePerm(u, len, zvec - t.base[zn]);
      } else if bits != [] {
        var z := 2 * zvec + (if bits[0] then 1 else 0);
        Rejected(t, len, zn, zvec);
        SameFrom(t, u, len, zn + 1, z, bits[1..]);
      }
    }
  }

  lemma {:induction false} SameDecoding(t: Tables, len: seq<Byte>, bits: seq<bool>)
    requires IsLengths(len) && IsTables(t, len)
    ensures |t.limit| >= MAX_CODE_LEN && |t.base| >= MAX_CODE_LEN && t.minLen >= 0
    ensures |TablesFor(len).limit| >= MAX_CODE_LEN && |TablesFor(len).base| >= MAX_CODE_LEN &&
      TablesFor(len).minLen >= 0
    ensures DecodeSymbol(t, bits) == DecodeSymbol(TablesFor(len), bits)
  {
    var u := TablesFor(len);
    TableShape(t, len);
    TableShape(u, len);
    WithinUnique(len, t.minLen, t.maxLen);
    WithinUnique(len, u.minLen, u.maxLen);
    hide IsTables, TablesFor, SymbolFrom;
    NoneShorter(len, t.minLen, t.minLen);
    if |bits| >= t.minLen {
      SameFrom(t, u, len, t.minLen, Value(bits[..t.minLen]), bits[t.minLen..]);
    }
  }

  /** The next symbol coded with lengths len. */
  ghost function SymbolOf(len: seq<Byte>, bits: seq<bool>): (r: Parse<int>)
    requires IsLengths(len)
    ensures r.Done? ==> |r.rest| <= |bits|
    ensures r.Done? ==> 0 <= r.value < |len| && bits == CodeBits(len, r.value) + r.rest
  {
    var t := TablesFor(len);
    TableShape(t, len);
    SymbolIsCode(t, len, bits);
    DecodeSymbol(t, bits)
  }

  /** Even for lengths that make no prefix code, a symbol is only returned for its own code. */
  lemma {:induction false} SymbolIsCode(t: Tables, len: seq<Byte>, bits: seq<bool>)
    requires IsLengths(len) && IsTables(t, len)
    ensures |t.limit| >= MAX_CODE_LEN && |t.base| >= MAX_CODE_LEN && t.minLen >= 0
    ensures var r := DecodeSymbol(t, bits); r.Done? ==> 0 <= r.value < |len| && bits == CodeBits(len, r.value) + r.rest
  {
    TableShape(t, len);
    NoneShorter(len, t.minLen, t.minLen);
    hide IsTables, SymbolFrom, First, Value;
    if |bits| >= t.minLen { OnlyCodes(t, len, t.minLen, bits); }
  }

  lemma {:induction false} SymbolOfCode(len: seq<Byte>, i: nat, rest: seq<bool>)
    requires IsLengths(len) && HasRoom(len) && i < |len|
    ensures SymbolOf(len, CodeBits(len, i) + rest) == Done(i, rest)
  {
    hide IsTables, DecodeSymbol;
    DecodesCode(TablesFor(len), len, i, rest);
  }

  /** No code is the beginning of another's: that depends on the lengths alone. */
  lemma {:induction false} PrefixFree(len: seq<Byte>, i: nat, j: nat)
    requires IsLengths(len) && HasRoom(len) && i < |len| && j < |len| && CodeBits(len, i) <= CodeBits(len, j)
    ensures i == j
  {
    hide *;
    var t := TablesFor(len);
    var rest := CodeBits(len, j)[|CodeBits(len, i)|..];
    assert CodeBits(len, j) == CodeBits(len, i) + rest;
    assert CodeBits(len, j) + [] == CodeBits(len, j);
    HasTables(len);
    DecodesCode(t, len, i, rest);
    DecodesCode(t, len, j, []);
  }

  lemma {:induction false} HasTables(len: seq<Byte>)
    requires IsLengths(len)
    ensures IsTables(TablesFor(len), len)
  {
  }
}
