/** sendMTFValues, its tables and selectors chosen: writing a block's tables and data. */
module SendBlock {
  import opened Bits
  import opened Rotations
  import opened Counting
  import opened BitStrings
  import opened MoveToFront
  import opened BitWriter
  import opened MtfEncode
  import opened HuffmanCodes
  import opened HuffmanTables
  import opened BlockParts
  import opened BlockData
  import opened BlockFormat
  import opened SelectorCoding
  import opened HuffmanForest
  import opened HuffmanDepths
  import opened HuffmanLengths
  import opened HuffmanOptimal
  import opened SendParts

  /** An array of code lengths or codes holds these values. */
  ghost predicate HoldsLengths(row: array<int>, len: seq<Byte>)
    reads row
  {
    |len| <= row.Length && forall i | 0 <= i < |len| :: row[i] == len[i] as int
  }

  ghost predicate HoldsCodes(row: array<int>, len: seq<Byte>)
    reads row
  {
    |len| <= row.Length && forall i | 0 <= i < |len| :: row[i] == Code(len, i)
  }

  /** The rows of len and code hold the coding tables. */
  ghost predicate HoldsTables(len: seq<array<int>>, code: seq<array<int>>, lens: seq<seq<Byte>>)
    reads len, code
  {
    && |len| >= |lens| && |code| >= |lens|
    && forall t | 0 <= t < |lens| :: HoldsLengths(len[t], lens[t]) && HoldsCodes(code[t], lens[t])
  }

  /** The symbols are in the half-words of mtfv. */
  ghost predicate HoldsSymbols(mtfv: array<int>, syms: seq<int>)
    reads mtfv
  {
    |syms| <= 2 * mtfv.Length && forall k | 0 <= k < |syms| :: HalfAt(mtfv[..], k) == syms[k]
  }

  method SymbolWord(mtfv: array<int>, k: int) returns (sym: int)
    requires 0 <= k < 2 * mtfv.Length
    ensures sym == HalfAt(mtfv[..], k)
  {
    sym := if k % 2 == 0 then mtfv[k / 2] % 0x1_0000 else mtfv[k / 2] / 0x1_0000;
  }

  method SendSymbol(w: Writer, len: array<int>, code: array<int>, sym: int, ghost lengths: seq<Byte>,
    ghost later: seq<bool>, ghost total: seq<bool>)
    requires w.Valid() && 0 <= sym < |lengths| && IsLengths(lengths) && HasRoom(lengths)
    requires HoldsLengths(len, lengths) && HoldsCodes(code, lengths)
    requires Sent(w.Bits(), CodeBits(lengths, sym) + later, total) && |total| <= 8 * w.zbits.Length
    modifies w, w.zbits
    ensures w.Valid() && Sent(w.Bits(), later, total)
  {
    CodeFits(lengths, sym);
    hide Sent, HasRoom, Code, BitsOf;
    SendNumber(w, len[sym], code[sym], later, total);
  }

  lemma {:induction false} DataTodo(lens: seq<seq<Byte>>, sel: seq<int>, syms: seq<int>, k: nat, later: seq<bool>)
    requires k < |syms| && CanCode(lens, sel, syms)
    ensures k / GROUP_SIZE < |sel| && 0 <= sel[k / GROUP_SIZE] < |lens| && 0 <= syms[k] < |lens[sel[k / GROUP_SIZE]]|
    ensures DataBits(lens, sel, syms, k) + later == CodeBits(lens[sel[k / GROUP_SIZE]], syms[k]) +
      (DataBits(lens, sel, syms, k + 1) + later)
  {
    assert InGroup(lens, sel, syms, k);
    hide CodeBits;
  }

  lemma {:induction false} DataDone(lens: seq<seq<Byte>>, sel: seq<int>, syms: seq<int>, later: seq<bool>)
    requires CanCode(lens, sel, syms)
    ensures DataBits(lens, sel, syms, |syms|) + later == later
  {
  }

  lemma {:induction false} GroupOf(i: int, selCtr: int)
    requires 0 <= selCtr && GROUP_SIZE * selCtr <= i < GROUP_SIZE * (selCtr + 1)
    ensures i / GROUP_SIZE == selCtr
  {
  }

  /** One group of symbols, gs..ge. */
  method SendGroup(w: Writer, mtfv: array<int>, gs: int, ge: int, selCtr: int, len: seq<array<int>>,
    code: seq<array<int>>, ghost c: Choice, ghost n: int, ghost syms: seq<int>, t: int, ghost later: seq<bool>,
    ghost total: seq<bool>)
    requires w.Valid() && mtfv != w.zbits && HoldsSymbols(mtfv, syms) && IsChoice(c, syms, n) &&
      CanCode(c.lens, c.sel, syms)
    requires w.zbits !in len && w.zbits !in code && HoldsTables(len, code, c.lens)
    requires 0 <= gs <= ge < |syms| && gs == GROUP_SIZE * selCtr && ge < gs + GROUP_SIZE && 0 <= selCtr < |c.sel| &&
      t == c.sel[selCtr]
    requires Sent(w.Bits(), DataBits(c.lens, c.sel, syms, gs) + later, total) && |total| <= 8 * w.zbits.Length
    modifies w, w.zbits
    ensures w.Valid()
    ensures Sent(w.Bits(), DataBits(c.lens, c.sel, syms, ge + 1) + later, total)
  {
    ChoiceParts(c, syms, n);
    assert HoldsLengths(len[t], c.lens[t]) && HoldsCodes(code[t], c.lens[t]);
    var lenRow, codeRow := len[t], code[t];
    hide Sent, HasRoom, IsLengths, IsChoice, CanCode, DataBits, CodeBits, HoldsTables, GoodTables, Code, HalfAt;
    for i := gs to ge + 1
      invariant w.Valid() && HoldsSymbols(mtfv, syms)
      invariant HoldsLengths(lenRow, c.lens[t]) && HoldsCodes(codeRow, c.lens[t])
      invariant Sent(w.Bits(), DataBits(c.lens, c.sel, syms, i) + later, total)
    {
      GroupOf(i, selCtr);
      DataTodo(c.lens, c.sel, syms, i, later);
      var sym := SymbolWord(mtfv, i);
      SendSymbol(w, lenRow, codeRow, sym, c.lens[t], DataBits(c.lens, c.sel, syms, i + 1) + later, total);
    }
  }

  method SendData(w: Writer, mtfv: array<int>, nMTF: int, selector: array<int>, nSelectors: int, len: seq<array<int>>,
    code: seq<array<int>>, ghost c: Choice, ghost n: int, ghost syms: seq<int>, ghost later: seq<bool>,
    ghost total: seq<bool>)
    requires w.Valid() && mtfv != w.zbits && HoldsSymbols(mtfv, syms) && nMTF == |syms| && IsChoice(c, syms, n) &&
      CanCode(c.lens, c.sel, syms)
    requires w.zbits !in len && w.zbits !in code && HoldsTables(len, code, c.lens)
    requires selector != w.zbits && 0 <= nSelectors <= selector.Length && selector[..nSelectors] == c.sel
    requires Sent(w.Bits(), DataBits(c.lens, c.sel, syms, 0) + later, total) && |total| <= 8 * w.zbits.Length
    modifies w, w.zbits
    ensures w.Valid() && Sent(w.Bits(), later, total)
  {
    var selCtr, gs := 0, 0;
    hide Sent, CanCode, DataBits, HoldsTables, HoldsSymbols;
    assert nSelectors == (nMTF + GROUP_SIZE - 1) / GROUP_SIZE;
    while true
      invariant w.Valid() && HoldsSymbols(mtfv, syms) && HoldsTables(len, code, c.lens)
      invariant selector[..nSelectors] == c.sel
      invariant 0 <= selCtr <= nSelectors && 0 <= gs <= nMTF && (gs == nMTF || gs == GROUP_SIZE * selCtr)
      invariant gs == nMTF ==> selCtr == nSelectors
      invariant Sent(w.Bits(), DataBits(c.lens, c.sel, syms, gs) + later, total)
      decreases nMTF - gs
    {
      if gs >= nMTF { break; }
      var ge := gs + GROUP_SIZE - 1;
      if ge >= nMTF { ge := nMTF - 1; }
      assert selector[..nSelectors][selCtr] == c.sel[selCtr];
      SendGroup(w, mtfv, gs, ge, selCtr, len, code, c, n, syms, selector[selCtr], later, total);
      gs := ge + 1;
      selCtr := selCtr + 1;
    }
    DataDone(c.lens, c.sel, syms, later);
  }

  // ---- tables

  /** The limit sendMTFValues sets for code lengths. */
  const MAX_SENT_LEN := 17

  /** What BZ2_hbMakeCodeLengths delivers can be sent, and leaves room for all codes. */
  lemma {:induction false} MadeTableFits(len: seq<Byte>)
    requires 2 <= |len| <= MAX_ALPHA_SIZE && forall i | 0 <= i < |len| :: 1 <= len[i] as int <= MAX_SENT_LEN
    requires forall d: nat | MAX_SENT_LEN <= d :: Kraft(len, d, |len|) == Pow2(d)
    ensures IsLengths(len) && HasRoom(len)
  {
    CompleteHasRoom(len);
  }

  /** Recomputes one table from the symbol frequencies collected for it. */
  method RecomputeTable(len: array<int>, rfreq: array<int>, alphaSize: int)
    returns (ghost lengths: seq<Byte>, ghost rounds: nat)
    requires len != rfreq && 2 <= alphaSize <= MAX_ALPHA_SIZE && alphaSize <= len.Length && alphaSize <= rfreq.Length
    requires (forall i | 0 <= i < alphaSize :: 0 <= rfreq[i]) && Total(rfreq[..], alphaSize) < MAX_WEIGHT
    modifies len
    ensures |lengths| == alphaSize && HoldsLengths(len, lengths) && IsLengths(lengths) && HasRoom(lengths)
    ensures IsBest(lengths, Halved(Weights(rfreq[..], alphaSize), rounds))
    ensures Total(rfreq[..], alphaSize) < Fib(MAX_SENT_LEN + 1) ==> rounds == 0
  {
    FibValues();
    hide Fib, Kraft, Pow2, IsBest, Halved, Weights;
    lengths, rounds := MakeCodeLengths(len, rfreq, alphaSize, MAX_SENT_LEN);
    MadeTableFits(lengths);
  }

  method ShortestAndLongest(len: array<int>, alphaSize: int, ghost lengths: seq<Byte>)
    returns (minLen: int, maxLen: int)
    requires alphaSize == |lengths| && IsLengths(lengths) && HoldsLengths(len, lengths)
    ensures 1 <= minLen <= maxLen <= LONGEST_CODE && LengthsWithin(lengths, minLen, maxLen)
  {
    minLen, maxLen := 32, 0;
    for i := 0 to alphaSize
      invariant i > 0 ==> minLen == Shortest(lengths, i) && maxLen == Longest(lengths, i)
      invariant i == 0 ==> minLen == 32 && maxLen == 0
    {
      if len[i] > maxLen { maxLen := len[i]; }
      if len[i] < minLen { minLen := len[i]; }
    }
    Within(lengths);
  }

  method AssignTable(len: array<int>, code: array<int>, alphaSize: int, ghost lengths: seq<Byte>)
    requires len != code && alphaSize == |lengths| <= code.Length && IsLengths(lengths) && HoldsLengths(len, lengths)
    modifies code
    ensures HoldsCodes(code, lengths)
  {
    var minLen, maxLen := ShortestAndLongest(len, alphaSize, lengths);
    AssignCodes(code, len, minLen, maxLen, alphaSize, lengths);
  }

  /** No two rows are the same array. */
  ghost predicate DistinctRows(rows: seq<array<int>>) {
    forall s, t | 0 <= s < t < |rows| :: rows[s] != rows[t]
  }

  method AssignTables(len: seq<array<int>>, code: seq<array<int>>, nGroups: int, alphaSize: int,
    ghost lens: seq<seq<Byte>>)
    requires nGroups == |lens| <= |len| && nGroups <= |code| && DistinctRows(code) &&
      (forall t | 0 <= t < |code| :: code[t] !in len)
    requires forall t | 0 <= t < nGroups ::
      |lens[t]| == alphaSize <= code[t].Length && IsLengths(lens[t]) && HoldsLengths(len[t], lens[t])
    modifies code
    ensures HoldsTables(len, code, lens)
  {
    hide IsLengths;
    for t := 0 to nGroups
      invariant forall s | 0 <= s < nGroups :: HoldsLengths(len[s], lens[s])
      invariant forall s | 0 <= s < t :: HoldsCodes(code[s], lens[s])
      modifies code
    {
      AssignTable(len[t], code[t], alphaSize, lens[t]);
    }
  }

  // ---- the whole of sendMTFValues

  lemma {:induction false} TablesTodo(lens: seq<seq<Byte>>, later: seq<bool>)
    requires lens != []
    ensures TablesBits(lens) + later == TableBits(lens[0]) + (TablesBits(lens[1..]) + later)
  {
  }

  lemma {:induction false} TablesDone(later: seq<bool>)
    ensures TablesBits([]) + later == later
  {
  }

  method SendTables(w: Writer, len: seq<array<int>>, code: seq<array<int>>, nGroups: int, alphaSize: int,
    ghost lens: seq<seq<Byte>>, ghost later: seq<bool>, ghost total: seq<bool>)
    requires w.Valid() && w.zbits !in len && w.zbits !in code && nGroups == |lens| && HoldsTables(len, code, lens)
    requires forall t | 0 <= t < nGroups :: |lens[t]| == alphaSize && IsLengths(lens[t])
    requires Sent(w.Bits(), TablesBits(lens) + later, total) && |total| <= 8 * w.zbits.Length
    modifies w, w.zbits
    ensures w.Valid() && Sent(w.Bits(), later, total)
  {
    hide Sent, TablesBits, TableBits, IsLengths, HoldsLengths, HoldsCodes;
    assert lens[0..] == lens;
    for t := 0 to nGroups
      invariant w.Valid() && HoldsTables(len, code, lens)
      invariant Sent(w.Bits(), TablesBits(lens[t..]) + later, total)
    {
      TablesTodo(lens[t..], later);
      assert lens[t..][1..] == lens[t + 1..];
      assert HoldsLengths(len[t], lens[t]);
      SendTableRow(w, len[t], alphaSize, lens[t], TablesBits(lens[t + 1..]) + later, total);
    }
    assert lens[nGroups..] == [];
    TablesDone(later);
  }

  method SendTableRow(w: Writer, len: array<int>, alphaSize: int, ghost lengths: seq<Byte>, ghost later: seq<bool>,
    ghost total: seq<bool>)
    requires w.Valid() && w.zbits != len && alphaSize == |lengths| && IsLengths(lengths) && HoldsLengths(len, lengths)
    requires Sent(w.Bits(), TableBits(lengths) + later, total) && |total| <= 8 * w.zbits.Length
    modifies w, w.zbits
    ensures w.Valid() && Sent(w.Bits(), later, total)
  {
    SendTable(w, len, alphaSize, lengths, later, total);
  }

  lemma {:induction false} SelectorCount(c: Choice, syms: seq<int>, n: int)
    requires IsChoice(c, syms, n) && |syms| < GROUP_SIZE * 0x7fff
    ensures |c.sel| < 0x8000
  {
  }

  lemma {:induction false} CodedTodo(c: Choice, syms: seq<int>, n: int, later: seq<bool>)
    requires IsChoice(c, syms, n) && CanCode(c.lens, c.sel, syms)
    ensures CodedBits(c, syms, n) + later == BitsOf(|c.lens|, 3) +
      (BitsOf(|c.sel|, 15) + (SelectorBits(SelectorIndices(c.sel, |c.lens|))
      + (TablesBits(c.lens) + (DataBits(c.lens, c.sel, syms, 0) + later))))
  {
    Regrouped(BitsOf(|c.lens|, 3), BitsOf(|c.sel|, 15), SelectorBits(SelectorIndices(c.sel, |c.lens|)),
      TablesBits(c.lens), DataBits(c.lens, c.sel, syms, 0), later);
  }

  /** The tables, the selectors and the data, for tables and selectors already chosen. */
  method SendCoded(w: Writer, mtfv: array<int>, nMTF: int, selector: array<int>, selectorMtf: array<int>,
    nSelectors: int, len: seq<array<int>>, code: seq<array<int>>, nGroups: int, alphaSize: int, ghost c: Choice,
    ghost syms: seq<int>, ghost later: seq<bool>, ghost total: seq<bool>)
    requires w.Valid() && w.zbits !in len && w.zbits !in code && w.zbits !in [mtfv, selector, selectorMtf] &&
      selector != selectorMtf
    requires IsChoice(c, syms, alphaSize) && nGroups == |c.lens| && 1 <= nMTF == |syms| < GROUP_SIZE * 0x7fff &&
      HoldsSymbols(mtfv, syms)
    requires 0 <= nSelectors <= selector.Length && nSelectors <= selectorMtf.Length && selector[..nSelectors] == c.sel
    requires selectorMtf !in len && selectorMtf !in code && selectorMtf != mtfv && HoldsTables(len, code, c.lens)
    requires Sent(w.Bits(), CodedBits(c, syms, alphaSize) + later, total) && |total| <= 8 * w.zbits.Length
    modifies w, w.zbits, selectorMtf
    ensures w.Valid() && Sent(w.Bits(), later, total)
  {
    hide Sent, CanCode, HoldsTables, HoldsSymbols, CodedBits, SelectorBits, TablesBits, DataBits, SelectorIndices,
      HasRoom, IsLengths, GoodTables, IsChoice, BitsOf, Pow2, Writer.Valid, Writer.Bits;
    ChoiceParts(c, syms, alphaSize);
    ChoiceCodes(c, syms, alphaSize);
    CodedTodo(c, syms, alphaSize, later);
    SelectorCount(c, syms, alphaSize);
    SmallPowers();
    ghost var data := DataBits(c.lens, c.sel, syms, 0) + later;
    SendSelectorPart(w, selector, selectorMtf, nSelectors, nGroups, c.sel, TablesBits(c.lens) + data, total);
    SendTables(w, len, code, nGroups, alphaSize, c.lens, data, total);
    assert selector[..nSelectors] == c.sel;
    SendData(w, mtfv, nMTF, selector, nSelectors, len, code, c, alphaSize, syms, later, total);
  }

  /** sendMTFValues: the mapping table and all that follows it. */
  method SendMTFValues(w: Writer, inUse: array<bool>, mtfv: array<int>, nMTF: int, selector: array<int>,
    selectorMtf: array<int>, nSelectors: int, len: seq<array<int>>, code: seq<array<int>>, nGroups: int, alphaSize: int,
    ghost c: Choice, ghost syms: seq<int>, ghost later: seq<bool>, ghost total: seq<bool>)
    requires w.Valid() && w.zbits !in len && w.zbits !in code && w.zbits !in [mtfv, selector, selectorMtf] &&
      selector != selectorMtf
    requires IsChoice(c, syms, alphaSize) && nGroups == |c.lens| && 1 <= nMTF == |syms| < GROUP_SIZE * 0x7fff &&
      HoldsSymbols(mtfv, syms)
    requires 0 <= nSelectors <= selector.Length && nSelectors <= selectorMtf.Length && selector[..nSelectors] == c.sel
    requires selectorMtf !in len && selectorMtf !in code && selectorMtf != mtfv && HoldsTables(len, code, c.lens) &&
      inUse.Length == 256
    requires Sent(w.Bits(), MappingBits(inUse[..]) + (CodedBits(c, syms, alphaSize) + later), total) &&
      |total| <= 8 * w.zbits.Length
    modifies w, w.zbits, selectorMtf
    ensures w.Valid() && Sent(w.Bits(), later, total)
  {
    hide *;
    SendMapping(w, inUse, CodedBits(c, syms, alphaSize) + later, total);
    SendCoded(w, mtfv, nMTF, selector, selectorMtf, nSelectors, len, code, nGroups, alphaSize, c, syms, later, total);
  }

  method SendSelectorPart(w: Writer, selector: array<int>, selectorMtf: array<int>, nSelectors: int, nGroups: int,
    ghost sel: seq<int>, ghost later: seq<bool>, ghost total: seq<bool>)
    requires w.Valid() && w.zbits !in [selector, selectorMtf] && selector != selectorMtf
    requires 2 <= nGroups <= MAX_GROUPS && forall i | 0 <= i < |sel| :: 0 <= sel[i] < nGroups
    requires 0 <= nSelectors <= selector.Length && nSelectors <= selectorMtf.Length && selector[..nSelectors] == sel &&
      nSelectors < 0x8000
    requires Sent(w.Bits(),
      BitsOf(nGroups, 3) + (BitsOf(nSelectors, 15) + (SelectorBits(SelectorIndices(sel, nGroups)) + later)), total)
    requires |total| <= 8 * w.zbits.Length
    modifies w, w.zbits, selectorMtf
    ensures w.Valid() && Sent(w.Bits(), later, total)
  {
    SmallPowers();
    assert forall i | 0 <= i < nSelectors :: selector[i] == sel[i];
    hide Sent, SelectorBits, SelectorIndices, BitsOf, Pow2;
    EncodeSelectors(selector, selectorMtf, nSelectors, nGroups);
    assert selectorMtf[..nSelectors] == SelectorIndices(sel, nGroups);
    assert forall i | 0 <= i < nSelectors :: selectorMtf[i] == selectorMtf[..nSelectors][i];
    SendNumber(w, 3, nGroups, BitsOf(nSelectors, 15) + (SelectorBits(selectorMtf[..nSelectors]) + later), total);
    SendNumber(w, 15, nSelectors, SelectorBits(selectorMtf[..nSelectors]) + later, total);
    SendSelectors(w, selectorMtf, nSelectors, later, total);
  }
}
