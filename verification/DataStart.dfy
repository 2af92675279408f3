/** From a block's header to the decoding of its data: maps, selectors and tables are set up. */
module DataStart {
  import opened Bits
  import opened Rotations
  import opened BitStrings
  import opened BitReader
  import opened MoveToFront
  import opened HuffmanCodes
  import opened HuffmanTables
  import opened BlockParts
  import opened BlockData
  import opened MtfEncode
  import opened BlockFormat
  import opened SelectorCoding
  import opened SendBlock
  import opened MtfPool
  import opened UnpackBlock
  import opened SymbolReader
  import opened DataReader
  import opened HeaderSteps
  import opened HeaderParse
  import opened HeaderRefinement

  /** What the header says of the data. */
  ghost function SettingOf(p: Plan, lens: seq<seq<Byte>>): (g: Setting)
    requires IsPlan(p) && AreLens(p, lens) && |lens| == p.nGroups
    ensures IsSetting(g) && Ready(Start(), g.most) && g.most == BLOCK_UNIT * p.h.level && g.eob + 1 == AlphabetSize(p)
  {
    PlanTables(p, lens);
    Setting(lens, Symbols(Identity(p.nGroups), p.js), AlphabetSize(p) - 1, BLOCK_UNIT * p.h.level, Unseq(p.used))
  }

  lemma {:induction false} FromSetting(p: Plan, lens: seq<seq<Byte>>, bits: seq<bool>)
    requires IsPlan(p) && AreLens(p, lens) && |lens| == p.nGroups
    ensures FromTables(p, lens, bits) == Finish(p.h, Data(SettingOf(p, lens), Start(), 0, bits))
  {
    hide WithBlock, DecodeData, Symbols, Unseq, Rank;
  }

  /** makeMaps_d */
  method MakeMapsD(used: seq<bool>) returns (seqToUnseq: array<int>, nInUse: int)
    requires |used| == 256
    ensures fresh(seqToUnseq) && seqToUnseq.Length == 256 && nInUse == Rank(used, 256)
    ensures forall k | 0 <= k < 256 :: seqToUnseq[k] == Unseq(used)[k] as int
  {
    seqToUnseq := new int[256](i => 0);
    nInUse := 0;
    for i := 0 to 256
      invariant nInUse == Rank(used, i)
      invariant forall k | 0 <= k < nInUse :: seqToUnseq[k] == BytesInUse(used, i)[k] as int
      invariant forall k | nInUse <= k < 256 :: seqToUnseq[k] == 0
    {
      if used[i] {
        seqToUnseq[nInUse] := i;
        nInUse := nInUse + 1;
      }
    }
  }

  /** The selectors, with their coding undone. */
  method UndoSelectors(js: seq<int>, nGroups: int) returns (sel: seq<int>)
    requires 0 < nGroups <= MAX_GROUPS && forall i | 0 <= i < |js| :: 0 <= js[i] < nGroups
    ensures sel == Symbols(Identity(nGroups), js)
  {
    var selectorMtf := new int[|js|](i requires 0 <= i < |js| => js[i]);
    var selector := new int[|js|];
    assert selectorMtf[..] == js;
    DecodeSelectors(selectorMtf, selector, |js|, nGroups);
    assert selectorMtf[..|js|] == js;
    sel := selector[..|js|];
  }

  /** Decoding tables for one table of lengths. */
  method MakeTables(lengths: seq<Byte>) returns (t: Tables)
    requires IsLengths(lengths)
    ensures IsTables(t, lengths) && Usable(t)
  {
    var len := new int[|lengths|](i requires 0 <= i < |lengths| => lengths[i] as int);
    var minLen, maxLen := ShortestAndLongest(len, |lengths|, lengths);
    var limit, base, perm := new int[MAX_ALPHA_SIZE], new int[MAX_ALPHA_SIZE], new int[MAX_ALPHA_SIZE];
    CreateDecodeTables(limit, base, perm, len, minLen, maxLen, |lengths|, lengths);
    t := Tables(limit[..], base[..], perm[..], minLen, maxLen);
  }

  method MakeAllTables(lens: seq<seq<Byte>>) returns (tables: seq<Tables>)
    requires forall t | 0 <= t < |lens| :: IsLengths(lens[t])
    ensures Match(tables, lens)
  {
    hide IsTables, IsLengths;
    tables := [];
    for t := 0 to |lens|
      invariant |tables| == t && forall s | 0 <= s < t :: IsTables(tables[s], lens[s]) && Usable(tables[s])
    {
      var one := MakeTables(lens[t]);
      tables := tables + [one];
    }
  }

  /** The decoder of a block's data, with everything of it new but the reader and the array it writes to. */
  method StartData(reader: Reader, tt: array<int>, p: Plan, lens: seq<seq<Byte>>) returns (d: Decoder)
    requires reader.Valid() && IsPlan(p) && AreLens(p, lens) && |lens| == p.nGroups &&
      tt.Length >= BLOCK_UNIT * p.h.level
    ensures fresh(d) && fresh(d.getter) && fresh(d.unpacker) && d.getter.reader == reader && d.unpacker.tt == tt
    ensures fresh(d.unpacker.pool) && fresh(d.unpacker.pool.mtfa) && fresh(d.unpacker.pool.mtfbase)
    ensures fresh(d.unpacker.unzftab) && fresh(d.unpacker.seqToUnseq)
    ensures d.Valid() && d.g == SettingOf(p, lens) && d.unpacker.State() == Start() && d.getter.k == 0 &&
      d.pending == reader.Bits()
  {
    var sel := UndoSelectors(p.js, p.nGroups);
    var tables := MakeAllTables(lens);
    var seqToUnseq, nInUse := MakeMapsD(p.used);
    ghost var g := SettingOf(p, lens);
    hide Symbols, Unseq, IsTables, IsLengths, Rank;
    var getter := new Getter(reader, tables, sel);
    var unpacker := new Unpacker(tt, seqToUnseq, g.unseq);
    d := new Decoder(getter, unpacker, nInUse + 1, BLOCK_UNIT * p.h.level, g);
  }
}
