/**
 * How far a stream has been read: whatever bits follow, parsing all of it comes to the blocks read so far and what
 * parsing from here comes to.
 */
module StreamReading {
  import opened Bits
  import opened Rotations
  import opened BitStrings
  import opened Crc
  import opened BlockParts
  import opened BlockData
  import opened BlockFormat
  import opened StreamFormat
  import opened Lossless
  import opened DataReader
  import opened HeaderSteps
  import opened HeaderParse
  import opened HeaderRefinement
  import opened DataStart

  /** These blocks in front of what is still to be parsed. */
  ghost function Before(ds: seq<Decoded>, p: Parse<Parsed>): Parse<Parsed> {
    var (x, rest) :- p;
    Done(Parsed(ds + x.blocks, x.combined), rest)
  }

  /** After all, with blocks ds read, the machine is at x, with these bits not yet read. */
  ghost predicate Reads(all: seq<bool>, ds: seq<Decoded>, x: Place, bits: seq<bool>)
    requires IsPlace(x)
  {
    forall more :: ParseStream(all + more) == Before(ds, From(x, bits + more))
  }

  /** The same within the data of a block. */
  ghost predicate ReadsData(all: seq<bool>, ds: seq<Decoded>, h: Head, g: Setting, s: Unpacking, k: nat,
    bits: seq<bool>)
    requires IsSetting(g) && Ready(s, g.most)
  {
    forall more :: ParseStream(all + more) == Before(ds, Finish(h, Data(g, s, k, bits + more)))
  }

  /** The same behind the trailer. */
  ghost predicate ReadsEnd(all: seq<bool>, ds: seq<Decoded>, combined: nat, bits: seq<bool>) {
    forall more :: ParseStream(all + more) == Done(Parsed(ds, combined), bits + more)
  }

  /** No stream begins like this. */
  ghost predicate Wrong(all: seq<bool>) {
    forall more :: ParseStream(all + more) == Bad
  }

  lemma {:induction false} ReadsFirst()
    ensures IsPlace(Magic(0)) && Reads([], [], Magic(0), [])
  {
    hide ReadBytes, ReadBits, ParseBlocks;
    forall more ensures ParseStream([] + more) == Before([], From(Magic(0), [] + more)) {
      assert STREAM_MAGIC[0..] == STREAM_MAGIC;
      NoneBefore(FromMagic(0, [] + more));
    }
  }

  lemma {:induction false} NoneBefore(p: Parse<Parsed>)
    ensures Before([], p) == p
  {
    if p.Done? { assert [] + p.value.blocks == p.value.blocks; }
  }

  lemma {:induction false} Supplied(all: seq<bool>, m: seq<bool>, more: seq<bool>)
    ensures (all + m) + more == all + (m + more)
  {
  }

  lemma {:induction false} ReadsSupplied(all: seq<bool>, ds: seq<Decoded>, x: Place, bits: seq<bool>, m: seq<bool>)
    requires IsPlace(x) && Reads(all, ds, x, bits)
    ensures Reads(all + m, ds, x, bits + m)
  {
    hide ParseStream, From, Before;
    forall more ensures ParseStream((all + m) + more) == Before(ds, From(x, (bits + m) + more)) {
      Supplied(all, m, more);
      Supplied(bits, m, more);
    }
  }

  lemma {:induction false} DataSupplied(all: seq<bool>, ds: seq<Decoded>, h: Head, g: Setting, s: Unpacking, k: nat,
    bits: seq<bool>, m: seq<bool>)
    requires IsSetting(g) && Ready(s, g.most) && ReadsData(all, ds, h, g, s, k, bits)
    ensures ReadsData(all + m, ds, h, g, s, k, bits + m)
  {
    hide ParseStream, Data, Finish, Before;
    forall more ensures ParseStream((all + m) + more) == Before(ds, Finish(h, Data(g, s, k, (bits + m) + more))) {
      Supplied(all, m, more);
      Supplied(bits, m, more);
    }
  }

  lemma {:induction false} EndSupplied(all: seq<bool>, ds: seq<Decoded>, combined: nat, bits: seq<bool>, m: seq<bool>)
    requires ReadsEnd(all, ds, combined, bits)
    ensures ReadsEnd(all + m, ds, combined, bits + m)
  {
    hide ParseStream;
    forall more ensures ParseStream((all + m) + more) == Done(Parsed(ds, combined), (bits + m) + more) {
      Supplied(all, m, more);
      Supplied(bits, m, more);
    }
  }

  // ---- steps

  lemma {:induction false} ReadMore(bits: seq<bool>, n: nat, v: nat, rest: seq<bool>, more: seq<bool>)
    requires ReadBits(bits, n) == Done(v, rest)
    ensures ReadBits(bits + more, n) == Done(v, rest + more)
  {
    assert (bits + more)[..n] == bits[..n] && (bits + more)[n..] == bits[n..] + more;
  }

  /** Where a step of the machine leads. */
  ghost predicate Led(all: seq<bool>, ds: seq<Decoded>, n: Next, rest: seq<bool>)
    requires IsNext(n)
  {
    match n
    case Go(x) => Reads(all, ds, x, rest)
    case Fail => Wrong(all)
    case AllTables(p, lens) => ReadsData(all, ds, p.h, SettingOf(p, lens), Start(), 0, rest)
    case End(combined) => ReadsEnd(all, ds, combined, rest)
  }

  lemma {:induction false} ReadsStep(all: seq<bool>, ds: seq<Decoded>, x: Place, bits: seq<bool>, v: nat,
    rest: seq<bool>)
    requires IsPlace(x) && Reads(all, ds, x, bits) && ReadBits(bits, Width(x)) == Done(v, rest)
    ensures IsNext(After(x, v)) && Led(all, ds, After(x, v), rest)
  {
    hide ParseStream, From, ReadBits, After, Then, IsPlace, Width, IsNext, Led;
    AfterGood(x, v);
    forall more ensures ParseStream(all + more) == Before(ds, Then(After(x, v), rest + more)) {
      ReadMore(bits, Width(x), v, rest, more);
      EveryStep(x, bits + more);
    }
    LedThere(all, ds, After(x, v), rest);
  }

  lemma {:induction false} LedThere(all: seq<bool>, ds: seq<Decoded>, n: Next, rest: seq<bool>)
    requires IsNext(n) && forall more :: ParseStream(all + more) == Before(ds, Then(n, rest + more))
    ensures Led(all, ds, n, rest)
  {
    hide ParseStream, From, FromTables, SettingOf, Data, Finish;
    forall more ensures LedFor(ds, n, rest, ParseStream(all + more), more) {
      if n.AllTables? { FromSetting(n.p, n.lens, rest + more); }
      if n.End? { assert ds + [] == ds; }
    }
  }

  /** What Led says of one continuation. */
  ghost predicate LedFor(ds: seq<Decoded>, n: Next, rest: seq<bool>, p: Parse<Parsed>, more: seq<bool>)
    requires IsNext(n)
  {
    match n
    case Go(x) => p == Before(ds, From(x, rest + more))
    case Fail => p == Bad
    case AllTables(plan, lens) => p == Before(ds, Finish(plan.h, Data(SettingOf(plan, lens), Start(), 0, rest + more)))
    case End(combined) => p == Done(Parsed(ds, combined), rest + more)
  }

  lemma {:induction false} ReadsWaits(all: seq<bool>, ds: seq<Decoded>, x: Place, bits: seq<bool>)
    requires IsPlace(x) && Reads(all, ds, x, bits) && ReadBits(bits, Width(x)) == NeedMore
    ensures ParseStream(all) == NeedMore
  {
    hide ParseStream, From, ReadBits, Then, IsPlace, Width;
    EveryStep(x, bits);
    assert all + [] == all && bits + [] == bits;
  }

  // ---- a block's data

  lemma {:induction false} DataOnward(all: seq<bool>, ds: seq<Decoded>, h: Head, g: Setting, s: Unpacking, k: nat,
    bits: seq<bool>, s': Unpacking, k': nat, bits': seq<bool>)
    requires IsSetting(g) && Ready(s, g.most) && Ready(s', g.most) && ReadsData(all, ds, h, g, s, k, bits)
    requires Onward(g, s, k, bits, s', k', bits')
    ensures ReadsData(all, ds, h, g, s', k', bits')
  {
    hide ParseStream, Data, Finish, Before;
    forall more ensures ParseStream(all + more) == Before(ds, Finish(h, Data(g, s', k', bits' + more))) {
      assert Data(g, s, k, bits + more) == Data(g, s', k', bits' + more);
    }
  }

  lemma {:induction false} DataWaits(all: seq<bool>, ds: seq<Decoded>, h: Head, g: Setting, s: Unpacking, k: nat,
    bits: seq<bool>)
    requires IsSetting(g) && Ready(s, g.most) && ReadsData(all, ds, h, g, s, k, bits) && Data(g, s, k, bits) == NeedMore
    ensures ParseStream(all) == NeedMore
  {
    hide ParseStream, Data;
    assert all + [] == all && bits + [] == bits;
    assert ParseStream(all + []) == Before(ds, Finish(h, Data(g, s, k, bits + [])));
  }

  lemma {:induction false} DataBreaks(all: seq<bool>, ds: seq<Decoded>, h: Head, g: Setting, s: Unpacking, k: nat,
    bits: seq<bool>)
    requires IsSetting(g) && Ready(s, g.most) && ReadsData(all, ds, h, g, s, k, bits) && Breaks(g, s, k, bits)
    ensures Wrong(all)
  {
    hide ParseStream, Data;
    forall more ensures ParseStream(all + more) == Bad {
      assert Data(g, s, k, bits + more) == Bad;
    }
  }

  /** The block that header and data make. */
  function BlockOf(h: Head, column: seq<Byte>): Decoded {
    Decoded(h.crc, h.randomised, h.origPtr, column)
  }

  lemma {:induction false} DataEnds(all: seq<bool>, ds: seq<Decoded>, h: Head, g: Setting, s: Unpacking, k: nat,
    bits: seq<bool>, out: seq<Byte>, rest: seq<bool>)
    requires IsSetting(g) && Ready(s, g.most) && ReadsData(all, ds, h, g, s, k, bits) && IsHead(h)
    requires Ends(g, s, k, bits, out, rest)
    ensures h.origPtr >= |out| ==> Wrong(all)
    ensures h.origPtr < |out| ==> Reads(all, ds + [BlockOf(h, out)], FirstByte(h.level), rest)
  {
    hide ParseStream, Data, ParseBlocks;
    forall more
      ensures h.origPtr >= |out| ==> ParseStream(all + more) == Bad
      ensures h.origPtr < |out| ==>
        ParseStream(all + more) == Before(ds + [BlockOf(h, out)], From(FirstByte(h.level), rest + more))
    {
      assert Data(g, s, k, bits + more) == Done(out, rest + more);
      var r := ParseBlocks(h.level, rest + more);
      if r.Done? {
        var d := BlockOf(h, out);
        assert ds + ([d] + r.value.blocks) == ds + [d] + r.value.blocks;
      }
    }
  }

  // ---- what decompressing comes to

  /** However the stream goes on, it does not decompress. */
  ghost predicate NotBytes(all: seq<bool>) {
    forall more :: !Decompressed(all + more).Bytes?
  }

  lemma {:induction false} WrongNotBytes(all: seq<bool>)
    requires Wrong(all)
    ensures NotBytes(all)
  {
    hide ParseStream;
  }

  /** The blocks read are at the front of those the whole stream has. */
  lemma {:induction false} BlocksInFront(all: seq<bool>, ds: seq<Decoded>, x: Place, bits: seq<bool>, more: seq<bool>)
    requires IsPlace(x) && Reads(all, ds, x, bits) && ParseStream(all + more).Done?
    ensures ds <= ParseStream(all + more).value.blocks
  {
    hide ParseStream, From;
    assert ParseStream(all + more) == Before(ds, From(x, bits + more));
  }

  lemma {:induction false} BadBlock(all: seq<bool>, ds: seq<Decoded>, x: Place, bits: seq<bool>, d: Decoded)
    requires IsPlace(x) && Reads(all, ds + [d], x, bits)
    requires d.origPtr < |d.column| && !Accepted(d)
    ensures NotBytes(all)
  {
    hide ParseStream, Reads, Accepted, From;
    forall more ensures !Decompressed(all + more).Bytes? {
      if ParseStream(all + more).Done? {
        BlocksInFront(all, ds + [d], x, bits, more);
        assert ParseStream(all + more).value.blocks[|ds|] == d;
      }
    }
  }

  /** The blocks put out have been accepted. */
  ghost predicate AreAccepted(ds: seq<Decoded>) {
    AreWalkable(ds) && forall i | 0 <= i < |ds| :: Accepted(ds[i])
  }

  lemma {:induction false} EndIs(all: seq<bool>, ds: seq<Decoded>, combined: nat, bits: seq<bool>, more: seq<bool>)
    requires ReadsEnd(all, ds, combined, bits) && AreAccepted(ds)
    ensures Decompressed(all + more) == if Combined(BlockCrcs(ds)) == combined then Bytes(AllBytes(ds)) else DataError
  {
    hide ParseStream, Accepted, AllBytes, BlockCrcs, Combined;
  }

  lemma {:induction false} AllBytesPrefix(ds: seq<Decoded>, es: seq<Decoded>)
    requires ds <= es && AreWalkable(es)
    ensures AreWalkable(ds) && AllBytes(ds) <= AllBytes(es)
    decreases |es|
  {
    hide BlockBytes;
    if |ds| < |es| { AllBytesPrefix(ds, es[..|es| - 1]); } else { assert ds == es; }
  }

  lemma {:induction false} AllBytesMore(ds: seq<Decoded>, d: Decoded)
    requires AreWalkable(ds) && d.origPtr < |d.column|
    ensures AreWalkable(ds + [d]) && AllBytes(ds + [d]) == AllBytes(ds) + BlockBytes(d).out
    ensures BlockCrcs(ds + [d]) == BlockCrcs(ds) + [BlockCrc(BlockBytes(d).out)]
  {
    hide BlockBytes, BlockCrc;
    assert (ds + [d])[..|ds|] == ds;
  }

  /** What has been put out is the beginning of what the stream decompresses to, if it does. */
  lemma {:induction false} PutOutInFront(all: seq<bool>, ds: seq<Decoded>, x: Place, bits: seq<bool>, more: seq<bool>)
    requires IsPlace(x) && Reads(all, ds, x, bits) && Decompressed(all + more).Bytes?
    ensures AreWalkable(ds) && AllBytes(ds) <= Decompressed(all + more).s
  {
    hide ParseStream, Reads, AllBytes, Accepted, BlockCrcs;
    BlocksInFront(all, ds, x, bits, more);
    AllBytesPrefix(ds, ParseStream(all + more).value.blocks);
  }

  lemma {:induction false} DataInFront(all: seq<bool>, ds: seq<Decoded>, h: Head, g: Setting, s: Unpacking, k: nat,
    bits: seq<bool>, more: seq<bool>)
    requires IsSetting(g) && Ready(s, g.most) && ReadsData(all, ds, h, g, s, k, bits)
    requires Decompressed(all + more).Bytes?
    ensures AreWalkable(ds) && AllBytes(ds) <= Decompressed(all + more).s
  {
    hide ParseStream, AllBytes, Data, Finish, Accepted, BlockCrcs;
    assert ParseStream(all + more) == Before(ds, Finish(h, Data(g, s, k, bits + more)));
    AllBytesPrefix(ds, ParseStream(all + more).value.blocks);
  }
}
