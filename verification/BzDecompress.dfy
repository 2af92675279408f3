/**
 * BZ2_bzDecompress: calls with input and room for output cut anyhow. Whatever is put out is the beginning of what the
 * stream decompresses to, an error is reported only for input that no stream begins with, and the end only when all
 * has been put out.
 */
module BzDecompress {
  import opened Bits
  import opened Rotations
  import opened BitStrings
  import opened BitReader
  import opened RunLength
  import opened Crc
  import opened BlockData
  import opened BlockFormat
  import opened StreamFormat
  import opened SmallDecode
  import opened Lossless
  import opened MtfPool
  import opened UnpackBlock
  import opened SymbolReader
  import opened DataReader
  import opened HeaderSteps
  import opened HeaderParse
  import opened HeaderReader
  import opened DataStart
  import opened StreamReading
  import opened StreamStart
  import BlockOutput
  import BlockResult
  import BlockStart

  datatype Phase = InHeader | InData | InOutput | Idle

  datatype Ret = Ok | StreamEnd | SequenceError | DataError | DataErrorMagic

  /** The objects a decoder is made of, besides those it is given. */
  function Parts(d: Decoder): set<object> {
    {d, d.getter, d.unpacker, d.unpacker.pool, d.unpacker.pool.mtfa, d.unpacker.pool.mtfbase, d.unpacker.unzftab,
      d.unpacker.seqToUnseq}
  }

  function Arrays(o: BlockOutput.Output): set<object> {
    {o, o.tt, o.ll16, o.ll4, o.cftab}
  }

  lemma {:induction false} CombinedMore(crcs: seq<nat>, crc: nat)
    requires crc < WORD && forall i | 0 <= i < |crcs| :: crcs[i] < WORD
    ensures Combined(crcs + [crc]) == Combine(Combined(crcs), crc)
  {
    hide Combine;
    assert (crcs + [crc])[..|crcs|] == crcs;
  }

  class Decompressor {
    const smallDecompress: bool
    const s: Scanner
    var phase: Phase
    var h: Head
    var decoder: Decoder?
    var output: BlockOutput.Output?
    var calculatedCombinedCRC: nat
    /** The block being put out, and what has been put out of it. */
    ghost var cur: Decoded
    ghost var part: seq<Byte>
    /** All output so far. */
    ghost var emitted: seq<Byte>
    ghost var Repr: set<object>

    /** The blocks put out in full, and the part of the current one. */
    ghost predicate Counted()
      reads this`calculatedCombinedCRC, this`emitted, this`part, s`done
    {
      AreAccepted(s.done) && calculatedCombinedCRC == Combined(BlockCrcs(s.done)) && emitted == AllBytes(s.done) + part
    }

    ghost predicate Owns()
      reads this`Repr, this`decoder, this`output, s`tt, s`ll4
    {
      && this in Repr && s in Repr && s.reader in Repr && s.tt in Repr && s.ll4 in Repr
      && (decoder != null ==> Parts(decoder) <= Repr) && (output != null ==> Arrays(output) <= Repr)
    }

    /** A block's data are being decoded. */
    ghost predicate Decoding()
      reads this`decoder, this`h, s`tt, s`ll4, s`blockSize100k, s.tt, s.ll4, s.reader,
        if decoder == null then {} else Parts(decoder)
    {
      && decoder != null && s.ll4 !in Parts(decoder) && decoder.getter.reader == s.reader && decoder.unpacker.tt == s.tt
      && decoder.Valid() && IsHead(h) && s.Sized(h.level) && decoder.g.most == BLOCK_UNIT * h.level
    }

    /** A block is being put out. */
    ghost predicate PuttingOut()
      reads this`output, this`h, this`cur, this`part, s`tt, s`ll4, s`blockSize100k, s.ll4,
        if output == null then {} else Arrays(output)
    {
      && output != null && IsHead(h) && s.Sized(h.level) && cur == BlockOf(h, cur.column)
      && BlockResult.Handed(output, cur, part)
    }

    /** Where the stream has been read to, as said by the phase. */
    ghost predicate Placed()
      requires Owns()
      reads this, s, Repr
    {
      match phase
      case InHeader => s.Valid() && part == []
      case InData => Decoding() && part == [] && ReadsHere()
      case InOutput =>
        PuttingOut() && s.reader.Valid() && Reads(s.all, s.done + [cur], FirstByte(h.level), s.reader.Bits())
      case Idle => s.reader.Valid() && part == [] && ReadsEnd(s.all, s.done, calculatedCombinedCRC, s.reader.Bits())
    }

    /** In the data of a block, with the bits pending not yet decoded. */
    ghost predicate ReadsHere()
      requires Decoding()
      reads this`decoder, this`h, s`tt, s`ll4, s`blockSize100k, s`all, s`done, s.tt, s.ll4, s.reader,
        if decoder == null then {} else Parts(decoder)
    {
      ReadsData(s.all, s.done, h, decoder.g, decoder.unpacker.State(), decoder.getter.k, decoder.pending)
    }

    ghost predicate Valid()
      reads this, s, Repr
    {
      Owns() && Counted() && Placed() && Opened()
    }

    /** Behind the first header the input begins a stream. */
    ghost predicate Opened()
      reads this`phase, s`all
    {
      phase == InHeader || Begun(s.all)
    }

    constructor (small: bool)
      ensures Valid() && phase == InHeader && s.all == [] && emitted == [] && smallDecompress == small && fresh(Repr)
    {
      smallDecompress := small;
      s := new Scanner();
      phase, h, decoder, output, calculatedCombinedCRC := InHeader, Head(0, 0, false, 0), null, null, 0;
      cur, part, emitted := Decoded(0, false, 0, []), [], [];
      new;
      Repr := {this, s, s.reader, s.tt, s.ll4};
    }

    /** What the caller has added to the input. */
    method Supply(input: seq<Byte>)
      requires Valid()
      modifies Repr
      ensures Valid() && phase == old(phase) && s.all == old(s.all) + InputBits(input)
      ensures emitted == old(emitted) && Repr == old(Repr)
    {
      hide Reads, ReadsData, ReadsEnd, InputBits, Reader.Bits, Counted, PuttingOut, Decoding, Scanner.Valid, Begun;
      if phase != InHeader { BegunStill(s.all, InputBits(input)); }
      if phase == InData { SupplyData(input); } else { SupplyReader(input); }
    }

    method SupplyData(input: seq<Byte>)
      requires Owns() && Decoding() && ReadsHere()
      modifies s`all, decoder`pending, s.reader`input, s.reader`next
      ensures Decoding() && ReadsHere() && s.all == old(s.all) + InputBits(input)
    {
      hide ReadsData, InputBits, Reader.Bits, Decoder.Tied;
      ghost var m := InputBits(input);
      DataSupplied(s.all, s.done, h, decoder.g, decoder.unpacker.State(), decoder.getter.k, decoder.pending, m);
      decoder.Supply(input);
      s.all := s.all + m;
    }

    method SupplyReader(input: seq<Byte>)
      requires Owns() && Placed() && phase != InData
      modifies s`all, s.reader`input, s.reader`next
      ensures Placed() && s.all == old(s.all) + InputBits(input)
    {
      hide Reads, ReadsEnd, InputBits, Reader.Bits, PuttingOut, Scanner.Valid;
      if phase == InHeader {
        s.Supply(input);
      } else if phase == InOutput {
        InFirstByte();
        SupplyBehind(input, s.done + [cur], FirstByte(h.level));
      } else {
        SupplyEnd(input);
      }
    }

    method SupplyBehind(input: seq<Byte>, ghost ds: seq<Decoded>, ghost x: Place)
      requires s.reader.Valid() && IsPlace(x) && Reads(s.all, ds, x, s.reader.Bits())
      modifies s`all, s.reader`input, s.reader`next
      ensures s.reader.Valid() && Reads(s.all, ds, x, s.reader.Bits()) && s.all == old(s.all) + InputBits(input)
    {
      hide Reads, InputBits, Reader.Bits, IsPlace;
      ghost var m := InputBits(input);
      ReadsSupplied(s.all, ds, x, s.reader.Bits(), m);
      s.reader.Supply(input);
      s.all := s.all + m;
    }

    method SupplyEnd(input: seq<Byte>)
      requires s.reader.Valid() && ReadsEnd(s.all, s.done, calculatedCombinedCRC, s.reader.Bits())
      modifies s`all, s.reader`input, s.reader`next
      ensures s.reader.Valid() && ReadsEnd(s.all, s.done, calculatedCombinedCRC, s.reader.Bits())
      ensures s.all == old(s.all) + InputBits(input)
    {
      hide ReadsEnd, InputBits, Reader.Bits;
      ghost var m := InputBits(input);
      EndSupplied(s.all, s.done, calculatedCombinedCRC, s.reader.Bits(), m);
      s.reader.Supply(input);
      s.all := s.all + m;
    }

    lemma {:induction false} InFirstByte()
      requires PuttingOut()
      ensures IsPlace(FirstByte(h.level))
    {
    }

    // ---- a block's data

    /** The header has been read: tables, selectors and maps are set up. */
    method BeginData(p: Plan, lens: seq<seq<Byte>>)
      requires Owns() && Counted() && part == [] && s.reader.Valid()
      requires IsPlan(p) && AreLens(p, lens) && |lens| == p.nGroups && s.Sized(p.h.level)
      requires ReadsData(s.all, s.done, p.h, SettingOf(p, lens), Start(), 0, s.reader.Bits()) && Begun(s.all)
      modifies this`decoder, this`h, this`phase, this`Repr
      ensures Valid() && phase == InData && decoder.pending == s.reader.Bits() && fresh(Repr - old(Repr))
      ensures old(Repr) <= Repr
    {
      hide ReadsData, SettingOf, Reader.Bits, Counted, AreLens, Decoder.Valid, Unpacker.Valid, IsSetting, Ready,
        PuttingOut, ReadsEnd, Reads, Scanner.Valid, IsPlan, Begun;
      HeadOfPlan(p);
      h := p.h;
      decoder := StartData(s.reader, s.tt, p, lens);
      phase := InData;
      Repr := Repr + Parts(decoder);
    }

    lemma {:induction false} HeadOfPlan(p: Plan)
      requires IsPlan(p)
      ensures IsHead(p.h)
    {
    }

    /** Decodes as much as there is. */
    method RunData() returns (r: Progress)
      requires Decoding() && ReadsHere()
      modifies decoder`pending, decoder.getter`groupNo, decoder.getter`groupPos, decoder.getter`gSel,
        decoder.getter`phase, decoder.getter`zn, decoder.getter`zvec, decoder.getter`k
      modifies s.reader`bsBuff, s.reader`bsLive, s.reader`next
      modifies decoder.unpacker`nblock, decoder.unpacker`es, decoder.unpacker`weight, decoder.unpacker`out, s.tt,
        decoder.unpacker.unzftab, decoder.unpacker.pool.mtfa, decoder.unpacker.pool.mtfbase
      ensures r == Suspended ==> Decoding() && ReadsHere() && ParseStream(s.all) == NeedMore
      ensures r == Corrupt ==> Wrong(s.all)
      ensures r == Finished ==> IsHead(h) && s.Sized(h.level) && s.reader.Valid() && decoder.unpacker.Valid()
      ensures r == Finished ==> |s.reader.Bits()| <= |old(decoder.pending)| && IsPlace(FirstByte(h.level))
      ensures r == Finished && h.origPtr >= |decoder.unpacker.out| ==> Wrong(s.all)
      ensures r == Finished && h.origPtr < |decoder.unpacker.out| ==>
        Reads(s.all, s.done + [BlockOf(h, decoder.unpacker.out)], FirstByte(h.level), s.reader.Bits())
    {
      hide ReadsData, Reads, Wrong, Onward, Ends, Breaks, Data, Reader.Bits, Decoder.Tied, Unpacker.Valid, ParseStream,
        IsSetting, Ready;
      ghost var g, u, k, bits := decoder.g, decoder.unpacker.State(), decoder.getter.k, decoder.pending;
      r := decoder.Run();
      if r == Suspended {
        DataWaits(s.all, s.done, h, g, u, k, bits);
        DataOnward(s.all, s.done, h, g, u, k, bits, decoder.unpacker.State(), decoder.getter.k, decoder.pending);
      } else if r == Corrupt {
        DataBreaks(s.all, s.done, h, g, u, k, bits);
      } else {
        DataEnds(s.all, s.done, h, g, u, k, bits, decoder.unpacker.out, s.reader.Bits());
        RestShorter(g, u, k, bits, decoder.unpacker.out, s.reader.Bits());
      }
    }

    lemma {:induction false} RestShorter(g: Setting, u: Unpacking, k: nat, bits: seq<bool>, out: seq<Byte>,
      rest: seq<bool>)
      requires IsSetting(g) && Ready(u, g.most) && Ends(g, u, k, bits, out, rest)
      ensures |rest| <= |bits|
    {
      assert bits + [] == bits && rest + [] == rest;
      assert Data(g, u, k, bits + []) == Done(out, rest + []);
    }

    /** The block is decoded: the links are set up, and the first byte is fetched. */
    method StartOutput()
      requires Owns() && decoder != null && IsHead(h) && s.Sized(h.level) && decoder.unpacker.Valid()
      requires decoder.unpacker.tt == s.tt && s.ll4 !in Parts(decoder) && h.origPtr < |decoder.unpacker.out|
      modifies this`output, this`cur, this`part, this`Repr, s.tt, s.ll4
      ensures Owns() && PuttingOut() && cur == BlockOf(h, old(decoder.unpacker.out)) && part == []
      ensures fresh(Repr - old(Repr)) && old(Repr) <= Repr
    {
      hide BlockResult.Handed, UnpackBlock.Output, Unpacker.Valid, Scanner.Sized;
      UnpackerGives();
      cur, part := BlockOf(h, decoder.unpacker.out), [];
      var o := NewOutput(decoder.unpacker.unzftab, decoder.unpacker.nblock, decoder.unpacker.out);
      output := o;
      Repr := Repr + Arrays(o);
    }

    method NewOutput(unzftab: array<int>, nblock: int, ghost column: seq<Byte>) returns (o: BlockOutput.Output)
      requires IsHead(h) && s.Sized(h.level) && UnpackBlock.Output(s.tt[..], unzftab[..], column)
      requires s.tt != unzftab && unzftab != s.ll4 && nblock == |column| <= s.tt.Length && h.origPtr < |column|
      modifies s.tt, s.ll4
      ensures fresh(o) && o.tt == s.tt && o.ll16 == s.tt && o.ll4 in {s.tt, s.ll4} &&
        (o.cftab == s.tt || fresh(o.cftab))
      ensures s.Sized(h.level) && BlockResult.Handed(o, BlockOf(h, column), [])
    {
      hide BlockResult.Handed, UnpackBlock.Output, BlockOutput.Output.Located, BlockOutput.Output.Ahead;
      var p: BlockOutput.Output?;
      if smallDecompress {
        SmallStore(unzftab, column);
        p := BlockStart.StartSmall(s.tt, s.ll4, unzftab, nblock, h.origPtr, h.level, h.randomised, column);
        StillBytes(p);
      } else {
        p := BlockStart.StartFast(s.tt, unzftab, nblock, h.origPtr, h.level, h.randomised, column);
      }
      o := p;
      BlockResult.Starting(o, BlockOf(h, column));
    }

    lemma {:induction false} UnpackerGives()
      requires decoder != null && decoder.unpacker.Valid() && decoder.unpacker.tt == s.tt
      ensures UnpackBlock.Output(s.tt[..], decoder.unpacker.unzftab[..], decoder.unpacker.out)
      ensures s.tt != decoder.unpacker.unzftab && decoder.unpacker.nblock == |decoder.unpacker.out| <= s.tt.Length
    {
    }

    lemma {:induction false} SmallStore(unzftab: array<int>, column: seq<Byte>)
      requires s.Sized(h.level) && UnpackBlock.Output(s.tt[..], unzftab[..], column) && |column| <= s.tt.Length
      ensures IsStore(s.tt[..], s.ll4[..], |column|)
    {
    }

    lemma {:induction false} StillBytes(o: BlockOutput.Output)
      requires o.Valid() && o.smallDecompress && o.ll4 == s.ll4
      ensures forall i | 0 <= i < s.ll4.Length :: 0 <= s.ll4[i] < 256
    {
      forall i | 0 <= i < s.ll4.Length ensures 0 <= s.ll4[i] < 256 { assert s.ll4[i] == s.ll4[..][i]; }
    }

    // ---- output

    /** The current block is not out yet. */
    ghost predicate Unfinished()
      reads this`phase, this`cur, this`part
    {
      phase == InOutput && cur.origPtr < |cur.column| && BlockBytes(cur) != Expanded(part, true)
    }

    /** One call's worth of output from the current block. */
    method PutOut(room: nat) returns (out: seq<Byte>, r: BlockResult.Answer)
      requires Valid() && phase == InOutput
      modifies this`phase, this`calculatedCombinedCRC, this`part, this`emitted, s`done, s`place
      modifies output`tPos, output`nblock_used, output`todo, output`raw, output`rNToGo, output`rTPos, output`k0,
        output`state_out_ch, output`state_out_len,
        output`calculatedBlockCRC
      ensures emitted == old(emitted) + out && |out| <= room
      ensures r == BlockResult.Going ==> Valid() && Unfinished() && |out| == room
      ensures r == BlockResult.Finished ==> Valid() && phase == InHeader
      ensures r == BlockResult.BadData ==> NotBytes(s.all)
      ensures Begun(s.all)
    {
      hide Reads, AllBytes, Combined, BlockCrcs, Accepted, AreAccepted, BlockResult.Handed, BlockBytes, Scanner.Sized,
        Scanner.Valid, NotBytes, ReadsEnd, Reader.Bits, Decoding, Begun;
      InFirstByte();
      BlockResult.HandedPrefix(output, cur, part);
      ghost var bits := s.reader.Bits();
      out, r := BlockResult.OutputCall(output, room, h.crc, cur, part);
      emitted, part := emitted + out, part + out;
      if r == BlockResult.BadData {
        BadBlock(s.all, s.done, FirstByte(h.level), bits, cur);
      } else if r == BlockResult.Finished {
        FinishBlock();
      }
    }

    /** The block is out and its checksum right. */
    method FinishBlock()
      requires Owns() && Counted() && PuttingOut() && s.reader.Valid() && cur.origPtr < |cur.column| && Accepted(cur)
      requires part == BlockBytes(cur).out && IsPlace(FirstByte(h.level)) && Begun(s.all)
      requires Reads(s.all, s.done + [cur], FirstByte(h.level), s.reader.Bits())
      modifies this`phase, this`calculatedCombinedCRC, this`part, s`done, s`place
      ensures Valid() && phase == InHeader
    {
      hide Reads, AllBytes, Combined, BlockCrcs, Accepted, AreAccepted, BlockResult.Handed, BlockBytes, Combine,
        Scanner.Sized, Begun;
      HeldCrc();
      OneMore();
      calculatedCombinedCRC := Combine(calculatedCombinedCRC, h.crc);
      s.done := s.done + [cur];
      part := [];
      s.place := FirstByte(h.level);
      phase := InHeader;
    }

    lemma {:induction false} HeldCrc()
      requires PuttingOut()
      ensures cur.crc == h.crc < WORD
    {
    }

    lemma {:induction false} OneMore()
      requires AreAccepted(s.done) && cur.origPtr < |cur.column| && Accepted(cur) && cur.crc < WORD
      ensures AreAccepted(s.done + [cur]) && AllBytes(s.done + [cur]) == AllBytes(s.done) + BlockBytes(cur).out
      ensures Combined(BlockCrcs(s.done + [cur])) == Combine(Combined(BlockCrcs(s.done)), cur.crc)
    {
      hide BlockBytes, Combine, Combined, BlockCrcs, AllBytes;
      AllBytesMore(s.done, cur);
      CombinedMore(BlockCrcs(s.done), cur.crc);
    }

    // ---- the calls

    /** How many bits there are still to decode. */
    ghost function Left(): nat
      requires Valid()
      reads this, s, Repr
    {
      if phase == InData then |decoder.pending| else |s.reader.Bits()|
    }

    /** BZ2_decompress in a header: up to the block's data, the end of the stream, or of the input. */
    method AdvanceHeader() returns (r: Ret)
      requires Valid() && phase == InHeader
      modifies this`phase, this`decoder, this`h, this`Repr
      modifies s`place, s`blockSize100k, s`tt, s`ll4, s.reader`bsBuff, s.reader`bsLive, s.reader`next
      ensures r == Ok ==> Valid() && fresh(Repr - old(Repr)) && old(Repr) <= Repr
      ensures r == Ok ==>
        (phase == InHeader && ParseStream(s.all) == NeedMore) || (phase == InData && Left() < old(Left()))
      ensures r == StreamEnd ==> Valid() && phase == Idle && fresh(Repr - old(Repr)) && old(Repr) <= Repr
      ensures r in {Ok, StreamEnd} || (r in {Ret.DataError, DataErrorMagic} && NotBytes(s.all))
      ensures r == DataErrorMagic <==> !Begins(s.all)
    {
      hide Reads, ReadsData, ReadsEnd, Reader.Bits, Counted, SettingOf, NotBytes, Wrong, ParseStream, IsPlan, AreLens,
        LevelOf, IsPlace, Begins;
      var stop := s.Run();
      Repr := Repr + {s.tt, s.ll4};
      match stop
      case Wait => r := Ok;
      case Invalid =>
        WrongNotBytes(s.all);
        r := if s.place.Magic? || s.place.LevelByte? then DataErrorMagic else Ret.DataError;
      case DataNext(p, lens) =>
        BeginData(p, lens);
        r := Ok;
      case Trailer(combined) => r := AtTrailer(combined);
    }

    /** The trailer's checksum is compared. */
    method AtTrailer(combined: nat) returns (r: Ret)
      requires Owns() && Counted() && part == [] && s.reader.Valid()
      requires ReadsEnd(s.all, s.done, combined, s.reader.Bits()) && Begun(s.all)
      modifies this`phase
      ensures r == StreamEnd ==> Valid() && phase == Idle
      ensures r == StreamEnd || (r == Ret.DataError && NotBytes(s.all))
    {
      hide ReadsEnd, AllBytes, Combined, BlockCrcs, AreAccepted, Decompressed;
      phase := Idle;
      if calculatedCombinedCRC != combined {
        forall more
          ensures !Decompressed(s.all + more).Bytes?
        {
          EndIs(s.all, s.done, combined, s.reader.Bits(), more);
        }
        return Ret.DataError;
      }
      r := StreamEnd;
    }

    /** BZ2_decompress in a block's data: up to the block's end, or that of the input. */
    method AdvanceData() returns (r: Ret)
      requires Valid() && phase == InData
      modifies Repr
      ensures emitted == old(emitted) && s.all == old(s.all)
      ensures r == Ok ==> Valid() && fresh(Repr - old(Repr)) && old(Repr) <= Repr
      ensures r == Ok ==>
        (phase == InData && ParseStream(s.all) == NeedMore) || (phase == InOutput && Left() <= old(Left()))
      ensures r == Ok || (r == Ret.DataError && NotBytes(s.all))
      ensures Begun(s.all)
    {
      hide Begun, Reads, ReadsHere, Reader.Bits, Counted, NotBytes, Wrong, ParseStream, Unpacker.Valid, Scanner.Sized,
        Decoder.Valid;
      var progress := RunData();
      match progress
      case Suspended => r := Ok;
      case Corrupt =>
        WrongNotBytes(s.all);
        r := Ret.DataError;
      case Finished => r := EndData();
    }

    /** All of a block's data is decoded. */
    method EndData() returns (r: Ret)
      requires Owns() && Counted() && part == [] && phase == InData && decoder != null && IsHead(h) && s.Sized(h.level)
      requires s.reader.Valid() && decoder.unpacker.Valid() && decoder.unpacker.tt == s.tt && s.ll4 !in Parts(decoder)
      requires IsPlace(FirstByte(h.level)) && (h.origPtr >= |decoder.unpacker.out| ==> Wrong(s.all))
      requires h.origPtr < |decoder.unpacker.out| ==>
        Reads(s.all, s.done + [BlockOf(h, decoder.unpacker.out)], FirstByte(h.level), s.reader.Bits())
      requires Begun(s.all)
      modifies this`phase, this`output, this`cur, this`part, this`Repr, s.tt, s.ll4
      ensures r == Ok ==> Valid() && phase == InOutput && fresh(Repr - old(Repr)) && old(Repr) <= Repr
      ensures r == Ok || (r == Ret.DataError && NotBytes(s.all))
    {
      hide Reads, Reader.Bits, NotBytes, Wrong, Unpacker.Valid, Scanner.Sized, Counted, PuttingOut, Begun;
      UnpackerGives();
      if h.origPtr >= decoder.unpacker.nblock {
        WrongNotBytes(s.all);
        return Ret.DataError;
      }
      StartOutput();
      phase := InOutput;
      r := Ok;
    }

    /**
     * BZ2_bzDecompress: input is what the caller adds to the bytes not yet read, room the size of the output buffer.
     * It returns Ok only with the buffer full and more to come, or when it needs more input; StreamEnd at the end of a
     * stream all of which has been put out, and an error only if no stream that begins with this input decompresses to
     * anything: DataErrorMagic just if the input does not begin with "BZh" and a digit from 1 to 9, as far as it goes.
     */
    method Decompress(input: seq<Byte>, room: nat) returns (ret: Ret, out: seq<Byte>)
      requires Valid()
      modifies Repr
      ensures s.all == old(s.all) + InputBits(input) && emitted == old(emitted) + out && |out| <= room
      ensures ret in {Ok, StreamEnd, SequenceError} ==> Valid() && fresh(Repr - old(Repr))
      ensures ret == SequenceError <==> old(phase) == Idle
      ensures ret == StreamEnd ==> phase == Idle
      ensures ret == Ok ==> phase != Idle && ((|out| == room && Unfinished()) || Decompressed(s.all) == Incomplete)
      ensures ret in {Ret.DataError, DataErrorMagic} ==> NotBytes(s.all)
      ensures ret != SequenceError ==> (ret == DataErrorMagic <==> !Begins(s.all))
    {
      hide Owns, Counted, Placed, NotBytes, ParseStream, Reader.Bits, InputBits, Begins;
      out := [];
      Supply(input);
      if phase == Idle { return SequenceError, out; }
      ret, out := Rounds(room);
    }

    method Rounds(room: nat) returns (ret: Ret, out: seq<Byte>)
      requires Valid() && phase != Idle
      modifies Repr
      ensures s.all == old(s.all) && emitted == old(emitted) + out && |out| <= room
      ensures ret in {Ok, StreamEnd} ==> Valid() && fresh(Repr - old(Repr))
      ensures ret != SequenceError && (ret == StreamEnd ==> phase == Idle)
      ensures ret == Ok ==> phase != Idle && ((|out| == room && Unfinished()) || ParseStream(s.all) == NeedMore)
      ensures ret in {Ret.DataError, DataErrorMagic} ==> NotBytes(s.all)
      ensures ret == DataErrorMagic <==> !Begins(s.all)
    {
      hide Owns, Counted, Placed, NotBytes, ParseStream, Reader.Bits, Begins;
      out, ret := [], Ok;
      var stop := false;
      while !stop
        invariant !stop ==> ret == Ok
        invariant ret in {Ok, StreamEnd} ==> Valid() && fresh(Repr - old(Repr)) && old(Repr) <= Repr
        invariant s.all == old(s.all) && emitted == old(emitted) + out && |out| <= room
        invariant ret != SequenceError && (ret == StreamEnd ==> phase == Idle) && (ret == Ok ==> phase != Idle)
        invariant stop && ret == Ok ==> (|out| == room && Unfinished()) || ParseStream(s.all) == NeedMore
        invariant ret in {Ret.DataError, DataErrorMagic} ==> NotBytes(s.all)
        invariant if stop then ret == DataErrorMagic <==> !Begins(s.all) else ret == Ok
        decreases !stop, if ret in {Ok, StreamEnd} then Left() else 0, phase == InData
      {
        var more;
        stop, ret, more := Round(room - |out|);
        out := out + more;
      }
    }

    /** One round of its loop: output if there is any, and then input. */
    method Round(room: nat) returns (stop: bool, ret: Ret, out: seq<Byte>)
      requires Valid() && phase != Idle
      modifies Repr
      ensures s.all == old(s.all) && emitted == old(emitted) + out && |out| <= room
      ensures ret in {Ok, StreamEnd} ==> Valid() && fresh(Repr - old(Repr)) && old(Repr) <= Repr
      ensures ret != SequenceError && (ret == StreamEnd ==> phase == Idle) && (ret == Ok ==> phase != Idle)
      ensures stop && ret == Ok ==> (|out| == room && Unfinished()) || ParseStream(s.all) == NeedMore
      ensures !stop ==>
        ret == Ok && phase == InOutput && if old(phase) == InData then Left() <= old(Left()) else Left() < old(Left())
      ensures ret in {Ret.DataError, DataErrorMagic} ==> NotBytes(s.all)
      ensures stop ==> (ret == DataErrorMagic <==> !Begins(s.all))
    {
      hide Counted, Placed, NotBytes, ParseStream, Reader.Bits, Begins;
      out := [];
      if phase == InOutput {
        var a;
        out, a := PutOut(room);
        if a != BlockResult.Finished { return true, if a == BlockResult.Going then Ok else Ret.DataError, out; }
      }
      if phase == InHeader {
        ret := AdvanceHeader();
        if ret != Ok || phase == InHeader { return true, ret, out; }
      }
      ret := AdvanceData();
      stop := ret != Ok || phase == InData;
    }

    /** What has been put out is the beginning of what the stream decompresses to, if it does. */
    lemma {:induction false} PutOutIsPrefix(more: seq<bool>)
      requires Valid() && Decompressed(s.all + more).Bytes?
      ensures emitted <= Decompressed(s.all + more).s
    {
      hide Reads, ReadsData, ReadsEnd, Decompressed, AllBytes, Combined, BlockCrcs, Accepted, Decoder.Tied,
        BlockResult.Handed, Reader.Bits, Scanner.Sized;
      match phase {
        case InHeader => PutOutInFront(s.all, s.done, s.place, s.reader.Bits(), more);
        case InData =>
          DataInFront(s.all, s.done, h, decoder.g, decoder.unpacker.State(), decoder.getter.k, decoder.pending, more);
        case InOutput => PartInFront(more);
        case Idle => EndIsAll(more);
      }
    }

    lemma {:induction false} PartInFront(more: seq<bool>)
      requires Owns() && Counted() && PuttingOut() && s.reader.Valid() && Decompressed(s.all + more).Bytes?
      requires IsPlace(FirstByte(h.level)) && Reads(s.all, s.done + [cur], FirstByte(h.level), s.reader.Bits())
      ensures emitted <= Decompressed(s.all + more).s
    {
      hide Reads, Decompressed, AllBytes, Combined, BlockCrcs, Accepted, BlockResult.Handed, Reader.Bits, Scanner.Sized,
        BlockBytes;
      BlockResult.HandedPrefix(output, cur, part);
      PutOutInFront(s.all, s.done + [cur], FirstByte(h.level), s.reader.Bits(), more);
      AllBytesMore(s.done, cur);
    }

    /** With a block not yet out, there is more to come. */
    lemma {:induction false} MoreToCome(more: seq<bool>)
      requires Valid() && Unfinished() && Decompressed(s.all + more).Bytes?
      ensures |emitted| < |Decompressed(s.all + more).s|
    {
      hide Reads, Decompressed, AllBytes, Combined, BlockCrcs, Accepted, BlockResult.Handed, Reader.Bits, Scanner.Sized,
        BlockBytes;
      BlockResult.HandedPrefix(output, cur, part);
      PutOutInFront(s.all, s.done + [cur], FirstByte(h.level), s.reader.Bits(), more);
      CurrentAccepted(more);
      AllBytesMore(s.done, cur);
    }

    lemma {:induction false} CurrentAccepted(more: seq<bool>)
      requires PuttingOut() && s.reader.Valid() && Decompressed(s.all + more).Bytes? && cur.origPtr < |cur.column|
      requires IsPlace(FirstByte(h.level)) && Reads(s.all, s.done + [cur], FirstByte(h.level), s.reader.Bits())
      ensures BlockBytes(cur).ok
    {
      hide Reads, Decompressed, BlockBytes, BlockCrc, Reader.Bits, Scanner.Sized, BlockResult.Handed;
      if !BlockBytes(cur).ok {
        BadBlock(s.all, s.done, FirstByte(h.level), s.reader.Bits(), cur);
        assert false;
      }
    }

    /** At the end all has been put out, whatever may follow. */
    lemma {:induction false} EndIsAll(more: seq<bool>)
      requires Valid() && phase == Idle
      ensures Decompressed(s.all + more) == Bytes(emitted)
    {
      hide ReadsEnd, Decompressed, AllBytes, Combined, BlockCrcs, Accepted, Reader.Bits;
      EndIs(s.all, s.done, calculatedCombinedCRC, s.reader.Bits(), more);
    }
  }
}
