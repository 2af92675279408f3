/**
 * Decoding a block's data from input that arrives in pieces: symbols are read as far as the input
 * goes, and a later call goes on in the middle of a symbol or a run.
 */
module DataReader {
  import opened Bits
  import opened Rotations
  import opened BitStrings
  import opened BitReader
  import opened MoveToFront
  import opened HuffmanCodes
  import opened HuffmanTables
  import opened BlockData
  import opened UnpackBlock
  import opened SymbolReader

  datatype Progress = Suspended | Finished | Corrupt

  /** What stays the same for the whole block. */
  datatype Setting = Setting(lens: seq<seq<Byte>>, sel: seq<int>, eob: int, most: int, unseq: seq<Byte>)

  ghost predicate IsSetting(g: Setting) {
    2 <= g.eob && GoodTables(g.lens, g.sel, g.eob + 1) && |g.unseq| == 256
  }

  /** The tables were built for these lengths. */
  ghost predicate Match(tables: seq<Tables>, lens: seq<seq<Byte>>) {
    |tables| == |lens| && forall t | 0 <= t < |lens| :: IsTables(tables[t], lens[t]) && Usable(tables[t])
  }

  lemma {:induction false} FreshIsNext(g: Setting, tables: seq<Tables>, k: nat, bits: seq<bool>)
    requires IsSetting(g) && Match(tables, g.lens)
    ensures Fresh(tables, g.sel, k, bits) == NextSymbol(g.lens, g.sel, g.eob + 1, k, bits)
  {
    if k / GROUP_SIZE < |g.sel| {
      var s := g.sel[k / GROUP_SIZE];
      assert IsTables(tables[s], g.lens[s]) && |g.lens[s]| == g.eob + 1;
      hide IsTables, DecodeSymbol;
      SameDecoding(tables[s], g.lens[s], bits);
    }
  }

  /** The block's data from symbol k on. */
  ghost function Data(g: Setting, s: Unpacking, k: nat, bits: seq<bool>): Parse<seq<Byte>>
    requires IsSetting(g) && Ready(s, g.most)
  {
    DecodeData(g.lens, g.sel, g.eob, g.most, g.unseq, s, k, bits)
  }

  /** Decoding from here comes to the same as decoding from there, whatever follows. */
  ghost predicate Onward(g: Setting, s: Unpacking, k: nat, bits: seq<bool>, s': Unpacking, k': nat, bits': seq<bool>)
    requires IsSetting(g) && Ready(s, g.most) && Ready(s', g.most)
  {
    forall more :: Data(g, s, k, bits + more) == Data(g, s', k', bits' + more)
  }

  /** Symbol k is v, with bits' behind it, whatever follows. */
  ghost predicate Comes(g: Setting, k: nat, bits: seq<bool>, v: int, bits': seq<bool>)
    requires IsSetting(g)
  {
    forall more :: NextSymbol(g.lens, g.sel, g.eob + 1, k, bits + more) == Done(v, bits' + more)
  }

  lemma {:induction false} ComesInRange(g: Setting, k: nat, bits: seq<bool>, v: int, bits': seq<bool>)
    requires IsSetting(g) && Comes(g, k, bits, v, bits')
    ensures 0 <= v <= g.eob
  {
    assert NextSymbol(g.lens, g.sel, g.eob + 1, k, bits + []) == Done(v, bits' + []);
  }

  lemma {:induction false} OnwardStep(g: Setting, s: Unpacking, k: nat, bits: seq<bool>, v: int, bits': seq<bool>,
    s': Unpacking)
    requires IsSetting(g) && Ready(s, g.most) && Comes(g, k, bits, v, bits') && 0 <= v <= g.eob
    requires Step(s, v, g.eob, g.most, g.unseq) == Going(s')
    ensures Ready(s', g.most) && Onward(g, s, k, bits, s', k + 1, bits')
  {
    hide NextSymbol, Ready;
    forall more ensures Data(g, s, k, bits + more) == Data(g, s', k + 1, bits' + more) {
      assert NextSymbol(g.lens, g.sel, g.eob + 1, k, bits + more) == Done(v, bits' + more);
      hide Step;
    }
  }

  lemma {:induction false} OnwardThrough(g: Setting, s: Unpacking, k: nat, bits: seq<bool>, s1: Unpacking, k1: nat,
    bits1: seq<bool>, s2: Unpacking, k2: nat, bits2: seq<bool>)
    requires IsSetting(g) && Ready(s, g.most) && Ready(s1, g.most) && Ready(s2, g.most)
    requires Onward(g, s, k, bits, s1, k1, bits1) && Onward(g, s1, k1, bits1, s2, k2, bits2)
    ensures Onward(g, s, k, bits, s2, k2, bits2)
  {
    hide Data;
    forall more ensures Data(g, s, k, bits + more) == Data(g, s2, k2, bits2 + more) {
      assert Data(g, s, k, bits + more) == Data(g, s1, k1, bits1 + more);
    }
  }

  lemma {:induction false} OnwardNow(g: Setting, s: Unpacking, k: nat, bits: seq<bool>, s1: Unpacking, k1: nat,
    bits1: seq<bool>)
    requires IsSetting(g) && Ready(s, g.most) && Ready(s1, g.most) && Onward(g, s, k, bits, s1, k1, bits1)
    ensures Data(g, s, k, bits) == Data(g, s1, k1, bits1)
  {
    hide Data;
    assert bits + [] == bits && bits1 + [] == bits1;
    assert Data(g, s, k, bits + []) == Data(g, s1, k1, bits1 + []);
  }

  /** The block ends here, whatever follows. */
  ghost predicate Ends(g: Setting, s: Unpacking, k: nat, bits: seq<bool>, out: seq<Byte>, rest: seq<bool>)
    requires IsSetting(g) && Ready(s, g.most)
  {
    forall more :: Data(g, s, k, bits + more) == Done(out, rest + more)
  }

  /** The block is corrupt, whatever follows. */
  ghost predicate Breaks(g: Setting, s: Unpacking, k: nat, bits: seq<bool>)
    requires IsSetting(g) && Ready(s, g.most)
  {
    forall more :: Data(g, s, k, bits + more) == Bad
  }

  lemma {:induction false} OnwardStops(g: Setting, s: Unpacking, k: nat, bits: seq<bool>, s1: Unpacking, k1: nat,
    bits1: seq<bool>, out: seq<Byte>, rest: seq<bool>)
    requires IsSetting(g) && Ready(s, g.most) && Ready(s1, g.most) && Onward(g, s, k, bits, s1, k1, bits1)
    ensures Ends(g, s1, k1, bits1, out, rest) ==> Ends(g, s, k, bits, out, rest)
    ensures Breaks(g, s1, k1, bits1) ==> Breaks(g, s, k, bits)
  {
    hide Data;
    forall more
      ensures Ends(g, s1, k1, bits1, out, rest) ==> Data(g, s, k, bits + more) == Done(out, rest + more)
      ensures Breaks(g, s1, k1, bits1) ==> Data(g, s, k, bits + more) == Bad
    {
      assert Data(g, s, k, bits + more) == Data(g, s1, k1, bits1 + more);
    }
  }

  lemma {:induction false} OnwardHere(g: Setting, s: Unpacking, k: nat, bits: seq<bool>)
    requires IsSetting(g) && Ready(s, g.most)
    ensures Onward(g, s, k, bits, s, k, bits)
  {
  }

  lemma {:induction false} DataStep(g: Setting, s: Unpacking, k: nat, bits: seq<bool>, v: int, bits': seq<bool>)
    requires IsSetting(g) && Ready(s, g.most) && Comes(g, k, bits, v, bits') && 0 <= v <= g.eob
    ensures Step(s, v, g.eob, g.most, g.unseq).Failed? ==> Breaks(g, s, k, bits)
    ensures Step(s, v, g.eob, g.most, g.unseq).Ended? ==>
      Ends(g, s, k, bits, Step(s, v, g.eob, g.most, g.unseq).out, bits')
  {
    hide NextSymbol, Ready, Step;
    forall more
      ensures Step(s, v, g.eob, g.most, g.unseq).Failed? ==> Data(g, s, k, bits + more) == Bad
      ensures Step(s, v, g.eob, g.most, g.unseq).Ended? ==>
        Data(g, s, k, bits + more) == Done(Step(s, v, g.eob, g.most, g.unseq).out, bits' + more)
    {
      assert NextSymbol(g.lens, g.sel, g.eob + 1, k, bits + more) == Done(v, bits' + more);
    }
  }

  lemma {:induction false} DataStops(g: Setting, s: Unpacking, k: nat, bits: seq<bool>)
    requires IsSetting(g) && Ready(s, g.most)
    ensures (forall more :: NextSymbol(g.lens, g.sel, g.eob + 1, k, bits + more) == Bad) ==> Breaks(g, s, k, bits)
    ensures NextSymbol(g.lens, g.sel, g.eob + 1, k, bits) == NeedMore ==> Data(g, s, k, bits) == NeedMore
  {
    hide NextSymbol, Ready, Step;
    forall more
      ensures NextSymbol(g.lens, g.sel, g.eob + 1, k, bits + more) == Bad ==> Data(g, s, k, bits + more) == Bad
    {
    }
  }

  class Decoder {
    const getter: Getter
    const unpacker: Unpacker
    ghost const g: Setting
    const EOB: int
    const nblockMAX: int
    /** The bits not yet turned into symbols: what has been read of the current one, and all behind it. */
    ghost var pending: seq<bool>

    /** What the getter will find is what a reader finds that starts with the pending bits. */
    ghost predicate Tied()
      reads this, getter, getter.reader
    {
      getter.Valid() && IsSetting(g) && Match(getter.tables, g.lens) && getter.sel == g.sel &&
        Same(getter.reader.Bits(), pending)
    }

    /** What the getter makes of bits is what a reader makes of all of symbol k and what follows. */
    ghost predicate Same(bits: seq<bool>, all: seq<bool>)
      requires getter.Placed() && IsSetting(g)
      reads getter
    {
      forall more :: getter.Continuation(bits + more) == NextSymbol(g.lens, g.sel, g.eob + 1, getter.k, all + more)
    }

    lemma {:induction false} SameSupplied(bits: seq<bool>, all: seq<bool>, m: seq<bool>)
      requires getter.Placed() && IsSetting(g) && Same(bits, all)
      ensures Same(bits + m, all + m)
    {
      hide NextSymbol, Getter.Continuation, Getter.Placed;
      forall more
        ensures getter.Continuation((bits + m) + more) ==
          NextSymbol(g.lens, g.sel, g.eob + 1, getter.k, (all + m) + more)
      {
        assert (bits + m) + more == bits + (m + more) && (all + m) + more == all + (m + more);
      }
    }

    ghost predicate Unpacks()
      reads this, unpacker, unpacker.pool, unpacker.pool.mtfa, unpacker.pool.mtfbase, unpacker.tt, unpacker.unzftab,
        unpacker.seqToUnseq
    {
      && IsSetting(g) && unpacker.Valid() && Ready(unpacker.State(), g.most)
      && EOB == g.eob && nblockMAX == g.most <= unpacker.tt.Length && unpacker.unseq == g.unseq
    }

    ghost predicate Valid()
      reads this, getter, getter.reader, unpacker, unpacker.pool, unpacker.pool.mtfa, unpacker.pool.mtfbase,
        unpacker.tt, unpacker.unzftab, unpacker.seqToUnseq
    {
      Tied() && Unpacks()
    }

    /** At the start of a block's data. */
    constructor (getter: Getter, unpacker: Unpacker, EOB: int, nblockMAX: int, ghost g: Setting)
      requires getter.Valid() && getter.phase == Between && unpacker.Valid() && IsSetting(g) &&
        Match(getter.tables, g.lens)
      requires EOB == g.eob && nblockMAX == g.most && getter.sel == g.sel && 0 <= g.most <= unpacker.tt.Length &&
        unpacker.unseq == g.unseq && Ready(unpacker.State(), g.most)
      ensures Valid() && this.getter == getter && this.unpacker == unpacker && this.g == g &&
        pending == getter.reader.Bits()
    {
      this.getter, this.unpacker, this.g := getter, unpacker, g;
      this.EOB, this.nblockMAX := EOB, nblockMAX;
      pending := getter.reader.Bits();
      forall more
        ensures getter.Continuation(getter.reader.Bits() + more) ==
          NextSymbol(g.lens, g.sel, g.eob + 1, getter.k, getter.reader.Bits() + more)
      {
        FreshIsNext(g, getter.tables, getter.k, getter.reader.Bits() + more);
      }
    }

    /** More input. */
    method Supply(more: seq<Byte>)
      requires Tied()
      modifies this`pending, getter.reader`input, getter.reader`next
      ensures Tied() && pending == old(pending) + InputBits(more)
    {
      hide NextSymbol, InputBits, Match, IsSetting, Reader.Bits, Same, Getter.Placed;
      SameSupplied(getter.reader.Bits(), pending, InputBits(more));
      getter.reader.Supply(more);
      pending := pending + InputBits(more);
    }

    /** The next symbol, unless the input ends first. */
    method ReadSymbol() returns (got: Got)
      requires Tied()
      modifies getter`groupNo, getter`groupPos, getter`gSel, getter`phase, getter`zn, getter`zvec, getter`k
      modifies getter.reader`bsBuff, getter.reader`bsLive, getter.reader`next
      ensures !got.Again?
      ensures got.Symbol? ==>
        getter.Valid() && getter.reader.Valid() && getter.phase == Between && getter.k == old(getter.k) + 1
      ensures got.Symbol? ==> IsSetting(g) && Match(getter.tables, g.lens) && getter.sel == g.sel
      ensures got.Symbol? ==> Comes(g, old(getter.k), pending, got.value, getter.reader.Bits())
      ensures got.Error? ==> forall more :: NextSymbol(g.lens, g.sel, g.eob + 1, old(getter.k), pending + more) == Bad
      ensures got.Wait? ==>
        Tied() && getter.k == old(getter.k) && NextSymbol(g.lens, g.sel, g.eob + 1, getter.k, pending) == NeedMore
    {
      ghost var bits := getter.reader.Bits();
      hide NextSymbol, Match, IsSetting;
      assert bits + [] == bits && pending + [] == pending;
      assert getter.Continuation(bits + []) == NextSymbol(g.lens, g.sel, g.eob + 1, getter.k, pending + []);
      got := getter.GetMtfVal();
    }

    /** The getter is done with a symbol: all bits in the reader are pending. */
    ghost method Advance()
      requires getter.Valid() && getter.phase == Between && IsSetting(g) && Match(getter.tables, g.lens) &&
        getter.sel == g.sel
      modifies this`pending
      ensures Tied() && pending == getter.reader.Bits()
    {
      pending := getter.reader.Bits();
      forall more
        ensures getter.Continuation(pending + more) == NextSymbol(g.lens, g.sel, g.eob + 1, getter.k, pending + more)
      {
        FreshIsNext(g, getter.tables, getter.k, pending + more);
      }
    }

    /** How far reading got, having begun in state s, in front of symbol k, with these bits pending. */
    ghost predicate Stopped(r: Progress, s: Unpacking, k: nat, bits: seq<bool>)
      requires IsSetting(g) && Ready(s, g.most)
      reads this, getter, getter.reader, unpacker, unpacker.pool, unpacker.pool.mtfa, unpacker.pool.mtfbase,
        unpacker.tt, unpacker.unzftab, unpacker.seqToUnseq
    {
      match r
      case Finished =>
        unpacker.Valid() && getter.reader.Valid() && Ends(g, s, k, bits, unpacker.out, getter.reader.Bits())
      case Corrupt => Breaks(g, s, k, bits)
      case Suspended =>
        Valid() && Data(g, s, k, bits) == NeedMore && Onward(g, s, k, bits, unpacker.State(), getter.k, pending)
    }

    lemma {:induction false} StoppedThrough(r: Progress, s: Unpacking, k: nat, bits: seq<bool>, s1: Unpacking, k1: nat,
      bits1: seq<bool>)
      requires IsSetting(g) && Ready(s, g.most) && Ready(s1, g.most) && Onward(g, s, k, bits, s1, k1, bits1) &&
        Stopped(r, s1, k1, bits1)
      ensures Stopped(r, s, k, bits)
    {
      hide Onward, Data, Tied, Unpacker.Valid, Reader.Bits, Ends, Breaks;
      OnwardNow(g, s, k, bits, s1, k1, bits1);
      OnwardStops(g, s, k, bits, s1, k1, bits1, unpacker.out, if r == Finished then getter.reader.Bits() else []);
      if r == Suspended { OnwardThrough(g, s, k, bits, s1, k1, bits1, unpacker.State(), getter.k, pending); }
    }

    /** One symbol. */
    method One() returns (again: bool, r: Progress)
      requires Valid()
      modifies this`pending, getter`groupNo, getter`groupPos, getter`gSel, getter`phase, getter`zn, getter`zvec,
        getter`k
      modifies getter.reader`bsBuff, getter.reader`bsLive, getter.reader`next
      modifies unpacker`nblock, unpacker`es, unpacker`weight, unpacker`out, unpacker.tt, unpacker.unzftab,
        unpacker.pool.mtfa, unpacker.pool.mtfbase
      ensures again ==> Valid() && getter.k == old(getter.k) + 1
      ensures again ==>
        Onward(g, old(unpacker.State()), old(getter.k), old(pending), unpacker.State(), getter.k, pending)
      ensures !again ==> Stopped(r, old(unpacker.State()), old(getter.k), old(pending))
    {
      ghost var s, k, p := unpacker.State(), getter.k, pending;
      hide Onward, Match, Step, Comes, NextSymbol, Data, Ready, IsSetting, Getter.Valid, Getter.Placed, Unpacker.Valid,
        Reader.Bits, Tied, Same, Ends, Breaks;
      var got := ReadSymbol();
      if got.Symbol? {
        again, r := Use(got.value, k, p);
      } else {
        DataStops(g, s, k, p);
        OnwardHere(g, s, k, p);
        again, r := false, if got.Wait? then Suspended else Corrupt;
      }
    }

    /** What the symbol just read does to the block. */
    method Use(v: int, ghost k: nat, ghost p: seq<bool>) returns (again: bool, r: Progress)
      requires Unpacks() && getter.Valid() && getter.reader.Valid() && getter.phase == Between && getter.k == k + 1
      requires Match(getter.tables, g.lens) && getter.sel == g.sel && Comes(g, k, p, v, getter.reader.Bits())
      modifies this`pending, unpacker`nblock, unpacker`es, unpacker`weight, unpacker`out, unpacker.tt, unpacker.unzftab,
        unpacker.pool.mtfa, unpacker.pool.mtfbase
      ensures again ==> Valid() && Onward(g, old(unpacker.State()), k, p, unpacker.State(), getter.k, pending)
      ensures !again ==> r != Suspended && Stopped(r, old(unpacker.State()), k, p)
    {
      ghost var s := unpacker.State();
      assert |unpacker.out| <= nblockMAX && g.eob <= 257;
      hide Onward, Match, Step, Comes, NextSymbol, Data, Ready, IsSetting, Getter.Valid, Getter.Placed, Unpacker.Valid,
        Reader.Bits, Tied, Same, Ends, Breaks;
      ComesInRange(g, k, p, v, getter.reader.Bits());
      DataStep(g, s, k, p, v, getter.reader.Bits());
      var status := unpacker.Feed(v, EOB, nblockMAX);
      Advance();
      again, r := status == More, if status == EndOfBlock then Finished else Corrupt;
      if again { OnwardStep(g, s, k, p, v, pending, unpacker.State()); }
    }

    /** Reads symbols until the block ends, the input runs out, or it turns out to be corrupt. */
    method Run() returns (r: Progress)
      requires Valid()
      modifies this`pending, getter`groupNo, getter`groupPos, getter`gSel, getter`phase, getter`zn, getter`zvec,
        getter`k
      modifies getter.reader`bsBuff, getter.reader`bsLive, getter.reader`next
      modifies unpacker`nblock, unpacker`es, unpacker`weight, unpacker`out, unpacker.tt, unpacker.unzftab,
        unpacker.pool.mtfa, unpacker.pool.mtfbase
      ensures Stopped(r, old(unpacker.State()), old(getter.k), old(pending))
    {
      ghost var s0, k0, p0 := unpacker.State(), getter.k, pending;
      OnwardHere(g, s0, k0, p0);
      hide Onward, Data, Match, NextSymbol, Step, Getter.Continuation, Unpacker.Valid, Stopped;
      var again := true;
      r := Corrupt;
      while again
        invariant again ==> Valid() && Onward(g, s0, k0, p0, unpacker.State(), getter.k, pending)
        invariant !again ==> Stopped(r, s0, k0, p0)
        decreases again, GROUP_SIZE * |g.sel| - getter.k
      {
        ghost var s1, k1, p1 := unpacker.State(), getter.k, pending;
        again, r := One();
        if again {
          OnwardThrough(g, s0, k0, p0, s1, k1, p1, unpacker.State(), getter.k, pending);
        } else {
          StoppedThrough(r, s0, k0, p0, s1, k1, p1);
        }
      }
    }
  }
}
