/**
 * GET_MTF_VAL: the next coded symbol, from input that may run out in the middle of a code.
 * The fields keep what is known of an unfinished symbol until there is more input.
 */
module SymbolReader {
  import opened Bits
  import opened Rotations
  import opened BitStrings
  import opened BitReader
  import opened HuffmanCodes
  import opened HuffmanTables
  import opened BlockData

  /** Where the reader is: between symbols, in front of a symbol's first bits, or in front of one more bit. */
  datatype Phase = Between | First | OneMore

  ghost predicate Usable(t: Tables) {
    |t.limit| >= MAX_CODE_LEN && |t.base| >= MAX_CODE_LEN && 1 <= t.minLen <= LONGEST_CODE
  }

  /** Symbol k, should bits follow. */
  ghost function Fresh(tables: seq<Tables>, sel: seq<int>, k: nat, bits: seq<bool>): Parse<int>
    requires (forall t | 0 <= t < |tables| :: Usable(tables[t])) && forall i | 0 <= i < |sel| :: 0 <= sel[i] < |tables|
  {
    if k / GROUP_SIZE >= |sel| then Bad
    else
      assert Usable(tables[sel[k / GROUP_SIZE]]);
      DecodeSymbol(tables[sel[k / GROUP_SIZE]], bits)
  }

  /** One more bit behind zvec, the first zn bits counting the new one. */
  ghost function AfterBit(t: Tables, zn: nat, zvec: nat, bits: seq<bool>): Parse<int>
    requires Usable(t)
  {
    if bits == [] then NeedMore else SymbolFrom(t, zn, 2 * zvec + (if bits[0] then 1 else 0), bits[1..])
  }

  lemma {:induction false} ReadMore(bits: seq<bool>, n: nat, more: seq<bool>)
    ensures ReadBits(bits, n).Done? ==>
      ReadBits(bits + more, n) == Done(ReadBits(bits, n).value, ReadBits(bits, n).rest + more)
  {
    if n <= |bits| { assert (bits + more)[..n] == bits[..n] && (bits + more)[n..] == bits[n..] + more; }
  }

  lemma {:induction false} OneBitRead(bits: seq<bool>)
    requires bits != []
    ensures ReadBits(bits, 1) == Done(if bits[0] then 1 else 0, bits[1..])
  {
    assert bits[..1][..0] == [];
    assert Value(bits[..1]) == 2 * Value(bits[..1][..0]) + (if bits[0] then 1 else 0);
  }

  /** A table selected: what is still to be found. */
  ghost function Rest(t: Tables, phase: Phase, zn: nat, zvec: nat, bits: seq<bool>): Parse<int>
    requires Usable(t)
  {
    if phase == OneMore then AfterBit(t, zn, zvec, bits) else DecodeSymbol(t, bits)
  }

  /** Standing here in front of bits comes to the same as standing there in front of bits'. */
  ghost predicate Agrees(t: Tables, phase: Phase, zn: nat, zvec: nat, bits: seq<bool>, phase': Phase, zn': nat,
    zvec': nat, bits': seq<bool>)
    requires Usable(t)
  {
    forall more :: Rest(t, phase, zn, zvec, bits + more) == Rest(t, phase', zn', zvec', bits' + more)
  }

  /** zvec once the bits read for this phase are added. */
  function Extended(phase: Phase, zvec: nat, v: nat): nat {
    if phase == OneMore then 2 * zvec + v else v
  }

  function ToRead(t: Tables, phase: Phase): int {
    if phase == OneMore then 1 else t.minLen
  }

  function ReadTo(t: Tables, phase: Phase, zn: nat): int {
    if phase == OneMore then zn else t.minLen
  }

  lemma {:induction false} AfterRead(t: Tables, phase: Phase, zn: nat, zvec: nat, bits: seq<bool>, v: nat,
    bits': seq<bool>, more: seq<bool>)
    requires Usable(t) && ReadBits(bits, ToRead(t, phase)) == Done(v, bits')
    ensures ReadTo(t, phase, zn) >= 0 &&
      Rest(t, phase, zn, zvec, bits + more) ==
      SymbolFrom(t, ReadTo(t, phase, zn), Extended(phase, zvec, v), bits' + more)
  {
    if phase == OneMore {
      OneBitRead(bits);
      assert (bits + more)[1..] == bits' + more;
    } else {
      ReadMore(bits, t.minLen, more);
    }
  }

  /** Reading more than the code so far needs: the next bit, one length further. */
  lemma {:induction false} AgreesNext(t: Tables, phase: Phase, zn: nat, zvec: nat, bits: seq<bool>, v: nat,
    bits': seq<bool>)
    requires Usable(t) && ReadBits(bits, ToRead(t, phase)) == Done(v, bits')
    requires 0 <= ReadTo(t, phase, zn) <= LONGEST_CODE && Extended(phase, zvec, v) > t.limit[ReadTo(t, phase, zn)]
    ensures Agrees(t, phase, zn, zvec, bits, OneMore, ReadTo(t, phase, zn) + 1, Extended(phase, zvec, v), bits')
  {
    forall more
      ensures Rest(t, phase, zn, zvec, bits + more) ==
        Rest(t, OneMore, ReadTo(t, phase, zn) + 1, Extended(phase, zvec, v), bits' + more)
    {
      AfterRead(t, phase, zn, zvec, bits, v, bits', more);
    }
  }

  lemma {:induction false} RestWaits(t: Tables, phase: Phase, zn: nat, zvec: nat, bits: seq<bool>)
    requires Usable(t) && phase != Between && ReadBits(bits, ToRead(t, phase)) == NeedMore
    ensures Rest(t, phase, zn, zvec, bits) == NeedMore
  {
  }

  lemma {:induction false} AgreesThrough(t: Tables, phase: Phase, zn: nat, zvec: nat, bits: seq<bool>, phase1: Phase,
    zn1: nat, zvec1: nat, bits1: seq<bool>, phase2: Phase, zn2: nat, zvec2: nat, bits2: seq<bool>)
    requires Usable(t) && Agrees(t, phase, zn, zvec, bits, phase1, zn1, zvec1, bits1) &&
      Agrees(t, phase1, zn1, zvec1, bits1, phase2, zn2, zvec2, bits2)
    ensures Agrees(t, phase, zn, zvec, bits, phase2, zn2, zvec2, bits2)
  {
    forall more ensures Rest(t, phase, zn, zvec, bits + more) == Rest(t, phase2, zn2, zvec2, bits2 + more) {
      assert Rest(t, phase, zn, zvec, bits + more) == Rest(t, phase1, zn1, zvec1, bits1 + more);
    }
  }

  lemma {:induction false} AgreesNow(t: Tables, phase: Phase, zn: nat, zvec: nat, bits: seq<bool>, phase1: Phase,
    zn1: nat, zvec1: nat, bits1: seq<bool>)
    requires Usable(t) && Agrees(t, phase, zn, zvec, bits, phase1, zn1, zvec1, bits1)
    ensures Rest(t, phase, zn, zvec, bits) == Rest(t, phase1, zn1, zvec1, bits1)
  {
    assert bits + [] == bits && bits1 + [] == bits1;
    assert Rest(t, phase, zn, zvec, bits + []) == Rest(t, phase1, zn1, zvec1, bits1 + []);
  }

  lemma {:induction false} AgreesAlways(t: Tables, phase: Phase, zn: nat, zvec: nat, bits: seq<bool>, phase1: Phase,
    zn1: nat, zvec1: nat, bits1: seq<bool>)
    requires Usable(t) && Agrees(t, phase, zn, zvec, bits, phase1, zn1, zvec1, bits1)
    ensures forall more :: Rest(t, phase, zn, zvec, bits + more) == Rest(t, phase1, zn1, zvec1, bits1 + more)
  {
  }

  lemma {:induction false} ToReadRange(t: Tables, phase: Phase)
    requires Usable(t)
    ensures 1 <= ToRead(t, phase) <= LONGEST_CODE && |t.limit| >= MAX_CODE_LEN && |t.base| >= MAX_CODE_LEN
  {
  }

  lemma {:induction false} SymbolCases(t: Tables, n: nat, z: nat, bits: seq<bool>)
    requires Usable(t)
    ensures n > LONGEST_CODE ==> SymbolFrom(t, n, z, bits) == Bad
    ensures n <= LONGEST_CODE && z <= t.limit[n] ==>
      (var j := z - t.base[n]; SymbolFrom(t, n, z, bits) == if j < 0 || j >= MAX_ALPHA_SIZE ||
        j >= |t.perm| then Bad else Done(t.perm[j], bits))
  {
  }

  lemma {:induction false} ReadToRange(t: Tables, phase: Phase, zn: nat)
    requires Usable(t) && (phase == OneMore ==> 1 <= zn)
    ensures 1 <= ReadTo(t, phase, zn) && (phase == OneMore ==> ReadTo(t, phase, zn) == zn)
  {
  }

  /** Standing here in front of bits gives symbol v, with bits' behind it, whatever follows. */
  ghost predicate Yields(t: Tables, phase: Phase, zn: nat, zvec: nat, bits: seq<bool>, v: int, bits': seq<bool>)
    requires Usable(t)
  {
    forall more :: Rest(t, phase, zn, zvec, bits + more) == Done(v, bits' + more)
  }

  ghost predicate Fails(t: Tables, phase: Phase, zn: nat, zvec: nat, bits: seq<bool>)
    requires Usable(t)
  {
    forall more :: Rest(t, phase, zn, zvec, bits + more) == Bad
  }

  lemma {:induction false} Decided(t: Tables, phase: Phase, zn: nat, zvec: nat, bits: seq<bool>, v: nat,
    bits': seq<bool>)
    requires Usable(t) && ReadBits(bits, ToRead(t, phase)) == Done(v, bits') && ReadTo(t, phase, zn) >= 0
    ensures var n, z := ReadTo(t, phase, zn), Extended(phase, zvec, v);
      && (n > LONGEST_CODE ==> Fails(t, phase, zn, zvec, bits))
      && (n <= LONGEST_CODE && z <= t.limit[n] ==>
            var j := z - t.base[n];
            if j < 0 || j >= MAX_ALPHA_SIZE || j >= |t.perm| then Fails(t, phase, zn, zvec, bits)
            else Yields(t, phase, zn, zvec, bits, t.perm[j], bits'))
  {
    var n, z := ReadTo(t, phase, zn), Extended(phase, zvec, v);
    hide Rest, SymbolFrom, ReadBits;
    forall more ensures Rest(t, phase, zn, zvec, bits + more) == SymbolFrom(t, n, z, bits' + more) {
      AfterRead(t, phase, zn, zvec, bits, v, bits', more);
    }
    forall more
      ensures n > LONGEST_CODE ==> SymbolFrom(t, n, z, bits' + more) == Bad
      ensures n <= LONGEST_CODE && z <= t.limit[n] ==>
        (var j := z - t.base[n];
         SymbolFrom(t, n, z, bits' + more) == if j < 0 || j >= MAX_ALPHA_SIZE || j >= |t.perm| then Bad
           else Done(t.perm[j], bits' + more))
    {
      SymbolCases(t, n, z, bits' + more);
    }
  }

  lemma {:induction false} ThroughYields(t: Tables, phase: Phase, zn: nat, zvec: nat, bits: seq<bool>, phase1: Phase,
    zn1: nat, zvec1: nat, bits1: seq<bool>, v: int, bits2: seq<bool>)
    requires Usable(t) && Agrees(t, phase, zn, zvec, bits, phase1, zn1, zvec1, bits1)
    ensures Yields(t, phase1, zn1, zvec1, bits1, v, bits2) ==> Yields(t, phase, zn, zvec, bits, v, bits2)
    ensures Fails(t, phase1, zn1, zvec1, bits1) ==> Fails(t, phase, zn, zvec, bits)
  {
    hide Rest;
    forall more ensures Rest(t, phase, zn, zvec, bits + more) == Rest(t, phase1, zn1, zvec1, bits1 + more) { }
  }

  lemma {:induction false} YieldsAlways(t: Tables, phase: Phase, zn: nat, zvec: nat, bits: seq<bool>, v: int,
    bits': seq<bool>)
    requires Usable(t)
    ensures Yields(t, phase, zn, zvec, bits, v, bits') ==>
      forall more :: Rest(t, phase, zn, zvec, bits + more) == Done(v, bits' + more)
    ensures Fails(t, phase, zn, zvec, bits) ==> forall more :: Rest(t, phase, zn, zvec, bits + more) == Bad
  {
  }

  datatype Got = Symbol(value: int) | Wait | Error | Again

  class Getter {
    const reader: Reader
    const tables: seq<Tables>
    const sel: seq<int>
    var groupNo: int
    var groupPos: int
    var gSel: int
    var phase: Phase
    var zn: int
    var zvec: nat
    ghost var k: nat

    ghost predicate Valid()
      reads this, reader
    {
      reader.Valid() && Placed()
    }

    ghost predicate Placed()
      reads this
    {
      && (forall t | 0 <= t < |tables| :: Usable(tables[t])) && (forall i | 0 <= i < |sel| :: 0 <= sel[i] < |tables|)
      && 0 <= groupPos <= GROUP_SIZE && -1 <= groupNo < |sel|
      && (phase == Between ==> k == GROUP_SIZE * (groupNo + 1) - groupPos)
      && (phase != Between ==> k + 1 == GROUP_SIZE * (groupNo + 1) - groupPos && groupPos < GROUP_SIZE)
      && (groupNo >= 0 && !(phase == Between && groupPos == 0) ==> groupNo < |sel| && gSel == sel[groupNo])
      && (phase == First ==> 0 <= groupNo && zn == tables[gSel].minLen)
      && (phase == OneMore ==> 0 <= groupNo && 1 <= zn <= LONGEST_CODE + 1)
    }

    /** What the reader would return if it found these bits, given what it has already read of the symbol. */
    ghost function Continuation(bits: seq<bool>): Parse<int>
      reads this
      requires Placed()
    {
      match phase
      case Between => Fresh(tables, sel, k, bits)
      case First => Rest(tables[gSel], phase, zn, zvec, bits)
      case OneMore => Rest(tables[gSel], phase, zn, zvec, bits)
    }

    constructor (reader: Reader, tables: seq<Tables>, sel: seq<int>)
      requires reader.Valid() && (forall t | 0 <= t < |tables| :: Usable(tables[t])) &&
        forall i | 0 <= i < |sel| :: 0 <= sel[i] < |tables|
      ensures Valid() && this.reader == reader && this.tables == tables && this.sel == sel && k == 0 && phase == Between
    {
      this.reader, this.tables, this.sel := reader, tables, sel;
      groupNo, groupPos, gSel, phase, zn, zvec, k := -1, 0, 0, Between, 0, 0, 0;
    }

    /** The next group's table, if a symbol begins a group; false if there are no more selectors. */
    method StartSymbol() returns (ok: bool)
      requires Valid() && phase == Between
      modifies this`groupNo, this`groupPos, this`gSel, this`phase, this`zn
      ensures !ok ==> forall bits :: old(Continuation(bits)) == Bad
      ensures ok ==>
        Valid() && phase == First && k == old(k) && forall bits :: Continuation(bits) == old(Continuation(bits))
    {
      if groupPos == 0 {
        groupNo := groupNo + 1;
        assert k / GROUP_SIZE == groupNo;
        if groupNo >= |sel| { return false; }
        groupPos := GROUP_SIZE;
        gSel := sel[groupNo];
      }
      assert k / GROUP_SIZE == groupNo;
      groupPos := groupPos - 1;
      zn := tables[gSel].minLen;
      phase := First;
      ok := true;
    }

    /** The next symbol. After Wait, calling again with more input goes on where this call stopped. */
    method GetMtfVal() returns (r: Got)
      requires Valid()
      modifies this`groupNo, this`groupPos, this`gSel, this`phase, this`zn, this`zvec, this`k
      modifies reader`bsBuff, reader`bsLive, reader`next
      ensures r.Symbol? ==> Valid() && phase == Between && k == old(k) + 1
      ensures r.Symbol? ==>
        forall more :: old(Continuation(reader.Bits() + more)) == Done(r.value, reader.Bits() + more)
      ensures r.Error? ==> forall more :: old(Continuation(reader.Bits() + more)) == Bad
      ensures !r.Again?
      ensures r.Wait? ==> Valid() && phase != Between && k == old(k) && old(Continuation(reader.Bits())) == NeedMore
      ensures r.Wait? ==> forall more :: Continuation(reader.Bits() + more) == old(Continuation(reader.Bits() + more))
    {
      if phase == Between {
        var ok := StartSymbol();
        if !ok { return Error; }
      }
      ghost var bits := reader.Bits();
      hide Fresh, Rest;
      assert forall more {:trigger bits + more} :: Continuation(bits + more) == old(Continuation(reader.Bits() + more));
      assert bits + [] == bits;
      r := FinishSymbol();
    }

    /** The bits this phase waits for, and what they decide: a symbol, an error, one more bit, or to wait. */
    method ReadOn() returns (r: Got)
      requires Valid() && phase != Between
      modifies this`phase, this`zn, this`zvec, this`k
      modifies reader`bsBuff, reader`bsLive, reader`next
      ensures Usable(tables[gSel])
      ensures r.Symbol? ==> Valid() && phase == Between && k == old(k) + 1
      ensures r.Symbol? ==>
        Yields(tables[gSel], old(phase), old(zn), old(zvec), old(reader.Bits()), r.value, reader.Bits())
      ensures r.Error? ==> Fails(tables[gSel], old(phase), old(zn), old(zvec), old(reader.Bits()))
      ensures r.Wait? ==>
        Valid() && phase == old(phase) && zn == old(zn) && zvec == old(zvec) && k == old(k) &&
        reader.Bits() == old(reader.Bits())
      ensures r.Wait? ==> old(Continuation(reader.Bits())) == NeedMore
      ensures r.Again? ==> Valid() && phase == OneMore && k == old(k) && (old(phase) == OneMore ==> zn == old(zn) + 1)
      ensures r.Again? ==>
        Agrees(tables[gSel], old(phase), old(zn), old(zvec), old(reader.Bits()), phase, zn, zvec, reader.Bits())
    {
      var t := tables[gSel];
      assert Usable(t) && zn >= 1;
      hide Agrees, Rest, ReadBits, ToRead, Yields, Fails;
      ToReadRange(t, phase);
      ghost var bits := reader.Bits();
      var ok, v := reader.GetBits(ToRead(t, phase));
      if ok {
        r := Decide(v, bits);
      } else {
        RestWaits(t, phase, zn, zvec, bits);
        r := Wait;
      }
    }

    /** What the bits just read, of value v, decide. */
    method Decide(v: nat, ghost bits: seq<bool>) returns (r: Got)
      requires Valid() && phase != Between && ReadBits(bits, ToRead(tables[gSel], phase)) == Done(v, reader.Bits())
      modifies this`phase, this`zn, this`zvec, this`k
      ensures !r.Wait?
      ensures r.Symbol? ==> Valid() && phase == Between && k == old(k) + 1
      ensures r.Symbol? ==>
        Usable(tables[gSel]) && Yields(tables[gSel], old(phase), old(zn), old(zvec), bits, r.value, reader.Bits())
      ensures r.Error? ==> Usable(tables[gSel]) && Fails(tables[gSel], old(phase), old(zn), old(zvec), bits)
      ensures r.Again? ==> Valid() && phase == OneMore && k == old(k) && (old(phase) == OneMore ==> zn == old(zn) + 1)
      ensures r.Again? ==> Agrees(tables[gSel], old(phase), old(zn), old(zvec), bits, phase, zn, zvec, reader.Bits())
    {
      var t := tables[gSel];
      assert Usable(t) && zn >= 1;
      hide Agrees, Rest, ReadBits, SymbolFrom, ToRead, ReadTo, Extended, Usable, Yields, Fails;
      ToReadRange(t, phase);
      ReadToRange(t, phase, zn);
      var n, z := ReadTo(t, phase, zn), Extended(phase, zvec, v);
      Decided(t, phase, zn, zvec, bits, v, reader.Bits());
      if n > LONGEST_CODE { return Error; }
      if z <= t.limit[n] {
        var j := z - t.base[n];
        if j < 0 || j >= MAX_ALPHA_SIZE || j >= |t.perm| { return Error; }
        phase, k := Between, k + 1;
        return Symbol(t.perm[j]);
      }
      AgreesNext(t, phase, zn, zvec, bits, v, reader.Bits());
      phase, zn, zvec := OneMore, n + 1, z;
      r := Again;
    }

    /** Reads on in a symbol that has begun. */
    method FinishSymbol() returns (r: Got)
      requires Valid() && phase != Between
      modifies this`phase, this`zn, this`zvec, this`k
      modifies reader`bsBuff, reader`bsLive, reader`next
      ensures !r.Again?
      ensures r.Symbol? ==> Valid() && phase == Between && k == old(k) + 1
      ensures r.Symbol? ==>
        forall more :: old(Continuation(reader.Bits() + more)) == Done(r.value, reader.Bits() + more)
      ensures r.Error? ==> forall more :: old(Continuation(reader.Bits() + more)) == Bad
      ensures r.Wait? ==> Valid() && phase != Between && k == old(k) && old(Continuation(reader.Bits())) == NeedMore
      ensures r.Wait? ==> forall more :: Continuation(reader.Bits() + more) == old(Continuation(reader.Bits() + more))
    {
      var t := tables[gSel];
      ghost var phase0, zn0, zvec0, bits0 := phase, zn, zvec, reader.Bits();
      assert Usable(t) && Agrees(t, phase0, zn0, zvec0, bits0, phase, zn, zvec, reader.Bits());
      hide Agrees, Rest, Yields, Fails;
      while true
        invariant Valid() && phase != Between && k == old(k) && (phase == OneMore ==> zn <= LONGEST_CODE + 1)
        invariant Agrees(t, phase0, zn0, zvec0, bits0, phase, zn, zvec, reader.Bits())
        decreases if phase == OneMore then LONGEST_CODE + 1 - zn else LONGEST_CODE + 2
      {
        ghost var phase1, zn1, zvec1, bits1 := phase, zn, zvec, reader.Bits();
        AgreesNow(t, phase0, zn0, zvec0, bits0, phase1, zn1, zvec1, bits1);
        r := ReadOn();
        if !r.Again? {
          if r.Symbol? {
            ThroughYields(t, phase0, zn0, zvec0, bits0, phase1, zn1, zvec1, bits1, r.value, reader.Bits());
            YieldsAlways(t, phase0, zn0, zvec0, bits0, r.value, reader.Bits());
          } else if r.Error? {
            ThroughYields(t, phase0, zn0, zvec0, bits0, phase1, zn1, zvec1, bits1, 0, []);
            YieldsAlways(t, phase0, zn0, zvec0, bits0, 0, []);
          }
          break;
        }
        AgreesThrough(t, phase0, zn0, zvec0, bits0, phase1, zn1, zvec1, bits1, phase, zn, zvec, reader.Bits());
      }
      if r.Wait? { AgreesAlways(t, phase0, zn0, zvec0, bits0, phase, zn, zvec, reader.Bits()); }
    }
  }
}
