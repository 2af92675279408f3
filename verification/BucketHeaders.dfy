/** The packed bucket-header bits of the fallback block sorter: 32 of them to a word. */
module BucketHeaders {
  import opened Bits

  ghost predicate IsTable(w: seq<int>) {
    forall i | 0 <= i < |w| :: 0 <= w[i] < WORD
  }

  /** Header bit z. */
  ghost predicate Header(w: seq<int>, z: int)
    requires IsTable(w) && 0 <= z < 32 * |w|
  {
    Bit(w[z / 32], z % 32)
  }

  /** The first m header bits. */
  ghost function Headers(w: seq<int>, m: nat): (r: seq<bool>)
    requires IsTable(w) && m <= 32 * |w|
    ensures |r| == m
  {
    seq(m, z requires 0 <= z < m => Header(w, z))
  }

  lemma {:induction false} TestBit(w: nat, k: nat)
    ensures And(w, Pow2(k)) != 0 <==> Bit(w, k)
  {
    if And(w, Pow2(k)) != 0 {
      var j := SomeBit(And(w, Pow2(k)));
      BitAnd(w, Pow2(k), j);
      BitPow2(k, j);
    } else {
      BitAnd(w, Pow2(k), k);
      BitPow2(k, k);
      BitZero(k);
    }
  }

  lemma {:induction false} SetBit(w: nat, k: nat, j: nat)
    requires w < WORD && k < 32
    ensures Or(w, Pow2(k)) < WORD
    ensures Bit(Or(w, Pow2(k)), j) <==> j == k || Bit(w, j)
  {
    Pow2Values();
    Pow2Below(k);
    OrBound(w, Pow2(k), 32);
    BitOr(w, Pow2(k), j);
    BitPow2(k, j);
  }

  lemma {:induction false} Pow2Below(k: nat)
    requires k < 32
    ensures Pow2(k) < WORD
  {
    Pow2Values();
    Pow2Mono(k, 31);
    assert Pow2(32) == 2 * Pow2(31);
  }

  lemma {:induction false} ClearBit(w: nat, k: nat, j: nat)
    requires w < WORD && k < 32 && j < 32
    ensures Pow2(k) < WORD && And(w, Not32(Pow2(k))) < WORD
    ensures Bit(And(w, Not32(Pow2(k))), j) <==> j != k && Bit(w, j)
  {
    Pow2Values();
    Pow2Below(k);
    AndBound(w, Not32(Pow2(k)));
    BitAnd(w, Not32(Pow2(k)), j);
    BitComplement(Pow2(k), 32, j);
    BitPow2(k, j);
  }

  lemma {:induction false} AllOnes(j: nat)
    requires j < 32
    ensures Bit(0xffffffff, j)
  {
    Pow2Values();
    BitComplement(0, 32, j);
    BitZero(j);
  }

  /** ISSET_BH */
  method IsSet(bhtab: array<int>, zz: int) returns (r: bool)
    requires IsTable(bhtab[..]) && 0 <= zz < 32 * bhtab.Length
    ensures r == Header(bhtab[..], zz)
  {
    TestBit(bhtab[..][zz / 32], zz % 32);
    r := And(bhtab[zz / 32], Pow2(zz % 32)) != 0;
  }

  /** SET_BH */
  method Set(bhtab: array<int>, zz: int)
    requires IsTable(bhtab[..]) && 0 <= zz < 32 * bhtab.Length
    modifies bhtab
    ensures IsTable(bhtab[..])
    ensures forall z | 0 <= z < 32 * bhtab.Length :: Header(bhtab[..], z) <==> z == zz || old(Header(bhtab[..], z))
  {
    ghost var w: seq<int> := bhtab[..];
    var i, k := zz / 32, zz % 32;
    SetBit(w[i], k, 0);
    forall j: nat ensures Bit(Or(w[i], Pow2(k)), j) <==> j == k || Bit(w[i], j) {
      SetBit(w[i], k, j);
    }
    bhtab[i] := Or(bhtab[i], Pow2(k));
    ghost var w' := w[i := Or(w[i], Pow2(k))];
    assert bhtab[..] == w';
    forall z | 0 <= z < 32 * |w| ensures Header(w', z) <==> z == zz || Header(w, z) {
      assert z == 32 * (z / 32) + z % 32;
    }
  }

  /** CLEAR_BH */
  method Clear(bhtab: array<int>, zz: int)
    requires IsTable(bhtab[..]) && 0 <= zz < 32 * bhtab.Length
    modifies bhtab
    ensures IsTable(bhtab[..])
    ensures forall z | 0 <= z < 32 * bhtab.Length :: Header(bhtab[..], z) <==> z != zz && old(Header(bhtab[..], z))
  {
    ghost var w: seq<int> := bhtab[..];
    var i, k := zz / 32, zz % 32;
    ClearBit(w[i], k, 0);
    forall j: nat | j < 32 ensures Bit(And(w[i], Not32(Pow2(k))), j) <==> j != k && Bit(w[i], j)
    {
      ClearBit(w[i], k, j);
    }
    bhtab[i] := And(bhtab[i], Not32(Pow2(k)));
    ghost var w' := w[i := And(w[i], Not32(Pow2(k)))];
    assert bhtab[..] == w';
    forall z | 0 <= z < 32 * |w| ensures Header(w', z) <==> z != zz && Header(w, z) {
      assert z == 32 * (z / 32) + z % 32;
    }
  }

  lemma {:induction false} WholeWord(w: seq<int>, k: int, one: bool)
    requires IsTable(w) && 0 <= k < 32 * |w| && k % 32 == 0
    requires w[k / 32] == if one then 0xffffffff else 0
    ensures k + 32 <= 32 * |w|
    ensures forall z | k <= z < k + 32 :: Header(w, z) == one
  {
    forall z | k <= z < k + 32 ensures Header(w, z) == one {
      assert z / 32 == k / 32;
      if one { AllOnes(z % 32); } else { BitZero(z % 32); }
    }
  }

  /** The first clear header bit at or after k0, looking a word at a time where it can. */
  method NextClear(bhtab: array<int>, k0: int, ghost stop: int) returns (k: int)
    requires IsTable(bhtab[..]) && 0 <= k0 <= stop < 32 * bhtab.Length && !Header(bhtab[..], stop)
    ensures k0 <= k <= stop && !Header(bhtab[..], k)
    ensures forall z | k0 <= z < k :: Header(bhtab[..], z)
  {
    ghost var w := bhtab[..];
    k := k0;
    var isset := IsSet(bhtab, k);
    while isset && k % 32 != 0
      invariant k0 <= k <= stop && isset == Header(w, k)
      invariant forall z | k0 <= z < k :: Header(w, z)
      decreases stop - k
    {
      k := k + 1;
      isset := IsSet(bhtab, k);
    }
    if isset {
      while bhtab[k / 32] == 0xffffffff
        invariant k0 <= k <= stop && k % 32 == 0
        invariant forall z | k0 <= z < k :: Header(w, z)
        decreases stop - k
      {
        WholeWord(w, k, true);
        k := k + 32;
      }
      isset := IsSet(bhtab, k);
      while isset
        invariant k0 <= k <= stop && isset == Header(w, k)
        invariant forall z | k0 <= z < k :: Header(w, z)
        decreases stop - k
      {
        k := k + 1;
        isset := IsSet(bhtab, k);
      }
    }
  }

  /** The first set header bit at or after k0. */
  method NextSet(bhtab: array<int>, k0: int, ghost stop: int) returns (k: int)
    requires IsTable(bhtab[..]) && 0 <= k0 <= stop < 32 * bhtab.Length && Header(bhtab[..], stop)
    ensures k0 <= k <= stop && Header(bhtab[..], k)
    ensures forall z | k0 <= z < k :: !Header(bhtab[..], z)
  {
    ghost var w := bhtab[..];
    k := k0;
    var isset := IsSet(bhtab, k);
    while !isset && k % 32 != 0
      invariant k0 <= k <= stop && isset == Header(w, k)
      invariant forall z | k0 <= z < k :: !Header(w, z)
      decreases stop - k
    {
      k := k + 1;
      isset := IsSet(bhtab, k);
    }
    if !isset {
      while bhtab[k / 32] == 0
        invariant k0 <= k <= stop && k % 32 == 0
        invariant forall z | k0 <= z < k :: !Header(w, z)
        decreases stop - k
      {
        WholeWord(w, k, false);
        k := k + 32;
      }
      isset := IsSet(bhtab, k);
      while !isset
        invariant k0 <= k <= stop && isset == Header(w, k)
        invariant forall z | k0 <= z < k :: !Header(w, z)
        decreases stop - k
      {
        k := k + 1;
        isset := IsSet(bhtab, k);
      }
    }
  }
}
