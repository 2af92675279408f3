/**
 * The decoder's symbol loop. The loop of decompress.c suspends at every GET_MTF_VAL; Feed is what
 * it does with one symbol, from one suspension to the next.
 */
module UnpackBlock {
  import opened Bits
  import opened Rotations
  import opened Counting
  import opened MoveToFront
  import opened MtfPool
  import opened BlockData

  // ---- counting what is appended

  lemma {:induction false} CountFront(s: seq<Byte>, t: seq<Byte>, c: int, m: nat)
    requires m <= |s|
    ensures Count(s + t, c, m) == Count(s, c, m)
  {
    if m > 0 { CountFront(s, t, c, m - 1); }
  }

  /** The words hold the output, freq its symbol counts. */
  ghost predicate Output(tt: seq<int>, freq: seq<int>, out: seq<Byte>) {
    && |out| <= |tt| && |freq| == 256
    && (forall i | 0 <= i < |out| :: tt[i] == out[i] as int)
    && (forall c | 0 <= c < 256 :: freq[c] == Count(out, c, |out|))
  }

  /** The words hold the output, freq already counts n more of x. */
  ghost predicate Counted(tt: seq<int>, freq: seq<int>, out: seq<Byte>, x: Byte, n: int) {
    && |out| <= |tt| && |freq| == 256 && 0 <= n
    && (forall i | 0 <= i < |out| :: tt[i] == out[i] as int)
    && (forall c | 0 <= c < 256 :: freq[c] == Count(out, c, |out|) + if c == x as int then n else 0)
  }

  lemma {:induction false} CountAhead(tt: seq<int>, freq: seq<int>, out: seq<Byte>, x: Byte, n: int)
    requires Output(tt, freq, out) && 0 <= n
    ensures Counted(tt, freq[x as int := freq[x as int] + n], out, x, n)
  {
  }

  lemma {:induction false} PutAhead(tt: seq<int>, freq: seq<int>, out: seq<Byte>, x: Byte, n: int)
    requires Counted(tt, freq, out, x, n) && n > 0 && |out| < |tt|
    ensures Counted(tt[|out| := x as int], freq, out + [x], x, n - 1)
  {
    forall c | 0 <= c < 256
      ensures Count(out + [x], c, |out| + 1) == Count(out, c, |out|) + if c == x as int then 1 else 0
    {
      CountFront(out, [x], c, |out|);
    }
  }

  lemma {:induction false} AllPut(tt: seq<int>, freq: seq<int>, out: seq<Byte>, x: Byte)
    requires Counted(tt, freq, out, x, 0)
    ensures Output(tt, freq, out)
  {
  }

  lemma {:induction false} PutOne(tt: seq<int>, freq: seq<int>, out: seq<Byte>, x: Byte)
    requires Output(tt, freq, out) && |out| < |tt|
    ensures |freq| == 256 && Output(tt[|out| := x as int], freq[x as int := freq[x as int] + 1], out + [x])
  {
    var f := freq[x as int := freq[x as int] + 1];
    CountAhead(tt, freq, out, x, 1);
    PutAhead(tt, f, out, x, 1);
    AllPut(tt[|out| := x as int], f, out + [x], x);
  }

  datatype Status = More | EndOfBlock | DataError

  class Unpacker {
    const pool: Pool
    const tt: array<int>
    const unzftab: array<int>
    const seqToUnseq: array<int>
    var nblock: int
    var es: int
    var weight: int
    ghost var out: seq<Byte>
    ghost const unseq: seq<Byte>

    ghost predicate Valid()
      reads this, pool, pool.mtfa, pool.mtfbase, tt, unzftab, seqToUnseq
    {
      && tt != unzftab && tt != seqToUnseq && unzftab != seqToUnseq
      && pool.mtfa !in [tt, unzftab, seqToUnseq] && pool.mtfbase !in [tt, unzftab, seqToUnseq]
      && pool.Valid() && IsList(pool.List())
      && |unseq| == 256 == seqToUnseq.Length && (forall k | 0 <= k < 256 :: seqToUnseq[k] == unseq[k] as int)
      && nblock == |out| && Output(tt[..], unzftab[..], out)
      && es >= -1 && weight >= 0
    }

    /** What the fields stand for. */
    ghost function State(): (s: Unpacking)
      reads this, pool, pool.mtfa, pool.mtfbase, tt, unzftab, seqToUnseq
      requires Valid()
      ensures IsList(s.list)
    {
      Unpacking(out, pool.List(), es, weight)
    }

    constructor (tt: array<int>, seqToUnseq: array<int>, ghost unseq: seq<Byte>)
      requires tt != seqToUnseq && |unseq| == 256 == seqToUnseq.Length &&
        forall k | 0 <= k < 256 :: seqToUnseq[k] == unseq[k] as int
      ensures Valid() && fresh(pool) && fresh(pool.mtfa) && fresh(pool.mtfbase) && fresh(unzftab)
      ensures this.tt == tt && this.seqToUnseq == seqToUnseq && this.unseq == unseq
      ensures State() == Unpacking([], Identity(256), 0, 0)
    {
      this.tt, this.seqToUnseq, this.unseq := tt, seqToUnseq, unseq;
      pool := new Pool();
      unzftab := new int[256](i => 0);
      nblock, es, weight, out := 0, 0, 0, [];
      new;
      assert pool.List() == Identity(256);
    }

    /** Writes the run read so far, unless the block is full. */
    method CloseRun(nblockMAX: int) returns (ok: bool)
      requires Valid() && weight > 0 && |out| <= nblockMAX <= tt.Length
      modifies this`nblock, this`es, this`weight, this`out, tt, unzftab
      ensures ok <==> |Closed(old(State()), unseq)| <= nblockMAX
      ensures ok ==> Valid() && out == Closed(old(State()), unseq) && weight == 0 && pool.List() == old(pool.List())
    {
      es := es + 1;
      ghost var x := unseq[pool.List()[0]];
      pool.Front();
      var uc := seqToUnseq[pool.mtfa[pool.mtfbase[0]]];
      ok := WriteRun(uc, x, nblockMAX);
      weight := 0;
    }

    /** Counts es more of x and stores them. */
    method WriteRun(uc: int, ghost x: Byte, nblockMAX: int) returns (ok: bool)
      requires tt != unzftab && nblock == |out| <= nblockMAX <= tt.Length && uc == x as int &&
        Output(tt[..], unzftab[..], out) && es >= 0
      modifies this`nblock, this`es, this`out, tt, unzftab
      ensures ok <==> |old(out)| + old(es) <= nblockMAX
      ensures ok ==>
        es == 0 && nblock == |out| && out == old(out) + Repeat(x, old(es)) && Output(tt[..], unzftab[..], out)
    {
      ghost var out0, n := out, es;
      ghost var w, f := tt[..], unzftab[..];
      CountAhead(w, f, out, x, es);
      unzftab[uc] := unzftab[uc] + es;
      assert unzftab[..] == f[uc := f[uc] + n];
      hide Counted, Output;
      while es > 0
        invariant 0 <= es <= n && nblock == |out| <= nblockMAX && Counted(tt[..], unzftab[..], out, x, es)
        invariant out == out0 + Repeat(x, n - es)
        modifies this`nblock, this`es, this`out, tt
      {
        if nblock >= nblockMAX { return false; }
        w := tt[..];
        PutAhead(w, unzftab[..], out, x, es);
        tt[nblock] := uc;
        assert tt[..] == w[nblock := uc];
        nblock := nblock + 1;
        es := es - 1;
        assert Repeat(x, n - es) == Repeat(x, n - es - 1) + [x];
        out := out + [x];
      }
      AllPut(tt[..], unzftab[..], out, x);
      ok := true;
    }

    /** One symbol. */
    method Feed(nextSym: int, EOB: int, nblockMAX: int) returns (status: Status)
      requires Valid() && |out| <= nblockMAX <= tt.Length && 0 <= nextSym <= EOB <= 257 && Ready(State(), nblockMAX)
      modifies this`nblock, this`es, this`weight, this`out, tt, unzftab, pool.mtfa, pool.mtfbase
      ensures status == DataError <==> Step(old(State()), nextSym, EOB, nblockMAX, unseq).Failed?
      ensures status == EndOfBlock ==> Valid() && Step(old(State()), nextSym, EOB, nblockMAX, unseq) == Ended(out)
      ensures status == More ==> Valid() && Step(old(State()), nextSym, EOB, nblockMAX, unseq) == Going(State())
    {
      if nextSym == RUNA || nextSym == RUNB {
        if weight == 0 {
          es := -1;
          weight := 1;
        }
        if weight >= RUN_LIMIT { return DataError; }
        if nextSym == RUNA {
          es := es + (0 + 1) * weight;
        } else {
          es := es + (1 + 1) * weight;
        }
        weight := weight * 2;
        return More;
      }
      if weight > 0 {
        var ok := CloseRun(nblockMAX);
        if !ok { return DataError; }
      }
      if nextSym == EOB { return EndOfBlock; }
      if nblock >= nblockMAX { return DataError; }
      status := FeedIndex(nextSym - 1);
    }

    method FeedIndex(nn: int) returns (status: Status)
      requires Valid() && nblock < tt.Length && 0 <= nn < 256 && weight == 0
      modifies this`nblock, this`es, this`out, tt, unzftab, pool.mtfa, pool.mtfbase
      ensures Valid() && status == More
      ensures State() == Unpacking(old(out) + [unseq[old(pool.List())[nn]]], ToFront(old(pool.List()), nn), 0, 0)
    {
      hide Output, Pool.Valid, Pool.List, ToFront;
      StaysList(pool.List(), nn);
      assert 0 <= pool.List()[nn] < 256;
      ghost var x := unseq[pool.List()[nn]];
      hide IsList;
      var uc := pool.Take(nn);
      Append(seqToUnseq[uc], x);
      es := 0;
      status := More;
    }

    /** Counts a byte and stores it. */
    method Append(c: int, ghost x: Byte)
      requires tt != unzftab && nblock == |out| < tt.Length && c == x as int && Output(tt[..], unzftab[..], out)
      modifies this`nblock, this`out, tt, unzftab
      ensures nblock == |out| && out == old(out) + [x] && Output(tt[..], unzftab[..], out)
    {
      ghost var w, f := tt[..], unzftab[..];
      PutOne(w, f, out, x);
      hide Output;
      unzftab[c] := unzftab[c] + 1;
      tt[nblock] := c;
      assert tt[..] == w[nblock := c] && unzftab[..] == f[c := f[c] + 1];
      nblock := nblock + 1;
      out := out + [x];
    }
  }
}
