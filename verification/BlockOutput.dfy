/**
 * The decoder's output stage, in both memory modes: it walks the linked block, undoes the initial
 * run-length coding, and stops and goes on wherever the output buffer ends.
 */
module BlockOutput {
  import opened Bits
  import opened Rotations
  import opened InverseBwt
  import opened FastDecode
  import opened SmallDecode
  import opened RunLength
  import opened Crc
  import opened Randomisation
  import RandomTable

  lemma {:induction false} AfterAfter(a: seq<Byte>, b: seq<Byte>, e: Expanded)
    ensures After(a, After(b, e)) == After(a + b, e) && After([], e) == e
  {
    assert a + (b + e.out) == (a + b) + e.out;
  }

  /** What is still to come out: the rest of a run, then what the bytes ahead expand to. */
  function Coming(ch: Byte, len: nat, ahead: seq<Byte>): Expanded
  {
    if ahead == [] then Expanded(Copies(ch, len), false) else After(Copies(ch, len), Expand(ahead))
  }

  lemma {:induction false} ComingOne(ch: Byte, len: nat, ahead: seq<Byte>)
    requires len > 0
    ensures Coming(ch, len, ahead) == After([ch], Coming(ch, len - 1, ahead))
  {
    assert Copies(ch, len) == [ch] + Copies(ch, len - 1);
    var e := Expand(if ahead == [] then [ch] else ahead);
    assert ([ch] + Copies(ch, len - 1)) + e.out == [ch] + (Copies(ch, len - 1) + e.out);
  }

  lemma {:induction false} ComingNone(ch: Byte, ahead: seq<Byte>)
    ensures Coming(ch, 0, ahead) == if ahead == [] then Expanded([], false) else Expand(ahead)
  {
    assert Copies(ch, 0) == [];
  }

  /** A new run begins with the first byte ahead: it has n bytes, or 4 and as many more as the fifth byte says. */
  lemma {:induction false} ComingRun(ch: Byte, s: seq<Byte>)
    requires |s| >= 2
    ensures var n := Equals(s);
      && (n < 4 ==> Coming(ch, 0, s) == Coming(s[0], n, s[n..]))
      && (n == 4 ==> |s| >= 5 && Coming(ch, 0, s) == Coming(s[0], s[4] as int + 4, s[5..]))
  {
    ComingNone(ch, s);
  }

  lemma {:induction false} AtEnd(ch: Byte, len: nat, s: seq<Byte>, t: seq<Byte>)
    requires |s| == |t| == 1
    ensures Coming(ch, len, s) == Coming(ch, len, t)
  {
  }

  lemma {:induction false} ComingLonger(ch: Byte, len: nat, ahead: seq<Byte>)
    requires len > 0
    ensures |Coming(ch, len, ahead).out| > 0
  {
  }

  lemma {:induction false} ComingChar(c: Byte, d: Byte, s: seq<Byte>)
    ensures Coming(c, 0, s) == Coming(d, 0, s)
  {
    ComingNone(c, s);
    ComingNone(d, s);
  }

  /** At the byte behind the block, or beyond, only the current run is still to come. */
  lemma {:induction false} ComingLast(ch: Byte, s: seq<Byte>)
    requires |s| <= 1
    ensures Coming(ch, 0, s) == Expanded([], |s| == 1)
  {
    assert Copies(ch, 0) == [];
  }

  class Output {
    const smallDecompress: bool
    const tt: array<int>
    const ll16: array<int>
    const ll4: array<int>
    const cftab: array<int>
    const blockSize100k: int
    const blockRandomised: bool
    const save_nblock: int
    var tPos: int
    var k0: Byte
    var nblock_used: int
    var state_out_ch: Byte
    var state_out_len: int
    var calculatedBlockCRC: nat
    var rNToGo: int
    var rTPos: int
    ghost const l: seq<Byte>
    ghost const t: seq<int>
    /** The bytes not yet fetched, down to the one behind the block's end. */
    ghost var todo: seq<Byte>
    /** The same as the links give them: if the block is randomised, some have the lowest bit turned over. */
    ghost var raw: seq<Byte>

    ghost predicate Valid()
      reads this, tt, ll16, ll4, cftab
    {
      Located() && Places()
    }

    /** The walk stands in front of the bytes to do. */
    ghost predicate Located()
      reads this`tPos, this`raw, this`todo, this`rNToGo, this`rTPos, tt, ll16, ll4, cftab
    {
      && save_nblock == |l| <= 100_000 * blockSize100k && Leads(l, t) && 0 <= tPos < |l|
      && (if smallDecompress then SmallAt() else FastAt()) && IsUnmasked()
    }

    ghost predicate FastAt()
      requires Leads(l, t) && 0 <= tPos < |l|
      reads this`tPos, this`raw, tt
    {
      IsThreaded(tt[..], l, t) && raw == Fetch(l, t, tPos, |raw|)
    }

    ghost predicate SmallAt()
      requires Leads(l, t) && 0 <= tPos < |l|
      reads this`tPos, this`raw, ll16, ll4, cftab
    {
      && IsStore(ll16[..], ll4[..], |l|) && FirstColumn(cftab[..], l, t)
      && Follows(Numbers(ll16[..], ll4[..], |l|), t, tPos) && raw == Fetch(l, t, t[tPos], |raw|)
    }

    function Mask(): (st: State)
      reads this`rNToGo, this`rTPos
    {
      State(rNToGo, rTPos)
    }

    ghost predicate IsUnmasked()
      reads this`raw, this`todo, this`rNToGo, this`rTPos
    {
      IsState(Mask()) && todo == Restored(blockRandomised, Mask(), raw)
    }

    ghost predicate Places()
      reads this`nblock_used, this`state_out_len, this`todo, this`calculatedBlockCRC
    {
      1 <= nblock_used <= save_nblock + 2 && 0 <= state_out_len &&
        |todo| == (if nblock_used <= save_nblock + 1 then save_nblock + 1 - nblock_used else 0) &&
        calculatedBlockCRC < WORD
    }

    /** The byte held, and those not yet fetched. */
    ghost function Ahead(): (s: seq<Byte>)
      reads this
    {
      if nblock_used > save_nblock + 1 then [] else [k0] + todo
    }

    /** All output still to come. */
    ghost function Rest(): Expanded
      reads this
      requires state_out_len >= 0
    {
      Coming(state_out_ch, state_out_len, Ahead())
    }

    /** At the start of a block: the first byte fetched, nothing put out. */
    constructor Fast(tt: array<int>, origPtr: int, blockSize100k: int, save_nblock: int, randomised: bool,
      ghost l: seq<Byte>, ghost t: seq<int>)
      requires IsThreaded(tt[..], l, t) && save_nblock == |l| <= 100_000 * blockSize100k && 0 <= origPtr < |l|
      ensures !smallDecompress && this.tt == tt && ll16 == tt && ll4 == tt && cftab == tt
      ensures Valid() && this.l == l && this.t == t && state_out_len == 0 && calculatedBlockCRC == CRC_START
      ensures Leads(l, t) && Ahead() == Derandomised(randomised, Fetch(l, t, t[origPtr], save_nblock + 1))
    {
      hide Restored, Derandomised, Updated, Masked, Ahead, SmallAt;
      smallDecompress, this.tt, ll16, ll4, cftab := false, tt, tt, tt, tt;
      this.blockSize100k, this.save_nblock, this.l, this.t := blockSize100k, save_nblock, l, t;
      state_out_len, state_out_ch, calculatedBlockCRC := 0, 0, CRC_START;
      blockRandomised, rNToGo, rTPos := randomised, 0, 0;
      ThreadedAt(tt[..], l, t, origPtr);
      FetchStep(l, t, t[origPtr], save_nblock);
      hide IsThreaded, Fetch;
      var ok, c, next := GetFast(tt, tt[origPtr] / 256, blockSize100k, l, t);
      tPos, k0, nblock_used := next, c, 1;
      ghost var further := Fetch(l, t, next, save_nblock);
      raw, todo := further, Restored(randomised, AfterFirst(randomised), further);
      assert Fetch(l, t, t[origPtr], save_nblock + 1) == [c] + further;
      new;
      k0 := Unmask(k0);
      FirstAhead(c, further);
    }

    constructor Small(ll16: array<int>, ll4: array<int>, cftab: array<int>, origPtr: int, blockSize100k: int,
      save_nblock: int, randomised: bool, ghost l: seq<Byte>, ghost t: seq<int>)
      requires save_nblock == |l| <= 100_000 * blockSize100k && 0 <= origPtr < |l|
      requires IsStore(ll16[..], ll4[..], |l|) && FirstColumn(cftab[..], l, t) &&
        Follows(Numbers(ll16[..], ll4[..], |l|), t, origPtr)
      ensures smallDecompress && tt == ll16 && this.ll16 == ll16 && this.ll4 == ll4 && this.cftab == cftab
      ensures Valid() && this.l == l && this.t == t && state_out_len == 0 && calculatedBlockCRC == CRC_START
      ensures Leads(l, t) && Ahead() == Derandomised(randomised, Fetch(l, t, t[origPtr], save_nblock + 1))
    {
      hide Restored, Derandomised, Updated, Masked, Ahead, FastAt;
      smallDecompress, tt, this.ll16, this.ll4, this.cftab := true, ll16, ll16, ll4, cftab;
      this.blockSize100k, this.save_nblock, this.l, this.t := blockSize100k, save_nblock, l, t;
      state_out_len, state_out_ch, calculatedBlockCRC := 0, 0, CRC_START;
      blockRandomised, rNToGo, rTPos := randomised, 0, 0;
      FetchStep(l, t, t[origPtr], save_nblock);
      assert save_nblock <= ll16.Length && save_nblock <= 2 * ll4.Length && Leads(l, t);
      hide IsStore, FirstColumn, Follows, Fetch, Numbers;
      var ok, c, next := GetSmall(ll16, ll4, cftab, origPtr, blockSize100k, l, t);
      tPos, k0, nblock_used := next, c, 1;
      ghost var further := Fetch(l, t, t[next], save_nblock);
      raw, todo := further, Restored(randomised, AfterFirst(randomised), further);
      assert Fetch(l, t, t[origPtr], save_nblock + 1) == [c] + further;
      new;
      k0 := Unmask(k0);
      FirstAhead(c, further);
    }

    lemma {:induction false} FirstAhead(c: Byte, further: seq<Byte>)
      requires nblock_used == 1 && save_nblock >= 0 &&
        todo == Restored(blockRandomised, AfterFirst(blockRandomised), further)
      requires k0 == if blockRandomised then Masked(AfterFirst(true), c) else c
      ensures Ahead() == Derandomised(blockRandomised, [c] + further)
    {
      hide Restored, Masked, Updated;
      FirstRestored(blockRandomised, c, further);
    }

    /** Goes on to the next byte of a randomised block. */
    method UpdateMask()
      requires IsState(Mask())
      modifies this`rNToGo, this`rTPos
      ensures Mask() == Updated(old(Mask()))
    {
      if rNToGo == 0 {
        rNToGo := RandomTable.Number(rTPos);
        rTPos := rTPos + 1;
        if rTPos == RandomTable.DISTANCES { rTPos := 0; }
      }
      rNToGo := rNToGo - 1;
    }

    /** The byte that comes with the one just got from the links. */
    method Unmask(k: Byte) returns (c: Byte)
      requires IsState(Mask())
      modifies this`rNToGo, this`rTPos
      ensures Mask() == if blockRandomised then Updated(old(Mask())) else old(Mask())
      ensures c == if blockRandomised then Masked(Mask(), k) else k
    {
      c := k;
      if blockRandomised {
        UpdateMask();
        c := Masked(Mask(), k);
      }
    }

    /** Fetches one byte. */
    method Get() returns (c: Byte)
      requires Valid() && nblock_used <= save_nblock + 1
      modifies this`tPos, this`nblock_used, this`todo, this`raw, this`rNToGo, this`rTPos
      ensures Valid() && nblock_used == old(nblock_used) + 1
      ensures old(todo) != [] ==> c == old(todo)[0] && todo == old(todo)[1..]
    {
      c := Move();
      nblock_used := nblock_used + 1;
    }

    method Move() returns (c: Byte)
      requires Located()
      modifies this`tPos, this`todo, this`raw, this`rNToGo, this`rTPos
      ensures Located() && |todo| == if old(todo) == [] then 0 else |old(todo)| - 1
      ensures old(todo) != [] ==> c == old(todo)[0] && todo == old(todo)[1..]
    {
      hide SmallAt, FastAt;
      RestoredStep(blockRandomised, Mask(), raw);
      if smallDecompress { c := MoveSmall(); } else { c := MoveFast(); }
      c := Unmask(c);
      if todo != [] { todo := todo[1..]; }
    }

    method MoveFast() returns (c: Byte)
      requires Leads(l, t) && 0 <= tPos < |l| <= 100_000 * blockSize100k && FastAt()
      modifies this`tPos, this`raw
      ensures 0 <= tPos < |l| && FastAt() && |raw| == if old(raw) == [] then 0 else |old(raw)| - 1
      ensures old(raw) != [] ==> c == old(raw)[0] && raw == old(raw)[1..]
    {
      ghost var q := t[tPos];
      if raw == [] {
        FetchNone(l, t, tPos);
        FetchNone(l, t, q);
      } else {
        FetchStep(l, t, tPos, |raw| - 1);
        raw := raw[1..];
      }
      hide IsThreaded, Fetch;
      var ok, v, next := GetFast(tt, tPos, blockSize100k, l, t);
      c, tPos := v, next;
    }

    method MoveSmall() returns (c: Byte)
      requires Leads(l, t) && 0 <= tPos < |l| <= 100_000 * blockSize100k && SmallAt()
      modifies this`tPos, this`raw
      ensures 0 <= tPos < |l| && SmallAt() && |raw| == if old(raw) == [] then 0 else |old(raw)| - 1
      ensures old(raw) != [] ==> c == old(raw)[0] && raw == old(raw)[1..]
    {
      ghost var q := t[tPos];
      if raw == [] {
        FetchNone(l, t, q);
        FetchNone(l, t, t[q]);
      } else {
        FetchStep(l, t, q, |raw| - 1);
        raw := raw[1..];
      }
      assert |l| <= ll16.Length && |l| <= 2 * ll4.Length;
      hide IsStore, FirstColumn, Follows, Fetch, Numbers;
      var ok, v, next := GetSmall(ll16, ll4, cftab, tPos, blockSize100k, l, t);
      c, tPos := v, next;
    }

    /** The bytes s lead to e; i of them, all equal, have been taken into the current run. */
    ghost predicate Taking(s: seq<Byte>, i: int, e: Expanded)
      reads this`k0, this`nblock_used, this`state_out_ch, this`todo
    {
      && 1 <= i < |s| && i <= 4 && e == Coming(state_out_ch, 0, s) && s[i..] == todo && nblock_used <= save_nblock + 1
      && |todo| == save_nblock + 1 - nblock_used && k0 == state_out_ch && forall j | 0 <= j < i :: s[j] == k0
    }

    lemma {:induction false} RunEndsHere(s: seq<Byte>, i: int, e: Expanded)
      requires Taking(s, i, e) && i < 4
      ensures |todo| == 1 || todo[0] != k0 ==> Coming(state_out_ch, i, todo) == e
      ensures |todo| == 1 ==> forall c: Byte :: Coming(state_out_ch, i, [c]) == e
    {
      ComingRun(state_out_ch, s);
      if |todo| == 1 {
        forall c: Byte ensures Coming(state_out_ch, i, [c]) == e { AtEnd(state_out_ch, i, [c], todo); }
      }
    }

    lemma {:induction false} RunHasCount(s: seq<Byte>, e: Expanded)
      requires Taking(s, 4, e)
      ensures todo != [] && |todo| == save_nblock + 1 - nblock_used
      ensures Coming(state_out_ch, todo[0] as int + 4, todo[1..]) == e
    {
      ComingRun(state_out_ch, s);
    }

    /** The next byte: false if it ends the run of i bytes, or the block. */
    method Another(i: int, ghost s: seq<Byte>, ghost e: Expanded) returns (more: bool)
      requires Valid() && Taking(s, i, e) && 0 < i < 4
      modifies this`tPos, this`nblock_used, this`todo, this`raw, this`rNToGo, this`rTPos, this`k0, this`state_out_len
      ensures Valid() && nblock_used == old(nblock_used) + 1 && state_out_len == i
      ensures more ==> Taking(s, i + 1, e)
      ensures !more ==> Rest() == e
    {
      hide Located, Coming;
      RunEndsHere(s, i, e);
      state_out_len := i;
      ghost var before := todo;
      var k1 := Get();
      if nblock_used == save_nblock + 1 {
        assert todo == [] && Ahead() == [k0];
        return false;
      }
      if k1 != k0 {
        k0 := k1;
        assert Ahead() == before;
        return false;
      }
      assert s[i + 1..] == before[1..];
      more := true;
    }

    /** Reads the next run. */
    method StartRun()
      requires Valid() && state_out_len == 0 && nblock_used <= save_nblock
      modifies this`tPos, this`nblock_used, this`todo, this`raw, this`rNToGo, this`rTPos, this`k0, this`state_out_ch,
        this`state_out_len
      ensures Valid() && state_out_len > 0 && nblock_used > old(nblock_used) && Rest() == old(Rest())
    {
      ghost var s, e := Ahead(), Rest();
      hide Located, Coming, Taking, Rest, Ahead;
      BeginRun();
      var more := Another(1, s, e);
      if !more { return; }
      more := Another(2, s, e);
      if !more { return; }
      more := Another(3, s, e);
      if !more { return; }
      Count(s, e);
    }

    /** The byte held is the first of the next run. */
    method BeginRun()
      requires Places() && state_out_len == 0 && nblock_used <= save_nblock
      modifies this`state_out_ch, this`state_out_len
      ensures Places() && state_out_len == 1 && Taking(old(Ahead()), 1, old(Rest()))
    {
      ghost var s := Ahead();
      hide Coming;
      ComingChar(state_out_ch, k0, s);
      state_out_ch := k0;
      state_out_len := 1;
      assert s[1..] == todo;
    }

    /** Four equal bytes are followed by a count. */
    method Count(ghost s: seq<Byte>, ghost e: Expanded)
      requires Valid() && Taking(s, 4, e)
      modifies this`tPos, this`nblock_used, this`todo, this`raw, this`rNToGo, this`rTPos, this`k0, this`state_out_len
      ensures Valid() && state_out_len > 0 && nblock_used > old(nblock_used) && Rest() == e
    {
      hide Located, Coming, Taking, Rest, Ahead;
      RunHasCount(s, e);
      ghost var before := todo;
      var k1 := Get();
      state_out_len := k1 as int + 4;
      k0 := Get();
      assert before[1..] == if nblock_used > save_nblock + 1 then [] else [k0] + todo;
      RestIs();
    }

    lemma {:induction false} RestIs()
      requires state_out_len >= 0
      ensures Rest() == Coming(state_out_ch, state_out_len, if nblock_used > save_nblock + 1 then [] else [k0] + todo)
    {
    }

    /** Puts out bytes of the current run, as long as there is room. */
    method PutRun(avail_out: nat) returns (out: seq<Byte>)
      requires state_out_len >= 0 && calculatedBlockCRC < WORD
      modifies this`state_out_len, this`calculatedBlockCRC
      ensures state_out_len >= 0 && calculatedBlockCRC < WORD && |out| <= avail_out &&
        (state_out_len > 0 ==> |out| == avail_out)
      ensures old(Rest()) == After(out, Rest()) && calculatedBlockCRC == CrcFrom(old(calculatedBlockCRC), out)
    {
      out := [];
      hide Coming, After, CrcByte, CrcFrom;
      CrcNone(calculatedBlockCRC);
      AfterAfter([], [], Rest());
      while state_out_len > 0 && |out| < avail_out
        invariant state_out_len >= 0 && |out| <= avail_out && calculatedBlockCRC < WORD
        invariant old(Rest()) == After(out, Rest()) && calculatedBlockCRC == CrcFrom(old(calculatedBlockCRC), out)
        decreases state_out_len
      {
        ComingOne(state_out_ch, state_out_len, Ahead());
        ghost var e := Coming(state_out_ch, state_out_len - 1, Ahead());
        AfterAfter(out, [state_out_ch], e);
        CrcAppend(old(calculatedBlockCRC), out, [state_out_ch]);
        CrcOne(calculatedBlockCRC, state_out_ch);
        out := out + [state_out_ch];
        calculatedBlockCRC := CrcByte(calculatedBlockCRC, state_out_ch);
        state_out_len := state_out_len - 1;
      }
    }

    /**
     * unRLE_obuf_to_output_SMALL: fills the output buffer as far as the block goes. corrupt tells that a run without
     * its count has been put out in full; with the buffer full it does not look for that.
     */
    method UnRLESmall(avail_out: nat) returns (out: seq<Byte>, corrupt: bool)
      requires Valid()
      modifies this`tPos, this`nblock_used, this`todo, this`raw, this`rNToGo, this`rTPos, this`k0, this`state_out_ch,
        this`state_out_len,
        this`calculatedBlockCRC
      ensures Valid() && old(Rest()) == After(out, Rest())
      ensures |out| <= avail_out && (if |out| == avail_out then !corrupt else Stopped(corrupt, avail_out - |out|))
      ensures calculatedBlockCRC == CrcFrom(old(calculatedBlockCRC), out)
    {
      out, corrupt := [], false;
      AfterAfter([], [], Rest());
      hide Coming, Located, After, CrcFrom, Rest;
      CrcNone(calculatedBlockCRC);
      var stop := false;
      while !stop
        invariant Valid() && |out| <= avail_out
        invariant old(Rest()) == After(out, Rest()) && calculatedBlockCRC == CrcFrom(old(calculatedBlockCRC), out)
        invariant stop ==> if |out| == avail_out then !corrupt else Stopped(corrupt, avail_out - |out|)
        decreases !stop, save_nblock + 2 - nblock_used
      {
        var more;
        more, stop, corrupt := PutOrStart(avail_out - |out|);
        CrcAppend(old(calculatedBlockCRC), out, more);
        AfterAfter(out, more, Rest());
        out := out + more;
      }
    }

    /** Puts out the current run; reads the next one only if there is room left. */
    method PutOrStart(avail_out: nat) returns (out: seq<Byte>, stop: bool, corrupt: bool)
      requires Valid()
      modifies this`tPos, this`nblock_used, this`todo, this`raw, this`rNToGo, this`rTPos, this`k0, this`state_out_ch,
        this`state_out_len,
        this`calculatedBlockCRC
      ensures Valid() && old(Rest()) == After(out, Rest()) && |out| <= avail_out
      ensures calculatedBlockCRC == CrcFrom(old(calculatedBlockCRC), out)
      ensures !stop ==> nblock_used > old(nblock_used)
      ensures stop ==> if |out| == avail_out then !corrupt else Stopped(corrupt, avail_out - |out|)
    {
      hide Coming, Located, After, CrcFrom;
      stop, corrupt := true, false;
      out := PutRun(avail_out);
      if |out| == avail_out {
      } else if nblock_used >= save_nblock + 1 {
        ComingLast(state_out_ch, Ahead());
        corrupt := nblock_used > save_nblock + 1;
      } else {
        StartRun();
        stop := false;
      }
    }

    /**
     * unRLE_obuf_to_output_FAST: for a randomised block it does the same, for any other it looks for corruption with
     * the buffer full as well.
     */
    method UnRLE(avail_out: nat) returns (out: seq<Byte>, corrupt: bool)
      requires Valid()
      modifies this`tPos, this`nblock_used, this`todo, this`raw, this`rNToGo, this`rTPos, this`k0, this`state_out_ch,
        this`state_out_len,
        this`calculatedBlockCRC
      ensures Valid() && old(Rest()) == After(out, Rest())
      ensures |out| <= avail_out
      ensures if blockRandomised && |out| == avail_out then !corrupt else Stopped(corrupt, avail_out - |out|)
      ensures calculatedBlockCRC == CrcFrom(old(calculatedBlockCRC), out)
    {
      if blockRandomised { out, corrupt := UnRLESmall(avail_out); } else { out, corrupt := UnRLEPlain(avail_out); }
    }

    method UnRLEPlain(avail_out: nat) returns (out: seq<Byte>, corrupt: bool)
      requires Valid()
      modifies this`tPos, this`nblock_used, this`todo, this`raw, this`rNToGo, this`rTPos, this`k0, this`state_out_ch,
        this`state_out_len, this`calculatedBlockCRC
      ensures Valid() && old(Rest()) == After(out, Rest())
      ensures |out| <= avail_out && Stopped(corrupt, avail_out - |out|)
      ensures calculatedBlockCRC == CrcFrom(old(calculatedBlockCRC), out)
    {
      out, corrupt := [], false;
      AfterAfter([], [], Rest());
      hide Coming, Located, After, CrcFrom, Rest;
      CrcNone(calculatedBlockCRC);
      var stop := false;
      while !stop
        invariant Valid() && |out| <= avail_out
        invariant old(Rest()) == After(out, Rest()) && calculatedBlockCRC == CrcFrom(old(calculatedBlockCRC), out)
        invariant stop ==> Stopped(corrupt, avail_out - |out|)
        decreases !stop, save_nblock + 2 - nblock_used
      {
        var more;
        more, stop, corrupt := PutAndStart(avail_out - |out|);
        CrcAppend(old(calculatedBlockCRC), out, more);
        AfterAfter(out, more, Rest());
        out := out + more;
      }
    }

    /** Why putting out has stopped, with room left in the output buffer. */
    ghost predicate Stopped(corrupt: bool, room: int)
      reads this
      requires state_out_len >= 0
    {
      && (room > 0 ==> Rest().out == [])
      && (corrupt <==> Rest() == Expanded([], false))
      && (Rest() == Expanded([], true) ==> nblock_used == save_nblock + 1 && state_out_len == 0)
    }

    /** Puts out the current run, and reads the next one if there is one. */
    method PutAndStart(avail_out: nat) returns (out: seq<Byte>, stop: bool, corrupt: bool)
      requires Valid()
      modifies this`tPos, this`nblock_used, this`todo, this`raw, this`rNToGo, this`rTPos, this`k0, this`state_out_ch,
        this`state_out_len,
        this`calculatedBlockCRC
      ensures Valid() && old(Rest()) == After(out, Rest()) && |out| <= avail_out
      ensures calculatedBlockCRC == CrcFrom(old(calculatedBlockCRC), out)
      ensures if stop then Stopped(corrupt, avail_out - |out|) else nblock_used > old(nblock_used)
    {
      hide Coming, Located, After, CrcFrom;
      corrupt := false;
      out := PutRun(avail_out);
      stop := true;
      if state_out_len > 0 {
        ComingLonger(state_out_ch, state_out_len, Ahead());
      } else if nblock_used >= save_nblock + 1 {
        ComingLast(state_out_ch, Ahead());
        corrupt := nblock_used > save_nblock + 1;
      } else {
        StartRun();
        stop := false;
      }
    }
  }
}
