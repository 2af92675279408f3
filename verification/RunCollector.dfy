/** The compressor's front end: input bytes are gathered into runs, and finished runs written into the block. */
module RunCollector {
  import opened Bits
  import opened Rotations
  import opened RunLength
  import opened Crc
  import opened ByteView
  import opened BlockCutting

  const NO_CHAR := 256

  // ---- what a finished run changes

  /** The bytes of the words w from byte n on begin with s. */
  ghost predicate HoldsAt(w: seq<int>, n: int, s: seq<Byte>) {
    0 <= n && n + |s| <= 4 * |w| && forall i | n <= i < n + |s| :: ByteAt(w, i) == s[i - n]
  }

  ghost predicate SameUpTo(w: seq<int>, v: seq<int>, n: int) {
    0 <= n <= 4 * |w| && |v| == |w| && forall i | 0 <= i < n :: ByteAt(w, i) == ByteAt(v, i)
  }

  /** Exactly the bytes of s are marked. */
  ghost predicate Marks(inUse: seq<bool>, s: seq<Byte>) {
    |inUse| == 256 && forall v: Byte :: inUse[v] <==> v in s
  }

  /** A block in the making: bytes, marks and checksum are those of its runs. */
  ghost predicate Gathered(block: seq<int>, inUse: seq<bool>, nblock: int, crc: nat, runs: seq<Run>) {
    && AreRuns(runs) && nblock == |Encode(runs)| && HoldsAt(block, 0, Encode(runs)) && Marks(inUse, Encode(runs))
    && crc == CrcFrom(CRC_START, Plain(runs))
  }

  /** Run r may follow. */
  ghost predicate MayFollow(runs: seq<Run>, ch: Byte) {
    runs == [] || runs[|runs| - 1].len >= 4 || runs[|runs| - 1].ch != ch
  }

  lemma {:induction false} RunsAppend(runs: seq<Run>, r: Run)
    requires AreRuns(runs) && 1 <= r.len <= 255 && MayFollow(runs, r.ch)
    ensures AreRuns(runs + [r]) && Encode(runs + [r]) == Encode(runs) + Pair(r) &&
      Plain(runs + [r]) == Plain(runs) + Copies(r.ch, r.len)
  {
    EncodeAppend(runs, r);
    PlainAppend(runs, r);
  }

  lemma {:induction false} GatherRun(block: seq<int>, inUse: seq<bool>, nblock: int, crc: nat, runs: seq<Run>, r: Run,
    block': seq<int>, inUse': seq<bool>, crc': nat)
    requires Gathered(block, inUse, nblock, crc, runs) && 1 <= r.len <= 255 && MayFollow(runs, r.ch) && crc < WORD
    requires SameUpTo(block, block', nblock) && HoldsAt(block', nblock, Pair(r))
    requires |inUse'| == 256 && forall v: Byte :: inUse'[v] <==> inUse[v] || v in Pair(r)
    requires crc' == CrcFrom(crc, Copies(r.ch, r.len))
    ensures Gathered(block', inUse', nblock + |Pair(r)|, crc', runs + [r])
  {
    RunsAppend(runs, r);
    CrcAppend(CRC_START, Plain(runs), Copies(r.ch, r.len));
    var s := Encode(runs);
    var e := s + Pair(r);
    hide Encode, Plain, AreRuns, ByteAt;
    forall i | 0 <= i < |e| ensures ByteAt(block', i) == e[i] {
      if i < nblock { assert ByteAt(block, i) == s[i - 0]; }
    }
  }

  lemma {:induction false} PairBytes(r: Run, v: Byte)
    requires 1 <= r.len <= 255
    ensures v in Pair(r) <==> v == r.ch || (r.len >= 4 && v as int == r.len - 4)
  {
    assert Pair(r)[0] == r.ch;
    if r.len >= 4 { assert Pair(r)[4] as int == r.len - 4; }
  }

  class Collector {
    const block: array<int>
    const inUse: array<bool>
    const nblockMAX: int
    var nblock: int
    var blockCRC: nat
    var state_in_ch: int
    var state_in_len: int
    ghost var runs: seq<Run>

    ghost predicate Valid()
      reads this, block, inUse
    {
      && Gathered(block[..], inUse[..], nblock, blockCRC, runs) && blockCRC < WORD
      && 1 <= nblockMAX && nblockMAX + 19 <= 4 * block.Length && inUse.Length == 256 && 0 <= nblock && Pending()
    }

    /** The run not yet written, if there is one, may follow the last one written. */
    ghost predicate Pending()
      reads this
    {
      if state_in_ch == NO_CHAR then state_in_len == 0
      else 0 <= state_in_ch < 256 && 1 <= state_in_len <= 255 && MayFollow(runs, state_in_ch as Byte)
    }

    /** The input this block and the pending run stand for. */
    ghost function Taken(): seq<Byte>
      requires Pending()
      reads this
    {
      Plain(runs) + PendingBytes()
    }

    ghost function PendingBytes(): seq<Byte>
      requires Pending()
      reads this
    {
      if state_in_ch == NO_CHAR then [] else Copies(state_in_ch as Byte, state_in_len)
    }

    /** The run not yet written, if there is one. */
    ghost function LastRun(): seq<Run>
      reads this`state_in_ch, this`state_in_len
    {
      if 0 <= state_in_ch < 256 && state_in_len >= 0 then [Run(state_in_ch as Byte, state_in_len)] else []
    }

    /** The present block, as the input makes it. */
    ghost function Present(): Cutting
      reads this`runs, this`state_in_ch, this`state_in_len
    {
      Cutting([], runs, LastRun())
    }

    /** init_RL and prepare_new_block for the first block. */
    constructor (block: array<int>, inUse: array<bool>, nblockMAX: int)
      requires 1 <= nblockMAX && nblockMAX + 19 <= 4 * block.Length && inUse.Length == 256
      modifies inUse
      ensures Valid() && this.block == block && this.inUse == inUse && this.nblockMAX == nblockMAX
      ensures runs == [] && nblock == 0 && Taken() == [] && state_in_ch == NO_CHAR
    {
      this.block, this.inUse, this.nblockMAX := block, inUse, nblockMAX;
      state_in_ch, state_in_len, nblock, blockCRC, runs := NO_CHAR, 0, 0, CRC_START, [];
      new;
      ClearMarks();
      NothingGathered(block[..], inUse[..]);
    }

    method ClearMarks()
      requires inUse.Length == 256
      modifies inUse
      ensures forall i | 0 <= i < 256 :: !inUse[i]
    {
      for i := 0 to 256
        invariant forall k | 0 <= k < i :: !inUse[k]
      {
        inUse[i] := false;
      }
    }

    /** Between blocks only the pending run matters. */
    ghost predicate Resting()
      reads this
    {
      1 <= nblockMAX && nblockMAX + 19 <= 4 * block.Length && inUse.Length == 256 && Pending()
    }

    /** prepare_new_block; a pending run stays. */
    method PrepareNewBlock()
      requires Resting()
      modifies this`nblock, this`blockCRC, this`runs, inUse
      ensures Valid() && runs == [] && nblock == 0 && PendingBytes() == old(PendingBytes())
    {
      nblock, blockCRC, runs := 0, CRC_START, [];
      ClearMarks();
      NothingGathered(block[..], inUse[..]);
    }

    method InitRL()
      modifies this`state_in_ch, this`state_in_len
      ensures state_in_ch == NO_CHAR && state_in_len == 0
    {
      state_in_ch, state_in_len := NO_CHAR, 0;
    }

    /** add_pair_to_block: the pending run becomes the block's last. */
    method AddPair()
      requires Valid() && state_in_ch != NO_CHAR && nblock + 5 <= 4 * block.Length
      modifies this`nblock, this`blockCRC, this`runs, block, inUse
      ensures Gathered(block[..], inUse[..], nblock, blockCRC, runs) && blockCRC < WORD
      ensures runs == old(runs) + [Run(state_in_ch as Byte, state_in_len)] && old(nblock) < nblock <= old(nblock) + 5
    {
      var ch: Byte := state_in_ch as Byte;
      ghost var r := Run(ch, state_in_len);
      ghost var b, u, c, n := block[..], inUse[..], blockCRC, nblock;
      hide Gathered, CrcByte, CrcFrom, AreRuns, MayFollow, Marks, HoldsAt, SameUpTo;
      UpdateCRC(ch, state_in_len);
      WritePair(ch, state_in_len);
      MarkPair(ch, state_in_len);
      GatherRun(b, u, n, c, runs, r, block[..], inUse[..], blockCRC);
      runs := runs + [r];
    }

    method UpdateCRC(ch: Byte, len: int)
      requires blockCRC < WORD && 0 <= len
      modifies this`blockCRC
      ensures blockCRC < WORD && blockCRC == CrcFrom(old(blockCRC), Copies(ch, len))
    {
      ghost var c := blockCRC;
      hide CrcByte, CrcFrom;
      CrcNone(c);
      assert Copies(ch, 0) == [];
      for i := 0 to len
        invariant blockCRC < WORD && blockCRC == CrcFrom(c, Copies(ch, i))
      {
        assert Copies(ch, i + 1) == Copies(ch, i) + [ch];
        CrcAppend(c, Copies(ch, i), [ch]);
        CrcOne(blockCRC, ch);
        blockCRC := CrcByte(blockCRC, ch);
      }
    }

    method WritePair(ch: Byte, len: int)
      requires 1 <= len <= 255 && 0 <= nblock && nblock + 5 <= 4 * block.Length
      modifies this`nblock, block
      ensures nblock == old(nblock) + |Pair(Run(ch, len))|
      ensures SameUpTo(old(block[..]), block[..], old(nblock)) && HoldsAt(block[..], old(nblock), Pair(Run(ch, len)))
    {
      ghost var n := nblock;
      hide ByteAt;
      match len
      case 1 =>
        PutByte(ch, n, []);
      case 2 =>
        PutByte(ch, n, []);
        PutByte(ch, n, [ch]);
      case 3 =>
        PutByte(ch, n, []);
        PutByte(ch, n, [ch]);
        PutByte(ch, n, [ch, ch]);
      case _ =>
        PutByte(ch, n, []);
        PutByte(ch, n, [ch]);
        PutByte(ch, n, [ch, ch]);
        PutByte(ch, n, [ch, ch, ch]);
        PutByte(len - 4, n, [ch, ch, ch, ch]);
    }

    method PutByte(c: Byte, ghost n: int, ghost s: seq<Byte>)
      requires 0 <= nblock < 4 * block.Length && nblock == n + |s| && HoldsAt(block[..], n, s)
      modifies this`nblock, block
      ensures nblock == old(nblock) + 1 && SameUpTo(old(block[..]), block[..], n) && HoldsAt(block[..], n, s + [c])
    {
      hide ByteAt;
      SetByte(block, nblock, c);
      nblock := nblock + 1;
    }

    method MarkPair(ch: Byte, len: int)
      requires 1 <= len <= 255 && inUse.Length == 256
      modifies inUse
      ensures forall v: Byte :: inUse[v] <==> old(inUse[v]) || v in Pair(Run(ch, len))
    {
      inUse[ch] := true;
      if len >= 4 { inUse[len - 4] := true; }
      forall v: Byte ensures inUse[v] <==> old(inUse[v]) || v in Pair(Run(ch, len)) { PairBytes(Run(ch, len), v); }
    }

    /** flush_RL */
    method FlushRL()
      requires Valid() && nblock + 5 <= 4 * block.Length
      modifies this`nblock, this`blockCRC, this`runs, this`state_in_ch, this`state_in_len, block, inUse
      ensures Valid() && state_in_ch == NO_CHAR && Plain(runs) == old(Taken()) && nblock <= old(nblock) + 5
      ensures runs == old(runs) + old(LastRun())
      ensures old(runs) <= runs && (runs == old(runs) ==> old(state_in_ch) == NO_CHAR)
    {
      if state_in_ch < 256 {
        PlainAppend(runs, Run(state_in_ch as Byte, state_in_len));
        AddPair();
      }
      InitRL();
    }

    /** ADD_CHAR_TO_BLOCK; a flushed block takes no more. */
    method AddChar(c: Byte)
      requires Valid() && nblock + 5 <= 4 * block.Length && (state_in_ch == NO_CHAR ==> runs == [])
      modifies this`nblock, this`blockCRC, this`runs, this`state_in_ch, this`state_in_len, block, inUse
      ensures Valid() && state_in_ch != NO_CHAR && Taken() == old(Taken()) + [c] && nblock <= old(nblock) + 5
      ensures Present() == Grown(old(Present()), c)
    {
      hide Gathered;
      if c != state_in_ch && state_in_len == 1 {
        AddSingle();
        state_in_ch := c;
      } else if c != state_in_ch || state_in_len == 255 {
        if state_in_ch < 256 {
          PlainAppend(runs, Run(state_in_ch as Byte, state_in_len));
          AddPair();
        }
        state_in_ch := c;
        state_in_len := 1;
      } else {
        assert Copies(c, state_in_len + 1) == Copies(c, state_in_len) + [c];
        state_in_len := state_in_len + 1;
      }
    }

    /** The short way for a run of one byte. */
    method AddSingle()
      requires Valid() && state_in_len == 1 && nblock + 5 <= 4 * block.Length
      modifies this`nblock, this`blockCRC, this`runs, block, inUse
      ensures Gathered(block[..], inUse[..], nblock, blockCRC, runs) && blockCRC < WORD
      ensures runs == old(runs) + [Run(state_in_ch as Byte, 1)] && nblock == old(nblock) + 1 &&
        Plain(runs) == old(Taken())
    {
      var ch: Byte := state_in_ch as Byte;
      ghost var r := Run(ch, 1);
      ghost var b, u, c, n := block[..], inUse[..], blockCRC, nblock;
      hide Gathered, CrcByte, CrcFrom, AreRuns, MayFollow, Marks, HoldsAt, SameUpTo, Plain, Encode;
      PlainAppend(runs, r);
      PutSingle(ch);
      GatherRun(b, u, n, c, runs, r, block[..], inUse[..], blockCRC);
      runs := runs + [r];
    }

    method PutSingle(ch: Byte)
      requires blockCRC < WORD && inUse.Length == 256 && 0 <= nblock < 4 * block.Length
      modifies this`nblock, this`blockCRC, block, inUse
      ensures nblock == old(nblock) + |Pair(Run(ch, 1))| == old(nblock) + 1
      ensures SameUpTo(old(block[..]), block[..], old(nblock)) && HoldsAt(block[..], old(nblock), Pair(Run(ch, 1)))
      ensures forall v: Byte :: inUse[v] <==> old(inUse[v]) || v in Pair(Run(ch, 1))
      ensures blockCRC < WORD && blockCRC == CrcFrom(old(blockCRC), Copies(ch, 1))
    {
      hide CrcByte, CrcFrom;
      CrcOne(blockCRC, ch);
      assert Copies(ch, 1) == [ch] == Pair(Run(ch, 1));
      blockCRC := CrcByte(blockCRC, ch);
      inUse[ch] := true;
      PutByte(ch, nblock, []);
      assert [] + [ch] == Pair(Run(ch, 1));
    }
  }

  lemma {:induction false} NothingGathered(block: seq<int>, inUse: seq<bool>)
    requires |inUse| == 256 && forall i | 0 <= i < 256 :: !inUse[i]
    ensures Gathered(block, inUse, 0, CRC_START, [])
  {
  }
}
