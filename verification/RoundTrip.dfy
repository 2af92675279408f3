/** What the compressor has made, given to the decompressor in portions of any size: the input comes out again. */
module RoundTrip {
  import opened Bits
  import opened Rotations
  import opened BitStrings
  import opened BitReader
  import opened Lossless
  import opened BlockCoder
  import BzCompress
  import opened OutputSize
  import opened BzDecompress
  import opened StreamReading

  /** One call: how much more of the input it gets, and the room there is for output. */
  datatype Call = Call(input: nat, room: nat)

  /** The room in calls made when all the input, of this length, has been given. */
  function RoomWithAll(calls: seq<Call>, length: nat): nat {
    if calls == [] then 0
    else
      RoomWithAll(calls[..|calls| - 1], length) +
        if Given(calls, length) == length then calls[|calls| - 1].room else 0
  }

  /** How much of the input the calls have got. */
  function Given(calls: seq<Call>, length: nat): (n: nat)
    ensures n <= length
  {
    if calls == [] then 0
    else
      var n := Given(calls[..|calls| - 1], length) + calls[|calls| - 1].input;
      if n > length then length else n
  }

  /** While the compressor's output is being given, nothing can go wrong, and when all of it has been, nothing lacks. */
  lemma {:induction false} NothingWrong(c: BzCompress.Compressor, bytes: seq<Byte>, n: nat)
    requires c.Complete() && bytes == AsBytes(c.emitted) && n <= |bytes|
    ensures InputBits(bytes[..n]) + InputBits(bytes[n..]) == InputBits(bytes)
    ensures Decompressed(InputBits(bytes[..n]) + InputBits(bytes[n..])) == Bytes(c.consumed)
    ensures !NotBytes(InputBits(bytes[..n]))
    ensures n == |bytes| ==> Decompressed(InputBits(bytes[..n])) == Bytes(c.consumed)
  {
    hide Decompressed, InputBits, BzCompress.Compressor.Complete, AsBytes;
    CompressLossless(c);
    InputBitsAppend(bytes[..n], bytes[n..]);
    assert bytes[..n] + bytes[n..] == bytes;
    if n == |bytes| { assert bytes[..n] == bytes; }
  }

  /**
   * Whatever the portions and the rooms, in fast mode or small: what comes out is the beginning of what was compressed,
   * and all of it at the end. The end is reached once all the input has been given, and with it exactly enough room.
   */
  method Restore(c: BzCompress.Compressor, bytes: seq<Byte>, small: bool, calls: seq<Call>)
    returns (out: seq<Byte>, ended: bool)
    requires c.Complete() && bytes == AsBytes(c.emitted)
    ensures out <= c.consumed && (ended ==> out == c.consumed)
    ensures calls != [] && Given(calls, |bytes|) == |bytes| && RoomWithAll(calls, |bytes|) >= |c.consumed| ==> ended
  {
    hide Decompressed, InputBits, BzCompress.Compressor.Complete, AsBytes, NotBytes, Decompressor.Owns,
      Decompressor.Counted, Decompressor.Placed;
    var z := new Decompressor(small);
    out, ended := [], false;
    var given := 0;
    NoInput(bytes);
    for i := 0 to |calls|
      invariant z.Valid() && z.phase != Idle && fresh(z.Repr) && z.emitted == out
      invariant given == Given(calls[..i], |bytes|) && z.s.all == InputBits(bytes[..given])
      invariant out <= c.consumed && |out| >= RoomWithAll(calls[..i], |bytes|)
      invariant i > 0 && given == |bytes| ==> |out| < |c.consumed|
    {
      assert calls[..i + 1][..i] == calls[..i];
      var n := if given + calls[i].input > |bytes| then |bytes| - given else calls[i].input;
      InputBitsAppend(bytes[..given], bytes[given..given + n]);
      assert bytes[..given] + bytes[given..given + n] == bytes[..given + n];
      var ret, more := z.Decompress(bytes[given..given + n], calls[i].room);
      given, out := given + n, out + more;
      NothingWrong(c, bytes, given);
      z.PutOutIsPrefix(InputBits(bytes[given..]));
      if ret == StreamEnd {
        z.EndIsAll(InputBits(bytes[given..]));
        return out, true;
      }
      if given == |bytes| {
        assert InputBits(bytes[..given]) + [] == InputBits(bytes[..given]);
        z.MoreToCome([]);
      }
    }
    assert calls[..|calls|] == calls;
  }

  lemma {:induction false} NoInput(bytes: seq<Byte>)
    ensures InputBits(bytes[..0]) == []
  {
  }

  function Rooms(calls: seq<Call>): (rooms: seq<nat>)
    ensures |rooms| == |calls| && forall i | 0 <= i < |calls| :: rooms[i] == calls[i].room
  {
    seq(|calls|, i requires 0 <= i < |calls| => calls[i].room)
  }

  /** With all the input given in the first call, all room counts. */
  lemma {:induction false} AllAtOnce(calls: seq<Call>, length: nat)
    requires calls != [] && calls[0].input >= length
    ensures Given(calls, length) == length && RoomWithAll(calls, length) == Sum(Rooms(calls))
  {
    var k := |calls| - 1;
    assert Rooms(calls)[..k] == Rooms(calls[..k]);
    if k > 0 { AllAtOnce(calls[..k], length); }
  }

  /**
   * Compressed in calls to finish with any buffers, and decompressed again: nothing but the input comes out, and with
   * buffers large enough for any stream of so many bytes, and exactly enough room behind, all of it does.
   */
  method ThereAndBack(input: seq<Byte>, blockSize100k: int, workFactor: int, rooms: seq<nat>, small: bool,
    calls: seq<Call>)
    returns (out: seq<Byte>, ended: bool)
    requires 1 <= blockSize100k <= 9 && 0 <= workFactor <= 250 && forall i | 0 <= i < |rooms| :: rooms[i] > 0
    ensures out <= input && (ended ==> out == input)
    ensures var most := MostBytes(|input|, |input|);
      Sum(rooms) >= most && calls != [] && calls[0].input >= most && Sum(Rooms(calls)) >= |input| ==> ended
  {
    hide BzCompress.Compressor.Complete, BzCompress.Compressor.Valid, BzCompress.Compressor.AtRest, AsBytes;
    var c := BzCompress.CompressInit(blockSize100k, workFactor);
    SharedMemory(c);
    OwnObjects(c.coder);
    var finished := Finish(c, input, rooms);
    if !finished { return [], false; }
    CompleteBytes(c);
    EmittedBound(c);
    assert c.consumed == input;
    out, ended := Restore(c, AsBytes(c.emitted), small, calls);
    if calls != [] && calls[0].input >= |c.emitted| { AllAtOnce(calls, |c.emitted|); }
  }

  lemma {:induction false} SharedMemory(c: BzCompress.Compressor)
    requires c.Valid()
    ensures c.s.block == c.coder.arr2 && c.s.inUse == c.coder.inUse
  {
    hide BzCompress.Compressor.Accounts, BzCompress.Compressor.BitsKept, BzCompress.Compressor.InInput,
      BzCompress.Compressor.InOutput, Coder.Apart;
  }

  lemma {:induction false} OwnObjects(k: Coder)
    ensures {k.w, k.w.zbits, k.inUse, k.arr1, k.arr2, k.ftab, k.unseqToSeq, k.mtfFreq, k.selector, k.selectorMtf} <=
      k.Objects()
    ensures forall i | 0 <= i < |k.len| :: k.len[i] in k.Objects()
    ensures forall i | 0 <= i < |k.code| :: k.code[i] in k.Objects()
    ensures forall i | 0 <= i < |k.rfreq| :: k.rfreq[i] in k.Objects()
  {
  }

  lemma {:induction false} CompleteBytes(c: BzCompress.Compressor)
    requires c.Complete()
    ensures forall i | 0 <= i < |c.emitted| :: 0 <= c.emitted[i] < 256
  {
  }
}
