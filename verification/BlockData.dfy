/**
 * The data of a compressed block: symbols in groups of 50, each group coded with its selected table, and what the
 * decoder makes of them.
 */
module BlockData {
  import opened Bits
  import opened Rotations
  import opened BitStrings
  import opened MoveToFront
  import opened HuffmanCodes
  import opened HuffmanTables

  const GROUP_SIZE := 50
  const RUN_LIMIT := 2 * 1024 * 1024

  // ---- symbols and bits

  /** Symbols k and on, each in the code its group's selector names. */
  function DataBits(lens: seq<seq<Byte>>, sel: seq<int>, syms: seq<int>, k: nat): seq<bool>
    requires k <= |syms| && CanCode(lens, sel, syms)
    decreases |syms| - k
  {
    if k == |syms| then [] else
      assert InGroup(lens, sel, syms, k);
      CodeBits(lens[sel[k / GROUP_SIZE]], syms[k]) + DataBits(lens, sel, syms, k + 1)
  }

  ghost predicate InGroup(lens: seq<seq<Byte>>, sel: seq<int>, syms: seq<int>, k: nat)
    requires k < |syms|
  {
    k / GROUP_SIZE < |sel| && 0 <= sel[k / GROUP_SIZE] < |lens| && 0 <= syms[k] < |lens[sel[k / GROUP_SIZE]]|
  }

  /** Every symbol has a selector, and a code in the table selected. */
  ghost predicate CanCode(lens: seq<seq<Byte>>, sel: seq<int>, syms: seq<int>) {
    forall k | 0 <= k < |syms| :: InGroup(lens, sel, syms, k)
  }

  // ---- what the symbols stand for

  /**
   * The decoder between two symbols: output so far, list, and the length (less 1) and next weight of the run being
   * read.
   */
  datatype Unpacking = Unpacking(out: seq<Byte>, list: seq<int>, es: int, weight: int)

  datatype Stepped = Going(state: Unpacking) | Ended(out: seq<Byte>) | Failed

  ghost predicate IsList(list: seq<int>) {
    |list| == 256 && forall i | 0 <= i < 256 :: 0 <= list[i] < 256
  }

  ghost predicate Ready(s: Unpacking, most: int) {
    IsList(s.list) && |s.out| <= most && s.es >= -1 && s.weight >= 0
  }

  /** weight 0 means that no run has begun. */
  function Opened(s: Unpacking): Unpacking {
    if s.weight == 0 then s.(es := -1, weight := 1) else s
  }

  function Repeat(c: Byte, n: nat): (r: seq<Byte>)
    ensures |r| == n
  {
    seq(n, i => c)
  }

  /** The output with the run read written out. */
  function Closed(s: Unpacking, unseq: seq<Byte>): seq<Byte>
    requires IsList(s.list) && |unseq| == 256 && s.es >= -1
  {
    if s.weight == 0 then s.out else s.out + Repeat(unseq[s.list[0]], s.es + 1)
  }

  /** One symbol of the block. */
  function Step(s: Unpacking, sym: int, eob: int, most: int, unseq: seq<Byte>): (r: Stepped)
    requires Ready(s, most) && |unseq| == 256 && 0 <= sym <= eob <= 257
    ensures r.Going? ==> Ready(r.state, most)
  {
    if sym == RUNA || sym == RUNB then
      var o := Opened(s);
      if o.weight >= RUN_LIMIT then Failed
      else
        assert (sym + 1) * o.weight >= 0;
        Going(Unpacking(o.out, o.list, o.es + (sym + 1) * o.weight, 2 * o.weight))
    else
      var out := Closed(s, unseq);
      if |out| > most then Failed
      else if sym == eob then Ended(out)
      else if |out| >= most then Failed
      else
        StaysList(s.list, sym - 1);
        Going(Unpacking(out + [unseq[s.list[sym - 1]]], ToFront(s.list, sym - 1), 0, 0))
  }

  lemma {:induction false} StaysList(list: seq<int>, j: nat)
    requires IsList(list) && j < 256
    ensures IsList(ToFront(list, j))
  {
    var r := ToFront(list, j);
    forall k | 0 <= k < 256
      ensures 0 <= r[k] < 256
    {
      assert r[k] == list[if k == 0 then j else if k <= j then k - 1 else k];
    }
  }

  /** All symbols of a block, the end of block exactly at the end. */
  function Unpack(s: Unpacking, syms: seq<int>, eob: int, most: int, unseq: seq<Byte>): Stepped
    requires Ready(s, most) && |unseq| == 256 && eob <= 257 && forall k | 0 <= k < |syms| :: 0 <= syms[k] <= eob
    decreases |syms|
  {
    if syms == [] then Failed
    else
      match Step(s, syms[0], eob, most, unseq)
      case Failed => Failed
      case Ended(out) => if |syms| == 1 then Ended(out) else Failed
      case Going(s') => Unpack(s', syms[1..], eob, most, unseq)
  }

  /** The decoder once it has read the symbols of z more zeros. */
  function AfterRun(s: Unpacking, z: nat): Unpacking {
    Unpacking(s.out, s.list, s.es + z * s.weight, s.weight * Pow2(|RunSymbols(z)|))
  }

  /** The guard against long runs will not fire. */
  ghost predicate RunFits(s: Unpacking, z: nat) {
    s.weight > 0 && s.weight * Pow2(|RunSymbols(z)|) < 2 * RUN_LIMIT
  }

  function InRun(s: Unpacking, sym: int): Unpacking {
    Unpacking(s.out, s.list, s.es + (sym + 1) * s.weight, 2 * s.weight)
  }

  lemma {:induction false} RunStep(s: Unpacking, z: nat, eob: int, most: int, unseq: seq<Byte>)
    requires z > 0 && RunFits(s, z) && Ready(s, most) && |unseq| == 256 && 2 <= eob <= 257
    ensures var s', h := InRun(s, RunSymbols(z)[0]), (z - 1) / 2;
      && Ready(s', most) && Step(s, RunSymbols(z)[0], eob, most, unseq) == Going(s')
      && AfterRun(s', h) == AfterRun(s, z) && RunFits(s', h)
  {
    var sym, h := RunSymbols(z)[0], (z - 1) / 2;
    var n, w := |RunSymbols(h)|, s.weight;
    assert |RunSymbols(z)| == n + 1 && Pow2(n + 1) == 2 * Pow2(n) && z == 2 * h + sym + 1;
    RunNumbers(w, Pow2(n), h, sym + 1);
  }

  lemma {:induction false} RunNumbers(w: nat, p: nat, h: nat, d: nat)
    requires w * (2 * p) < 2 * RUN_LIMIT && p > 0
    ensures w < RUN_LIMIT && (2 * w) * p == w * (2 * p) && d * w + h * (2 * w) == (2 * h + d) * w && d * w >= 0
  {
    TwiceProduct(w, p);
    MulLe(1, p, w);
    Distribute(h, 2, d, w);
  }

  lemma {:induction false} UnpackStep(s: Unpacking, syms: seq<int>, eob: int, most: int, unseq: seq<Byte>,
    s': Unpacking)
    requires Ready(s, most) && |unseq| == 256 && eob <= 257 && forall k | 0 <= k < |syms| :: 0 <= syms[k] <= eob
    requires syms != [] && Step(s, syms[0], eob, most, unseq) == Going(s')
    ensures Ready(s', most) && Unpack(s, syms, eob, most, unseq) == Unpack(s', syms[1..], eob, most, unseq)
  {
  }

  lemma {:induction false} AfterNone(s: Unpacking)
    ensures AfterRun(s, 0) == s
  {
    assert Pow2(0) == 1;
  }

  /** Reading a run: afterwards es + 1 is its length. */
  lemma {:induction false} UnpackRun(s: Unpacking, z: nat, more: seq<int>, eob: int, most: int, unseq: seq<Byte>)
    requires Ready(s, most) && |unseq| == 256 && 2 <= eob <= 257 && forall i | 0 <= i < |more| :: 0 <= more[i] <= eob
    requires RunFits(s, z)
    ensures Ready(AfterRun(s, z), most)
    ensures Unpack(s, RunSymbols(z) + more, eob, most, unseq) == Unpack(AfterRun(s, z), more, eob, most, unseq)
    decreases z
  {
    hide Unpack, Ready, AfterRun, RunFits, Step, InRun;
    if z == 0 {
      assert RunSymbols(0) + more == more;
      AfterNone(s);
    } else {
      var sym, h := RunSymbols(z)[0], (z - 1) / 2;
      var syms := RunSymbols(z) + more;
      assert syms[0] == sym && syms[1..] == RunSymbols(h) + more;
      RunStep(s, z, eob, most, unseq);
      UnpackStep(s, syms, eob, most, unseq, InRun(s, sym));
      UnpackRun(InRun(s, sym), h, more, eob, most, unseq);
    }
  }

  lemma {:induction false} StreamRange(js: seq<int>, z: nat, eob: int)
    requires eob >= 1 && forall i | 0 <= i < |js| :: 0 <= js[i] < eob - 1
    ensures forall k | 0 <= k < |SymbolStream(js, z, eob)| :: 0 <= SymbolStream(js, z, eob)[k] <= eob
    decreases |js|
  {
    if js != [] {
      StreamRange(js[1..], if js[0] == 0 then z + 1 else 0, eob);
    }
  }

  /** The decoder once it has read a pending run of z zeros. */
  function Pending(s: Unpacking, z: nat): Unpacking {
    if z == 0 then s else AfterRun(Opened(s), z)
  }

  lemma {:induction false} UnpackPending(s: Unpacking, z: nat, more: seq<int>, eob: int, most: int, unseq: seq<Byte>)
    requires Ready(s, most) && |unseq| == 256 && 2 <= eob <= 257 && forall i | 0 <= i < |more| :: 0 <= more[i] <= eob
    requires s.weight == 0 && z + 1 < Pow2(20)
    ensures Ready(Pending(s, z), most) && Closed(Pending(s, z), unseq) == s.out + Repeat(unseq[s.list[0]], z)
    ensures Unpack(s, RunSymbols(z) + more, eob, most, unseq) == Unpack(Pending(s, z), more, eob, most, unseq)
  {
    if z == 0 {
      assert RunSymbols(0) + more == more && s.out + Repeat(unseq[s.list[0]], 0) == s.out;
    } else {
      RunSymbolsShort(z, 20);
      RunWeight(|RunSymbols(z)|);
      UnpackRun(Opened(s), z, more, eob, most, unseq);
      var syms := RunSymbols(z) + more;
      assert Step(s, syms[0], eob, most, unseq) == Step(Opened(s), syms[0], eob, most, unseq);
      assert Opened(s).weight == 1 && AfterRun(Opened(s), z).es == -1 + z;
    }
  }

  lemma {:induction false} RunWeight(n: nat)
    requires n < 20
    ensures 1 * Pow2(n) < 2 * RUN_LIMIT
  {
    Pow2Mono(n, 19);
    Pow2Sum(16, 3);
    Pow2Values();
    assert Pow2(3) == 8;
  }

  /** Symbol numbers as bytes. */
  function Mapped(l: seq<int>, unseq: seq<Byte>): (r: seq<Byte>)
    requires |unseq| == 256 && forall i | 0 <= i < |l| :: 0 <= l[i] < 256
    ensures |r| == |l|
  {
    seq(|l|, i requires 0 <= i < |l| => unseq[l[i]])
  }

  lemma {:induction false} SymbolsAreBytes(list: seq<int>, js: seq<int>)
    requires IsList(list) && forall i | 0 <= i < |js| :: 0 <= js[i] < 256
    ensures forall i | 0 <= i < |js| :: 0 <= Symbols(list, js)[i] < 256
    decreases |js|
  {
    if js != [] {
      StaysList(list, js[0]);
      SymbolsAreBytes(ToFront(list, js[0]), js[1..]);
    }
  }

  lemma {:induction false} MappedCons(x: int, l: seq<int>, unseq: seq<Byte>)
    requires |unseq| == 256 && 0 <= x < 256 && forall i | 0 <= i < |l| :: 0 <= l[i] < 256
    ensures forall i | 0 <= i < |[x] + l| :: 0 <= ([x] + l)[i] < 256
    ensures Mapped([x] + l, unseq) == [unseq[x]] + Mapped(l, unseq)
  {
  }

  /** What the decoder should make of list indices js behind z pending zeros. */
  function Unpacked(s: Unpacking, js: seq<int>, z: nat, unseq: seq<Byte>): seq<Byte>
    requires IsList(s.list) && |unseq| == 256 && forall i | 0 <= i < |js| :: 0 <= js[i] < 256
  {
    SymbolsAreBytes(s.list, js);
    s.out + Repeat(unseq[s.list[0]], z) + Mapped(Symbols(s.list, js), unseq)
  }

  lemma {:induction false} UnpackedZero(s: Unpacking, js: seq<int>, z: nat, unseq: seq<Byte>)
    requires IsList(s.list) && |unseq| == 256 && js != [] && js[0] == 0 && forall i | 0 <= i < |js| :: 0 <= js[i] < 256
    ensures Unpacked(s, js, z, unseq) == Unpacked(s, js[1..], z + 1, unseq)
  {
    var c := unseq[s.list[0]];
    assert ToFront(s.list, 0) == s.list;
    SymbolsAreBytes(s.list, js);
    SymbolsAreBytes(s.list, js[1..]);
    MappedCons(s.list[0], Symbols(s.list, js[1..]), unseq);
    assert Repeat(c, z + 1) == Repeat(c, z) + [c];
  }

  lemma {:induction false} UnpackedSymbol(s: Unpacking, js: seq<int>, z: nat, unseq: seq<Byte>, s': Unpacking)
    requires IsList(s.list) && |unseq| == 256 && js != [] && forall i | 0 <= i < |js| :: 0 <= js[i] < 256
    requires s'.list == ToFront(s.list, js[0]) && s'.out == s.out + Repeat(unseq[s.list[0]], z) + [unseq[s.list[js[0]]]]
    ensures IsList(s'.list) && Unpacked(s, js, z, unseq) == Unpacked(s', js[1..], 0, unseq)
  {
    StaysList(s.list, js[0]);
    SymbolsAreBytes(s.list, js);
    SymbolsAreBytes(s'.list, js[1..]);
    MappedCons(s.list[js[0]], Symbols(s'.list, js[1..]), unseq);
    assert Repeat(unseq[s'.list[0]], 0) == [];
  }

  /** Unpacking the encoder's symbols gives the list members at the indices, moved to the front as they are met. */
  lemma {:induction false} StreamUnpacks(s: Unpacking, js: seq<int>, z: nat, eob: int, most: int, unseq: seq<Byte>)
    requires Ready(s, most) && |unseq| == 256 && 2 <= eob <= 257 && s.weight == 0
    requires forall i | 0 <= i < |js| :: 0 <= js[i] < eob - 1
    requires |s.out| + z + |js| <= most && most + 1 < Pow2(20)
    ensures forall k | 0 <= k < |SymbolStream(js, z, eob)| :: 0 <= SymbolStream(js, z, eob)[k] <= eob
    ensures Unpack(s, SymbolStream(js, z, eob), eob, most, unseq) == Ended(Unpacked(s, js, z, unseq))
    decreases |js|
  {
    hide Step, IsList, Pow2;
    StreamRange(js, z, eob);
    if js == [] {
      UnpackEnd(s, z, eob, most, unseq);
    } else if js[0] == 0 {
      UnpackedZero(s, js, z, unseq);
      StreamUnpacks(s, js[1..], z + 1, eob, most, unseq);
    } else {
      var s' := UnpackOne(s, js, z, eob, most, unseq);
      UnpackedSymbol(s, js, z, unseq, s');
      StreamUnpacks(s', js[1..], 0, eob, most, unseq);
    }
  }

  lemma {:induction false} UnpackEnd(s: Unpacking, z: nat, eob: int, most: int, unseq: seq<Byte>)
    requires Ready(s, most) && |unseq| == 256 && 2 <= eob <= 257 && s.weight == 0
    requires |s.out| + z <= most && most + 1 < Pow2(20)
    ensures forall k | 0 <= k < |SymbolStream([], z, eob)| :: 0 <= SymbolStream([], z, eob)[k] <= eob
    ensures Unpack(s, SymbolStream([], z, eob), eob, most, unseq) == Ended(Unpacked(s, [], z, unseq))
  {
    UnpackPending(s, z, [eob], eob, most, unseq);
    assert Mapped([], unseq) == [];
  }

  lemma {:induction false} StreamSplits(js: seq<int>, z: nat, eob: int)
    requires js != [] && js[0] != 0
    ensures SymbolStream(js, z, eob) == RunSymbols(z) + ([js[0] + 1] + SymbolStream(js[1..], 0, eob))
  {
    hide RunSymbols;
  }

  /** A symbol that is no part of a run: the run before it is put out, and then its byte. */
  lemma {:induction false} SymbolTaken(s: Unpacking, p: Unpacking, z: nat, j: int, eob: int, most: int,
    unseq: seq<Byte>)
    returns (s': Unpacking)
    requires Ready(s, most) && Ready(p, most) && |unseq| == 256 && 2 <= eob <= 257 && p == Pending(s, z)
    requires 0 < j < eob - 1 && |s.out| + z + 1 <= most && Closed(p, unseq) == s.out + Repeat(unseq[s.list[0]], z)
    ensures Ready(s', most) && s'.weight == 0 && |s'.out| == |s.out| + z + 1
    ensures s'.list == ToFront(s.list, j) && s'.out == s.out + Repeat(unseq[s.list[0]], z) + [unseq[s.list[j]]]
    ensures Step(p, j + 1, eob, most, unseq) == Going(s')
  {
    hide RunSymbols, ToFront, Closed, Repeat;
    assert p.list == s.list;
    StaysList(s.list, j);
    s' := Unpacking(Closed(p, unseq) + [unseq[p.list[j]]], ToFront(p.list, j), 0, 0);
  }

  lemma {:induction false} UnpackOne(s: Unpacking, js: seq<int>, z: nat, eob: int, most: int, unseq: seq<Byte>)
    returns (s': Unpacking)
    requires Ready(s, most) && |unseq| == 256 && 2 <= eob <= 257 && s.weight == 0
    requires js != [] && js[0] != 0 && forall i | 0 <= i < |js| :: 0 <= js[i] < eob - 1
    requires |s.out| + z + |js| <= most && most + 1 < Pow2(20)
    ensures Ready(s', most) && s'.weight == 0 && |s'.out| == |s.out| + z + 1
    ensures s'.list == ToFront(s.list, js[0]) && s'.out == s.out + Repeat(unseq[s.list[0]], z) + [unseq[s.list[js[0]]]]
    ensures forall k | 0 <= k < |SymbolStream(js, z, eob)| :: 0 <= SymbolStream(js, z, eob)[k] <= eob
    ensures forall k | 0 <= k < |SymbolStream(js[1..], 0, eob)| :: 0 <= SymbolStream(js[1..], 0, eob)[k] <= eob
    ensures Unpack(s, SymbolStream(js, z, eob), eob, most, unseq) ==
      Unpack(s', SymbolStream(js[1..], 0, eob), eob, most, unseq)
  {
    hide Step, Unpack, Pending, Closed, Ready, RunSymbols, ToFront, SymbolStream;
    StreamRange(js, z, eob);
    StreamRange(js[1..], 0, eob);
    var rest := SymbolStream(js[1..], 0, eob);
    var more := [js[0] + 1] + rest;
    StreamSplits(js, z, eob);
    UnpackPending(s, z, more, eob, most, unseq);
    var p := Pending(s, z);
    s' := SymbolTaken(s, p, z, js[0], eob, most, unseq);
    assert more[1..] == rest;
    UnpackStep(p, more, eob, most, unseq, s');
  }

  // ---- from bits

  /** n symbols in the alphabet, a length for each in every table, every selector naming a table. */
  ghost predicate GoodTables(lens: seq<seq<Byte>>, sel: seq<int>, n: int) {
    && 1 <= n <= MAX_ALPHA_SIZE
    && (forall t | 0 <= t < |lens| :: |lens[t]| == n && IsLengths(lens[t]))
    && (forall i | 0 <= i < |sel| :: 0 <= sel[i] < |lens|)
  }

  /** GET_MTF_VAL for symbol k: every 50 symbols the next selector, as long as there is one. */
  ghost function NextSymbol(lens: seq<seq<Byte>>, sel: seq<int>, n: int, k: nat, bits: seq<bool>): (r: Parse<int>)
    requires GoodTables(lens, sel, n)
    ensures r.Done? ==> |r.rest| <= |bits|
    ensures r.Done? ==> 0 <= r.value < n && k / GROUP_SIZE < |sel|
  {
    if k / GROUP_SIZE >= |sel| then Bad else SymbolOf(lens[sel[k / GROUP_SIZE]], bits)
  }

  /** The block's bytes in transmitted order, from symbol k on. */
  ghost function DecodeData(lens: seq<seq<Byte>>, sel: seq<int>, eob: int, most: int, unseq: seq<Byte>, s: Unpacking,
    k: nat, bits: seq<bool>): (r: Parse<seq<Byte>>)
    requires GoodTables(lens, sel, eob + 1) && Ready(s, most) && |unseq| == 256
    ensures r.Done? ==> |r.rest| <= |bits|
    decreases GROUP_SIZE * |sel| - k
  {
    var (sym, rest) :- NextSymbol(lens, sel, eob + 1, k, bits);
    match Step(s, sym, eob, most, unseq)
    case Failed => Bad
    case Ended(out) => Done(out, rest)
    case Going(s') => DecodeData(lens, sel, eob, most, unseq, s', k + 1, rest)
  }

  lemma {:induction false} NextWritten(lens: seq<seq<Byte>>, sel: seq<int>, syms: seq<int>, n: int, k: nat,
    rest: seq<bool>)
    requires GoodTables(lens, sel, n) && CanCode(lens, sel, syms) && k < |syms|
    requires forall t | 0 <= t < |lens| :: HasRoom(lens[t])
    ensures NextSymbol(lens, sel, n, k, DataBits(lens, sel, syms, k) + rest) ==
      Done(syms[k], DataBits(lens, sel, syms, k + 1) + rest)
  {
    assert InGroup(lens, sel, syms, k);
    hide HasRoom, IsLengths, SymbolOf, CodeBits;
    var len := lens[sel[k / GROUP_SIZE]];
    var more := DataBits(lens, sel, syms, k + 1) + rest;
    assert DataBits(lens, sel, syms, k) + rest == CodeBits(len, syms[k]) + more;
    SymbolOfCode(len, syms[k], more);
  }

  /** Decoding the bits of a block's symbols amounts to unpacking the symbols. */
  lemma {:induction false} DataUnpacks(lens: seq<seq<Byte>>, sel: seq<int>, syms: seq<int>, eob: int, most: int,
    unseq: seq<Byte>, s: Unpacking, k: nat, out: seq<Byte>, rest: seq<bool>)
    requires GoodTables(lens, sel, eob + 1) && Ready(s, most) && |unseq| == 256
    requires CanCode(lens, sel, syms) && k <= |syms| && forall t | 0 <= t < |lens| :: HasRoom(lens[t])
    requires forall i | 0 <= i < |syms| :: 0 <= syms[i] <= eob
    requires Unpack(s, syms[k..], eob, most, unseq) == Ended(out)
    ensures DecodeData(lens, sel, eob, most, unseq, s, k, DataBits(lens, sel, syms, k) + rest) == Done(out, rest)
    decreases |syms| - k
  {
    assert eob <= 257;
    hide NextSymbol, Step, HasRoom, CanCode, GoodTables, Ready, DataBits;
    assert k < |syms|;
    NextWritten(lens, sel, syms, eob + 1, k, rest);
    assert syms[k..][1..] == syms[k + 1..];
    var r := Step(s, syms[k], eob, most, unseq);
    if r.Ended? {
      assert k + 1 == |syms|;
      NoMoreBits(lens, sel, syms);
      assert DataBits(lens, sel, syms, k + 1) + rest == rest;
    } else {
      DataUnpacks(lens, sel, syms, eob, most, unseq, r.state, k + 1, out, rest);
    }
  }

  lemma {:induction false} NoMoreBits(lens: seq<seq<Byte>>, sel: seq<int>, syms: seq<int>)
    requires CanCode(lens, sel, syms)
    ensures DataBits(lens, sel, syms, |syms|) == []
  {
  }
}
