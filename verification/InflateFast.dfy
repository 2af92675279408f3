/**
 * inflate_fast: literals and matches, decoded straight from the input, until the block ends, the data turn out invalid,
 * or too little input or room is left for the loop to go on without checking. RFC 1951.
 */
module InflateFast {
  import opened Bits
  import opened Rotations
  import opened InflateBits
  import opened InflateCodes
  import opened InflateCopy

  // ---- the bit buffer

  /** Moves the next byte of input into the bit buffer, above the bits held. */
  method TakeByte(s: seq<Byte>, hold: nat, bits: nat, nin: nat, ghost hold0: nat, ghost bits0: nat, ghost c: nat)
    returns (hold': nat, bits': nat, nin': nat)
    requires Holds(hold0, bits0, s, c, hold, bits, nin) && nin < |s|
    ensures Holds(hold0, bits0, s, c, hold', bits', nin') && bits' == bits + 8 && nin' == nin + 1
  {
    hide Holds;
    TakenIn(hold0, bits0, s, c, hold, bits, nin);
    hold', bits', nin' := hold + s[nin] * Pow2(bits), bits + 8, nin + 1;
  }

  /** Two bytes, if there are fewer than 15 bits. */
  method Fill(s: seq<Byte>, hold: nat, bits: nat, nin: nat, ghost hold0: nat, ghost bits0: nat, ghost c: nat)
    returns (hold': nat, bits': nat, nin': nat)
    requires Holds(hold0, bits0, s, c, hold, bits, nin) && (bits < 15 ==> nin + 2 <= |s|)
    ensures Holds(hold0, bits0, s, c, hold', bits', nin') && bits' >= 15
    ensures if bits < 15 then bits' == bits + 16 && nin' == nin + 2 else bits' == bits && nin' == nin
  {
    hide Holds;
    hold', bits', nin' := hold, bits, nin;
    if bits < 15 {
      hold', bits', nin' := TakeByte(s, hold', bits', nin', hold0, bits0, c);
      hold', bits', nin' := TakeByte(s, hold', bits', nin', hold0, bits0, c);
    }
  }

  /** A code from one of the tables. */
  method GetCode(t: seq<Code>, root: nat, lengths: bool, hold: nat, bits: nat, ghost s: seq<Byte>, ghost nin: nat,
    ghost hold0: nat, ghost bits0: nat, ghost c: nat)
    returns (here: Code, hold': nat, bits': nat, ghost used: nat)
    requires Holds(hold0, bits0, s, c, hold, bits, nin) && bits >= 15 && GoodTable(t, root, lengths)
    ensures (here, used) == Lookup(t, root, lengths, Left(hold0, bits0, s, c)) && used <= 15 && GoodLeaf(here, lengths)
    ensures bits' == bits - used && Holds(hold0, bits0, s, c + used, hold', bits', nin)
    ensures Left(hold0, bits0, s, c + used) == Quo(Left(hold0, bits0, s, c), used)
  {
    hide Holds, Left, Quo, Rem, Pow2;
    ghost var x := Left(hold0, bits0, s, c);
    Parts(x, root);
    Used(hold0, bits0, s, c, hold, bits, nin, root);
    here := t[Rem(hold, root)];
    EntryFits(t, root, lengths, Rem(hold, root));
    Used(hold0, bits0, s, c, hold, bits, nin, here.bits);
    hold', bits', used := Quo(hold, here.bits), bits - here.bits, here.bits;
    if IsLink(here, lengths) {
      ghost var first := here.bits;
      Parts(Left(hold0, bits0, s, c + first), here.op);
      Used(hold0, bits0, s, c + first, hold', bits', nin, here.op);
      here := t[here.val + Rem(hold', here.op)];
      Used(hold0, bits0, s, c + first, hold', bits', nin, here.bits);
      hold', bits', used := Quo(hold', here.bits), bits' - here.bits, first + here.bits;
      LowBits(x, first, here.bits);
    }
  }

  lemma {:induction false} EntryFits(t: seq<Code>, root: nat, lengths: bool, i: nat)
    requires GoodTable(t, root, lengths) && i < Pow2(root)
    ensures GoodEntry(t, t[i], lengths)
  {
  }

  /** n extra bits. */
  method GetExtra(n: nat, hold: nat, bits: nat, ghost s: seq<Byte>, ghost nin: nat, ghost hold0: nat, ghost bits0: nat,
    ghost c: nat)
    returns (v: nat, hold': nat, bits': nat)
    requires Holds(hold0, bits0, s, c, hold, bits, nin) && n <= bits
    ensures v == Rem(Left(hold0, bits0, s, c), n) && bits' == bits - n &&
      Holds(hold0, bits0, s, c + n, hold', bits', nin)
    ensures Left(hold0, bits0, s, c + n) == Quo(Left(hold0, bits0, s, c), n)
  {
    hide Holds, Left, Quo, Rem;
    Used(hold0, bits0, s, c, hold, bits, nin, n);
    v, hold', bits' := Rem(hold, n), Quo(hold, n), bits - n;
  }

  /** A length's extra bits, with a byte more if they need it. */
  method LengthExtra(n: nat, s: seq<Byte>, hold: nat, bits: nat, nin: nat, ghost hold0: nat, ghost bits0: nat,
    ghost c: nat)
    returns (v: nat, hold': nat, bits': nat, nin': nat)
    requires Holds(hold0, bits0, s, c, hold, bits, nin) && n <= 8 && (bits < n ==> nin < |s|)
    ensures v == Rem(Left(hold0, bits0, s, c), n) && Holds(hold0, bits0, s, c + n, hold', bits', nin')
    ensures Left(hold0, bits0, s, c + n) == Quo(Left(hold0, bits0, s, c), n)
    ensures if bits < n then bits' == bits + 8 - n && nin' == nin + 1 else bits' == bits - n && nin' == nin
  {
    hide Holds, Left, Quo, Rem;
    hold', bits', nin' := hold, bits, nin;
    if n > 0 {
      if bits < n { hold', bits', nin' := TakeByte(s, hold, bits, nin, hold0, bits0, c); }
      v, hold', bits' := GetExtra(n, hold', bits', s, nin', hold0, bits0, c);
    } else {
      NoBits(Left(hold0, bits0, s, c));
      v := 0;
    }
  }

  /** A distance's extra bits, with up to two bytes more. */
  method DistanceExtra(n: nat, s: seq<Byte>, hold: nat, bits: nat, nin: nat, ghost hold0: nat, ghost bits0: nat,
    ghost c: nat)
    returns (v: nat, hold': nat, bits': nat, nin': nat)
    requires Holds(hold0, bits0, s, c, hold, bits, nin) && n <= 16 && (bits < n ==> nin < |s|) &&
      (bits + 8 < n ==> nin + 1 < |s|)
    ensures v == Rem(Left(hold0, bits0, s, c), n) && Holds(hold0, bits0, s, c + n, hold', bits', nin')
    ensures Left(hold0, bits0, s, c + n) == Quo(Left(hold0, bits0, s, c), n)
    ensures nin' == nin + (if bits < n then 1 else 0) + (if bits + 8 < n then 1 else 0) &&
      bits' == bits + 8 * (nin' - nin) - n
  {
    hide Holds, Left, Quo, Rem;
    hold', bits', nin' := hold, bits, nin;
    if bits' < n {
      hold', bits', nin' := TakeByte(s, hold', bits', nin', hold0, bits0, c);
      if bits' < n {
        hold', bits', nin' := TakeByte(s, hold', bits', nin', hold0, bits0, c);
      }
    }
    v, hold', bits' := GetExtra(n, hold', bits', s, nin', hold0, bits0, c);
  }

  // ---- one pass

  /** The tables of the block. */
  datatype Tables = Tables(lt: seq<Code>, lroot: nat, dt: seq<Code>, droot: nat)

  predicate GoodTables(t: Tables) {
    GoodTable(t.lt, t.lroot, true) && GoodTable(t.dt, t.droot, false)
  }

  /** The decoding of one pass: six bytes of input are always enough, and 30 bits of the buffer. */
  method DecodeItem(t: Tables, s: seq<Byte>, hold: nat, bits: nat, nin: nat, ghost hold0: nat, ghost bits0: nat,
    ghost c: nat)
    returns (item: Item, hold': nat, bits': nat, nin': nat, ghost used: nat)
    requires GoodTables(t) && Holds(hold0, bits0, s, c, hold, bits, nin) && nin + 6 <= |s|
    ensures (item, used) == Decode(t.lt, t.lroot, t.dt, t.droot, Left(hold0, bits0, s, c))
    ensures Holds(hold0, bits0, s, c + used, hold', bits', nin') && nin <= nin' <= nin + 6 &&
      (bits <= 30 ==> bits' <= 30)
  {
    hide Holds, Left, Quo, Rem, Lookup, GoodTable;
    var here;
    hold', bits', nin' := Fill(s, hold, bits, nin, hold0, bits0, c);
    here, hold', bits', used := GetCode(t.lt, t.lroot, true, hold', bits', s, nin', hold0, bits0, c);
    if here.op == 0 {
      item := Literal(here.val);
    } else if IsBase(here.op) {
      var len, dist, valid;
      ghost var more;
      len, dist, valid, hold', bits', nin',
        more := DecodeMatch(t, here, s, hold', bits', nin', nin, hold0, bits0, c + used);
      item := if valid then Match(len, dist) else Invalid;
      used := used + more;
    } else {
      item := if IsEnd(here.op) then EndOfBlock else Invalid;
    }
  }

  /** The rest of a match behind its length code: extra bits, distance code, extra bits. */
  method DecodeMatch(t: Tables, e: Code, s: seq<Byte>, hold: nat, bits: nat, nin: nat, ghost start: nat,
    ghost hold0: nat, ghost bits0: nat, ghost c: nat)
    returns (len: nat, dist: nat, valid: bool, hold': nat, bits': nat, nin': nat, ghost used: nat)
    requires GoodTables(t) && GoodLeaf(e, true) && IsBase(e.op) && e.op != 0 &&
      Holds(hold0, bits0, s, c, hold, bits, nin)
    requires start <= nin && start + 6 <= |s| && (nin == start || (nin == start + 2 && bits >= 1))
    ensures var x1 := Left(hold0, bits0, s, c);
      var (d, v) := Lookup(t.dt, t.droot, false, Quo(x1, Extra(e.op)));
      && len == e.val + Rem(x1, Extra(e.op)) && valid == IsBase(d.op)
      && (valid ==> dist == d.val + Rem(Quo(Quo(x1, Extra(e.op)), v), Extra(d.op)))
      && used == Extra(e.op) + v + (if valid then Extra(d.op) else 0)
    ensures Holds(hold0, bits0, s, c + used, hold', bits', nin') && nin <= nin' <= start + 6 &&
      (bits <= 30 ==> bits' <= 30)
  {
    hide Holds, Left, Quo, Rem, Lookup, GoodTable;
    var v, d;
    ghost var u;
    v, hold', bits', nin' := LengthExtra(Extra(e.op), s, hold, bits, nin, hold0, bits0, c);
    len := e.val + v;
    used := Extra(e.op);
    hold', bits', nin' := Fill(s, hold', bits', nin', hold0, bits0, c + used);
    d, hold', bits', u := GetCode(t.dt, t.droot, false, hold', bits', s, nin', hold0, bits0, c + used);
    used := used + u;
    valid := IsBase(d.op);
    dist := 0;
    if valid {
      v, hold', bits', nin' := DistanceExtra(Extra(d.op), s, hold', bits', nin', hold0, bits0, c + used);
      dist := d.val + v;
      used := used + Extra(d.op);
    }
  }

  // ---- the loop

  datatype Mode = Len | Type | Bad

  /** How many bits have been used, the history, and whether the block goes on. */
  datatype State = State(c: nat, h: seq<int>, mode: Mode)

  /** What a pass does. */
  ghost function Passed(t: Tables, hold0: nat, bits0: nat, s: seq<Byte>, x: State): State
    requires GoodTables(t)
  {
    if x.mode != Len then x
    else
      var (item, used) := Decode(t.lt, t.lroot, t.dt, t.droot, Left(hold0, bits0, s, x.c));
      match item
      case Literal(b) => State(x.c + used, x.h + [b], Len)
      case Match(len, dist) =>
        if dist > |x.h| then State(x.c + used, x.h, Bad) else State(x.c + used, Extended(x.h, dist, len), Len)
      case EndOfBlock => State(x.c + used, x.h, Type)
      case Invalid => State(x.c + used, x.h, Bad)
  }

  ghost function Passes(t: Tables, hold0: nat, bits0: nat, s: seq<Byte>, x: State, n: nat): State
    requires GoodTables(t)
  {
    if n == 0 then x else Passed(t, hold0, bits0, s, Passes(t, hold0, bits0, s, x, n - 1))
  }

  /** Puts out what a pass decoded. */
  method Act(item: Item, window: array<int>, wsize: int, whave: int, wnext: int, out: array<int>, beg: int, o: int,
    ghost t: Tables, ghost hold0: nat, ghost bits0: nat, ghost s: seq<Byte>, ghost c: nat, ghost used: nat)
    returns (o': int, mode: Mode)
    requires window != out && IsWindow(window[..], wsize, whave, wnext) && 0 <= beg <= o && o + 258 <= out.Length &&
      GoodTables(t)
    requires (item, used) == Decode(t.lt, t.lroot, t.dt, t.droot, Left(hold0, bits0, s, c))
    modifies out
    ensures o <= o' <= o + 258 && (mode == Len ==> o' > o) &&
      forall i | 0 <= i < o || o' <= i < out.Length :: out[i] == old(out[i])
    ensures var p := Past(window[..], wsize, whave, wnext);
      Passed(t, hold0, bits0, s, State(c, History(p, old(out[..]), beg, o), Len)) ==
        State(c + used, History(p, out[..], beg, o'), mode)
  {
    hide Decode, IsWindow, Past, Left;
    PastSize(window[..], wsize, whave, wnext);
    ghost var p := Past(window[..], wsize, whave, wnext);
    ghost var before := out[..];
    o', mode := o, Len;
    match item
    case Literal(b) =>
      out[o] := b;
      o' := o + 1;
      assert out[beg..o'] == before[beg..o] + [b];
    case Match(len, dist) =>
      ItemRange(t, Left(hold0, bits0, s, c));
      var tooFar;
      o', tooFar := CopyMatch(window, wsize, whave, wnext, out, beg, o, dist, len);
      if tooFar { mode := Bad; }
    case EndOfBlock => mode := Type;
    case Invalid => mode := Bad;
  }

  lemma {:induction false} ItemRange(t: Tables, x: nat)
    requires GoodTables(t)
    ensures var (item, used) := Decode(t.lt, t.lroot, t.dt, t.droot, x);
      item.Match? ==> 3 <= item.len <= 258 && item.dist >= 1
  {
  }

  lemma {:induction false} AllCounted(hold0: nat, bits0: nat, s: seq<Byte>, c: nat, hold: nat, bits: nat, nin: nat)
    requires Holds(hold0, bits0, s, c, hold, bits, nin)
    ensures c + bits == bits0 + 8 * nin
  {
  }

  lemma {:induction false} HoldsFirst(hold0: nat, bits0: nat, s: seq<Byte>)
    requires hold0 < Pow2(bits0)
    ensures Holds(hold0, bits0, s, 0, hold0, bits0, 0)
  {
    hide Quo, Rem, Pow2;
    NoBits(Whole(hold0, bits0, s));
    PartsUnique(Whole(hold0, bits0, s), bits0, Number(s), hold0);
  }

  /**
   * The input s, with bits0 < 8 bits left over in hold0, is decoded pass by pass: the output and the bits used are
   * those of so many passes, no pass runs out of input or room, and what has not been used is handed back: at most
   * three whole bytes. It stops only at the end of the block, for bad input, or when six bytes of input, or room for
   * the longest match, are no longer certain.
   */
  method InflateFast(t: Tables, window: array<int>, wsize: int, whave: int, wnext: int, s: seq<Byte>, hold0: nat,
    bits0: nat, out: array<int>, beg: int, o0: int, avail_out: int)
    returns (mode: Mode, nin: nat, hold: nat, bits: nat, o: int, ghost n: nat, ghost c: nat, ghost read: nat)
    requires GoodTables(t) && window != out && IsWindow(window[..], wsize, whave, wnext)
    requires |s| >= 6 && bits0 < 8 && hold0 < Pow2(bits0) && 0 <= beg <= o0 && 258 <= avail_out &&
      o0 + avail_out <= out.Length
    modifies out
    ensures o0 <= o <= o0 + avail_out && forall i | 0 <= i < o0 || o <= i < out.Length :: out[i] == old(out[i])
    ensures var p := Past(window[..], wsize, whave, wnext);
      n > 0 &&
        Passes(t, hold0, bits0, s, State(0, History(p, old(out[..]), beg, o0), Len), n) ==
        State(c, History(p, out[..], beg, o), mode)
    ensures mode == Len ==> read + 6 > |s| || o + 258 > o0 + avail_out
    ensures nin <= read <= |s| && read <= nin + 3 && bits < 8 && Left(hold0, bits0, s, c) == Whole(hold, bits, s[nin..])
    ensures c + bits == bits0 + 8 * nin
  {
    hide GoodTables, IsWindow, Past, Holds, Left, Whole, Passed, Decode, Pow2, Quo, Rem;
    ghost var p := Past(window[..], wsize, whave, wnext);
    ghost var start := State(0, History(p, out[..], beg, o0), Len);
    var last, end := |s| - 5, o0 + avail_out - 257;
    nin, hold, bits, o, mode, n, c := 0, hold0, bits0, o0, Len, 0, 0;
    HoldsFirst(hold0, bits0, s);
    while true
      invariant 0 <= nin < last && o0 <= o < end && mode == Len
      invariant Holds(hold0, bits0, s, c, hold, bits, nin) && bits <= 30 && window[..] == old(window[..])
      invariant Passes(t, hold0, bits0, s, start, n) == State(c, History(p, out[..], beg, o), mode)
      invariant forall i | 0 <= i < o0 || o <= i < out.Length :: out[i] == old(out[i])
      decreases end - o
    {
      var item;
      ghost var used;
      item, hold, bits, nin, used := DecodeItem(t, s, hold, bits, nin, hold0, bits0, c);
      o, mode := Act(item, window, wsize, whave, wnext, out, beg, o, t, hold0, bits0, s, c, used);
      n, c := n + 1, c + used;
      if mode != Len || !(nin < last && o < end) { break; }
    }
    read := nin;
    PutBack(hold0, bits0, s, c, hold, bits, nin);
    AllCounted(hold0, bits0, s, c, hold, bits, nin);
    var len := bits / 8;
    nin := nin - len;
    bits := bits - 8 * len;
    hold := Rem(hold, bits);
  }
}
