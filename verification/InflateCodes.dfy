/** Decoding tables as inflate_fast uses them, and what one pass of it decodes. */
module InflateCodes {
  import opened Bits
  import opened InflateBits

  /** An entry: operation and extra bits, length of the code, and a base, a literal or a place in the table. */
  datatype Code = Code(op: nat, bits: nat, val: nat)

  predicate IsBase(op: nat) { op / 16 % 2 == 1 }

  predicate IsStop(op: nat) { op / 64 % 2 == 1 }

  predicate IsEnd(op: nat) { op / 32 % 2 == 1 }

  function Extra(op: nat): nat { op % 16 }

  /** The entry leads to a second-level table; in the table of lengths, op 0 is a literal. */
  predicate IsLink(e: Code, lengths: bool) {
    !IsBase(e.op) && !IsStop(e.op) && !(lengths && e.op == 0)
  }

  /** The bases are those of the format: lengths 3 .. 258 with up to 5 extra bits, distances with up to 13. */
  predicate GoodLeaf(e: Code, lengths: bool) {
    && !IsLink(e, lengths)
    && (lengths && e.op == 0 ==> e.val < 256)
    && (IsBase(e.op) && e.op != 0 && lengths ==> Extra(e.op) <= 5 && 3 <= e.val && e.val + Pow2(Extra(e.op)) <= 259)
    && (IsBase(e.op) && !lengths ==> Extra(e.op) <= 13 && 1 <= e.val)
  }

  /** A table whose codes, first and second level together, have at most 15 bits. */
  predicate GoodTable(t: seq<Code>, root: nat, lengths: bool) {
    && root <= 15 && Pow2(root) <= |t|
    && forall i | 0 <= i < Pow2(root) :: GoodEntry(t, t[i], lengths)
  }

  predicate GoodEntry(t: seq<Code>, e: Code, lengths: bool) {
    if IsLink(e, lengths) then
      && e.bits + e.op <= 15 && e.val + Pow2(e.op) <= |t|
      && (forall j | e.val <= j < e.val + Pow2(e.op) :: GoodLeaf(t[j], lengths) && e.bits + t[j].bits <= 15)
    else GoodLeaf(e, lengths) && e.bits <= 15
  }

  /** The entry for the bits x, and how many of them its code has. */
  function Lookup(t: seq<Code>, root: nat, lengths: bool, x: nat): (r: (Code, nat))
    requires GoodTable(t, root, lengths)
    ensures GoodLeaf(r.0, lengths) && r.1 <= 15
  {
    Parts(x, root);
    var e := t[Rem(x, root)];
    assert GoodEntry(t, e, lengths);
    if IsLink(e, lengths) then
      Parts(Quo(x, e.bits), e.op);
      var e2 := t[e.val + Rem(Quo(x, e.bits), e.op)];
      (e2, e.bits + e2.bits)
    else (e, e.bits)
  }

  /** What the next bits say. */
  datatype Item = Literal(c: int) | Match(len: nat, dist: nat) | EndOfBlock | Invalid

  /** The item, and how many bits it takes. */
  function Decode(lt: seq<Code>, lroot: nat, dt: seq<Code>, droot: nat, x: nat): (r: (Item, nat))
    requires GoodTable(lt, lroot, true) && GoodTable(dt, droot, false)
    ensures r.1 <= 48 && (r.0.Literal? ==> 0 <= r.0.c < 256) && (r.0.Match? ==> 3 <= r.0.len <= 258 && r.0.dist >= 1)
  {
    var (e, u) := Lookup(lt, lroot, true, x);
    var x1 := Quo(x, u);
    if e.op == 0 then (Literal(e.val), u)
    else if IsBase(e.op) then
      Parts(x1, Extra(e.op));
      var len := e.val + Rem(x1, Extra(e.op));
      var x2 := Quo(x1, Extra(e.op));
      var (d, v) := Lookup(dt, droot, false, x2);
      var x3 := Quo(x2, v);
      if IsBase(d.op) then (Match(len, d.val + Rem(x3, Extra(d.op))), u + Extra(e.op) + v + Extra(d.op))
      else (Invalid, u + Extra(e.op) + v)
    else (if IsEnd(e.op) then EndOfBlock else Invalid, u)
  }
}
