/**
 * The other direction of inflate_fast: literals and matches written down as code words and extra bits come out again,
 * and the block ends at its end code. Section 3.2.5 of RFC 1951; the entries are those inflate_table makes.
 */
module InflateWritten {
  import opened Bits
  import opened Rotations
  import opened InflateBits
  import opened InflateCodes
  import opened InflateCopy
  import opened InflateFast

  // ---- code words and their entries

  /** A code word of n bits, the first of them lowest, with the operation and the value of its entries. */
  datatype Word = Word(bits: nat, n: nat, op: nat, val: nat)

  const LITERAL := 0
  const BASE := 16
  const INVALID := 64
  const END := 96

  /** What inflate_table puts into an entry that is not a link. */
  predicate IsWord(w: Word, lengths: bool) {
    && w.bits < Pow2(w.n) && w.n <= 15
    && (w.op in {INVALID, 77, 202} || BASE <= w.op < BASE + 16 || (lengths && (w.op == LITERAL || w.op == END)))
  }

  /** Of the 2^k entries behind place from, those whose index has low as its n low bits are e. */
  predicate Filled(t: seq<Code>, from: nat, k: nat, n: nat, low: nat, e: Code) {
    from + Pow2(k) <= |t| && forall i | 0 <= i < Pow2(k) && Rem(i, n) == low :: t[from + i] == e
  }

  /** Every index that ends in the word's bits has its entry; a word longer than root is reached through a link. */
  predicate Stands(t: seq<Code>, root: nat, w: Word) {
    if w.n <= root then Filled(t, 0, root, w.n, w.bits, Code(w.op, w.n, w.val))
    else
      && Rem(w.bits, root) < |t|
      && var link := t[Rem(w.bits, root)];
        && 0 < link.op < 16 && link.bits == root && w.n - root <= link.op
        && Filled(t, link.val, link.op, w.n - root, Quo(w.bits, root), Code(w.op, w.n - root, w.val))
  }

  /** The bits of w in front of the others. */
  function Put(bits: nat, n: nat, rest: nat): nat {
    bits + Pow2(n) * rest
  }

  lemma {:induction false} PutParts(bits: nat, n: nat, rest: nat)
    requires bits < Pow2(n)
    ensures Quo(Put(bits, n, rest), n) == rest && Rem(Put(bits, n, rest), n) == bits
  {
    hide Pow2, Quo, Rem;
    PartsUnique(Put(bits, n, rest), n, rest, bits);
  }

  /** A word that stands in the table is found. */
  lemma {:induction false} WordFound(t: seq<Code>, root: nat, lengths: bool, w: Word, x: nat)
    requires GoodTable(t, root, lengths) && IsWord(w, lengths) && Stands(t, root, w) && Rem(x, w.n) == w.bits
    ensures var (e, n) := Lookup(t, root, lengths, x); e.op == w.op && e.val == w.val && n == w.n
  {
    hide Pow2, Quo, Rem;
    Parts(x, root);
    if w.n <= root {
      OfLowBits(x, root, w.n);
    } else {
      LowBits(x, root, w.n - root);
      Parts(w.bits, root);
      var y := Quo(x, root);
      Parts(y, w.n - root);
      PutParts(Rem(x, root), root, Rem(y, w.n - root));
      var link := t[Rem(x, root)];
      Parts(y, link.op);
      OfLowBits(y, link.op, w.n - root);
    }
  }

  // ---- what is written

  /** A literal; a length with its extra bits and a distance with its; a word that ends it; or none for the distance. */
  datatype Piece =
    | Lit(w: Word)
    | Pair(w: Word, more: nat, d: Word, further: nat)
    | Last(w: Word)
    | NoDistance(w: Word, more: nat, d: Word)

  predicate IsLength(w: Word, more: nat) {
    BASE <= w.op < BASE + 16 && more < Pow2(w.op - BASE)
  }

  /** The block's tables have all words of the piece. */
  predicate IsPiece(t: Tables, p: Piece) {
    && IsWord(p.w, true) && Stands(t.lt, t.lroot, p.w)
    && (p.Pair? || p.NoDistance? ==> IsWord(p.d, false) && Stands(t.dt, t.droot, p.d))
    && match p
      case Lit(w) => w.op == LITERAL
      case Pair(w, more, d, further) => IsLength(w, more) && IsLength(d, further)
      case Last(w) => w.op >= INVALID
      case NoDistance(w, more, d) => IsLength(w, more) && d.op >= INVALID
  }

  /** The bits of a piece in front of the others. */
  function Written(p: Piece, rest: nat): nat {
    match p
    case Lit(w) => Put(w.bits, w.n, rest)
    case Pair(w, more, d, further) =>
      if w.op < BASE || d.op < BASE then 0
      else Put(w.bits, w.n, Put(more, w.op - BASE, Put(d.bits, d.n, Put(further, d.op - BASE, rest))))
    case Last(w) => Put(w.bits, w.n, rest)
    case NoDistance(w, more, d) =>
      if w.op < BASE then 0 else Put(w.bits, w.n, Put(more, w.op - BASE, Put(d.bits, d.n, rest)))
  }

  function Size(p: Piece): nat {
    match p
    case Lit(w) => w.n
    case Pair(w, more, d, further) => if w.op < BASE || d.op < BASE then 0 else w.n + w.op - BASE + d.n + d.op - BASE
    case Last(w) => w.n
    case NoDistance(w, more, d) => if w.op < BASE then 0 else w.n + w.op - BASE + d.n
  }

  /** What it says. */
  function Said(p: Piece): Item {
    match p
    case Lit(w) => Literal(w.val)
    case Pair(w, more, d, further) => Match(w.val + more, d.val + further)
    case Last(w) => if w.op == END then EndOfBlock else Invalid
    case NoDistance(_, _, _) => Invalid
  }

  lemma {:induction false} Ops(w: Word, lengths: bool)
    requires IsWord(w, lengths)
    ensures IsBase(w.op) <==> BASE <= w.op < BASE + 16
    ensures IsBase(w.op) ==> Extra(w.op) == w.op - BASE
    ensures IsEnd(w.op) && !IsBase(w.op) <==> w.op == END
  {
  }

  /** A piece is decoded as what it says, whatever follows. */
  lemma {:induction false} PieceDecoded(t: Tables, p: Piece, rest: nat)
    requires GoodTables(t) && IsPiece(t, p)
    ensures Decode(t.lt, t.lroot, t.dt, t.droot, Written(p, rest)) == (Said(p), Size(p))
  {
    hide GoodTables, IsPiece, Decode, Written, Said, Size;
    match p
    case Lit(_) => OneDecoded(t, p, rest);
    case Last(_) => OneDecoded(t, p, rest);
    case Pair(_, _, _, _) => PairDecoded(t, p, rest);
    case NoDistance(_, _, _) => NoDistanceDecoded(t, p, rest);
  }

  lemma {:induction false} OneDecoded(t: Tables, p: Piece, rest: nat)
    requires GoodTables(t) && IsPiece(t, p) && (p.Lit? || p.Last?)
    ensures Decode(t.lt, t.lroot, t.dt, t.droot, Written(p, rest)) == (Said(p), Size(p))
  {
    hide Pow2, Quo, Rem, Lookup, GoodTable, Stands;
    Ops(p.w, true);
    PutParts(p.w.bits, p.w.n, rest);
    WordFound(t.lt, t.lroot, true, p.w, Written(p, rest));
  }

  lemma {:induction false} PairDecoded(t: Tables, p: Piece, rest: nat)
    requires GoodTables(t) && IsPiece(t, p) && p.Pair?
    ensures Decode(t.lt, t.lroot, t.dt, t.droot, Written(p, rest)) == (Said(p), Size(p))
  {
    hide Pow2, Quo, Rem, Lookup, GoodTable, Stands, Put;
    var Pair(w, more, d, further) := p;
    Ops(w, true);
    Ops(d, false);
    IsWordSize(w, true);
    IsWordSize(d, false);
    var x3 := Put(further, d.op - BASE, rest);
    var x2 := Put(d.bits, d.n, x3);
    var x1 := Put(more, w.op - BASE, x2);
    PutParts(w.bits, w.n, x1);
    PutParts(more, w.op - BASE, x2);
    PutParts(d.bits, d.n, x3);
    PutParts(further, d.op - BASE, rest);
    WordFound(t.lt, t.lroot, true, w, Written(p, rest));
    WordFound(t.dt, t.droot, false, d, x2);
  }

  lemma {:induction false} IsWordSize(w: Word, lengths: bool)
    requires IsWord(w, lengths)
    ensures w.bits < Pow2(w.n)
  {
  }

  lemma {:induction false} NoDistanceDecoded(t: Tables, p: Piece, rest: nat)
    requires GoodTables(t) && IsPiece(t, p) && p.NoDistance?
    ensures Decode(t.lt, t.lroot, t.dt, t.droot, Written(p, rest)) == (Said(p), Size(p))
  {
    hide Pow2, Quo, Rem, Lookup, GoodTable, Stands, Put;
    var NoDistance(w, more, d) := p;
    Ops(w, true);
    Ops(d, false);
    IsWordSize(w, true);
    IsWordSize(d, false);
    var x2 := Put(d.bits, d.n, rest);
    var x1 := Put(more, w.op - BASE, x2);
    PutParts(w.bits, w.n, x1);
    PutParts(more, w.op - BASE, x2);
    PutParts(d.bits, d.n, rest);
    WordFound(t.lt, t.lroot, true, w, Written(p, rest));
    WordFound(t.dt, t.droot, false, d, x2);
  }

  // ---- texts

  /** What a piece adds to the history. */
  function Added(h: seq<int>, p: Piece): seq<int> {
    match p
    case Lit(w) => h + [w.val]
    case Pair(w, more, d, further) =>
      if 1 <= d.val + further <= |h| then Extended(h, d.val + further, w.val + more) else h
    case _ => h
  }

  /** Literals and matches that do not reach behind the history. */
  predicate GoesOn(h: seq<int>, p: Piece) {
    p.Lit? || (p.Pair? && 1 <= p.d.val + p.further <= |h|)
  }

  predicate AllGoOn(t: Tables, h: seq<int>, ps: seq<Piece>)
    decreases |ps|
  {
    ps == [] || (IsPiece(t, ps[0]) && GoesOn(h, ps[0]) && AllGoOn(t, Added(h, ps[0]), ps[1..]))
  }

  function AllAdded(h: seq<int>, ps: seq<Piece>): seq<int>
    decreases |ps|
  {
    if ps == [] then h else AllAdded(Added(h, ps[0]), ps[1..])
  }

  function AllWritten(ps: seq<Piece>, rest: nat): nat {
    if ps == [] then rest else Written(ps[0], AllWritten(ps[1..], rest))
  }

  function AllSize(ps: seq<Piece>): nat {
    if ps == [] then 0 else Size(ps[0]) + AllSize(ps[1..])
  }

  /** The end of a block, or what makes its data invalid. */
  predicate Stops(h: seq<int>, p: Piece) {
    p.Last? || p.NoDistance? || (p.Pair? && p.d.val + p.further > |h|)
  }

  /** The bits behind those of a piece are the rest. */
  lemma {:induction false} Behind(t: Tables, p: Piece, rest: nat)
    requires IsPiece(t, p)
    ensures Quo(Written(p, rest), Size(p)) == rest
  {
    hide Pow2, Quo, Rem, Stands;
    match p
    case Lit(w) => PutParts(w.bits, w.n, rest);
    case Last(w) => PutParts(w.bits, w.n, rest);
    case Pair(w, more, d, further) =>
      var x3 := Put(further, d.op - BASE, rest);
      var x2 := Put(d.bits, d.n, x3);
      var x1 := Put(more, w.op - BASE, x2);
      PutParts(w.bits, w.n, x1);
      PutParts(more, w.op - BASE, x2);
      PutParts(d.bits, d.n, x3);
      PutParts(further, d.op - BASE, rest);
      var x := Written(p, rest);
      LowBits(x, w.n, w.op - BASE);
      LowBits(x, w.n + w.op - BASE, d.n);
      LowBits(x, w.n + w.op - BASE + d.n, d.op - BASE);
    case NoDistance(w, more, d) =>
      var x2 := Put(d.bits, d.n, rest);
      var x1 := Put(more, w.op - BASE, x2);
      PutParts(w.bits, w.n, x1);
      PutParts(more, w.op - BASE, x2);
      PutParts(d.bits, d.n, rest);
      var x := Written(p, rest);
      LowBits(x, w.n, w.op - BASE);
      LowBits(x, w.n + w.op - BASE, d.n);
  }

  /** One pass over a piece. */
  lemma {:induction false} PiecePassed(t: Tables, hold0: nat, bits0: nat, s: seq<Byte>, c: nat, h: seq<int>, p: Piece,
    rest: nat)
    requires GoodTables(t) && IsPiece(t, p) && Left(hold0, bits0, s, c) == Written(p, rest)
    ensures Left(hold0, bits0, s, c + Size(p)) == rest
    ensures var y := Passed(t, hold0, bits0, s, State(c, h, Len));
      && y.c == c + Size(p)
      && (GoesOn(h, p) ==> y.h == Added(h, p) && y.mode == Len)
      && (Stops(h, p) ==> y.h == h && y.mode == if p.Last? && p.w.op == END then Type else Bad)
      && (GoesOn(h, p) || Stops(h, p))
  {
    hide Decode, Quo, Rem, Pow2, Stands, Whole, GoodTable;
    PieceDecoded(t, p, rest);
    Behind(t, p, rest);
    LowBits(Whole(hold0, bits0, s), c, Size(p));
    SaidDistance(t, p, rest);
  }

  lemma {:induction false} SaidDistance(t: Tables, p: Piece, rest: nat)
    requires GoodTables(t) && IsPiece(t, p)
    ensures p.Pair? ==> p.d.val + p.further >= 1
  {
    hide Decode, Stands, GoodTable;
    PieceDecoded(t, p, rest);
    ItemRange(t, Written(p, rest));
  }

  lemma {:induction false} PassesFirst(t: Tables, hold0: nat, bits0: nat, s: seq<Byte>, x: State, n: nat)
    requires GoodTables(t)
    ensures Passes(t, hold0, bits0, s, x, n + 1) ==
      Passes(t, hold0, bits0, s, Passed(t, hold0, bits0, s, x), n)
  {
    hide Passed, GoodTables;
    if n > 0 { PassesFirst(t, hold0, bits0, s, x, n - 1); }
  }

  /** Passes over a text add it to the history, as far as they go. */
  lemma {:induction false} TextPassed(t: Tables, hold0: nat, bits0: nat, s: seq<Byte>, c: nat, h: seq<int>,
    ps: seq<Piece>, rest: nat, n: nat)
    requires GoodTables(t) && AllGoOn(t, h, ps) && Left(hold0, bits0, s, c) == AllWritten(ps, rest) && n <= |ps|
    ensures Passes(t, hold0, bits0, s, State(c, h, Len), n) == State(c + AllSize(ps[..n]), AllAdded(h, ps[..n]), Len)
    ensures Left(hold0, bits0, s, c + AllSize(ps[..n])) == AllWritten(ps[n..], rest)
    decreases n
  {
    hide Passed, GoodTables, IsPiece, Left, Written, Size, Added;
    if n == 0 {
      assert ps[..0] == [] && ps[0..] == ps;
    } else {
      PiecePassed(t, hold0, bits0, s, c, h, ps[0], AllWritten(ps[1..], rest));
      TextPassed(t, hold0, bits0, s, c + Size(ps[0]), Added(h, ps[0]), ps[1..], rest, n - 1);
      PassesFirst(t, hold0, bits0, s, State(c, h, Len), n - 1);
      assert ps[..n][1..] == ps[1..][..n - 1] && ps[..n][0] == ps[0] && ps[1..][n - 1..] == ps[n..];
    }
  }

  lemma {:induction false} StaysStopped(t: Tables, hold0: nat, bits0: nat, s: seq<Byte>, x: State, n: nat)
    requires GoodTables(t) && x.mode != Len
    ensures Passes(t, hold0, bits0, s, x, n) == x
  {
    hide GoodTables;
    if n > 0 { StaysStopped(t, hold0, bits0, s, x, n - 1); }
  }

  lemma {:induction false} PassesMore(t: Tables, hold0: nat, bits0: nat, s: seq<Byte>, x: State, m: nat, n: nat)
    requires GoodTables(t)
    ensures Passes(t, hold0, bits0, s, x, m + n) == Passes(t, hold0, bits0, s, Passes(t, hold0, bits0, s, x, m), n)
  {
    hide Passed, GoodTables;
    if n > 0 { PassesMore(t, hold0, bits0, s, x, m, n - 1); }
  }

  /**
   * A text with what ends it: some passes over it come to a part of the text, or, behind it, to the end. That is right
   * exactly for the end code.
   */
  lemma {:induction false} BlockPassed(t: Tables, hold0: nat, bits0: nat, s: seq<Byte>, h: seq<int>, ps: seq<Piece>,
    last: Piece, rest: nat, n: nat)
    requires GoodTables(t) && AllGoOn(t, h, ps) && IsPiece(t, last) && Stops(AllAdded(h, ps), last)
    requires Left(hold0, bits0, s, 0) == AllWritten(ps, Written(last, rest))
    ensures var y := Passes(t, hold0, bits0, s, State(0, h, Len), n);
      if n <= |ps| then y == State(AllSize(ps[..n]), AllAdded(h, ps[..n]), Len)
      else y == State(AllSize(ps) + Size(last), AllAdded(h, ps), if last.Last? && last.w.op == END then Type else Bad)
  {
    hide Passed, GoodTables, IsPiece, Left, Written, Size, Added, AllGoOn, Stops;
    if n <= |ps| {
      TextPassed(t, hold0, bits0, s, 0, h, ps, Written(last, rest), n);
    } else {
      TextPassed(t, hold0, bits0, s, 0, h, ps, Written(last, rest), |ps|);
      assert ps[..|ps|] == ps && ps[|ps|..] == [];
      var x := State(AllSize(ps), AllAdded(h, ps), Len);
      PiecePassed(t, hold0, bits0, s, AllSize(ps), AllAdded(h, ps), last, rest);
      PassesMore(t, hold0, bits0, s, State(0, h, Len), |ps|, n - |ps|);
      PassesFirst(t, hold0, bits0, s, x, n - |ps| - 1);
      StaysStopped(t, hold0, bits0, s, Passed(t, hold0, bits0, s, x), n - |ps| - 1);
    }
  }

  lemma {:induction false} PartOfText(t: Tables, h: seq<int>, ps: seq<Piece>, n: nat)
    requires AllGoOn(t, h, ps) && n <= |ps|
    ensures AllAdded(h, ps[..n]) <= AllAdded(h, ps) && AllSize(ps[..n]) <= AllSize(ps) && h <= AllAdded(h, ps)
    decreases |ps|
  {
    hide IsPiece, Size, Written;
    if ps != [] {
      OneAdded(h, ps[0]);
      if n == 0 {
        PartOfText(t, Added(h, ps[0]), ps[1..], 0);
      } else {
        PartOfText(t, Added(h, ps[0]), ps[1..], n - 1);
        assert ps[..n][1..] == ps[1..][..n - 1];
      }
    }
  }

  lemma {:induction false} OneAdded(h: seq<int>, p: Piece)
    requires GoesOn(h, p)
    ensures h <= Added(h, p)
  {
    if p.Pair? { ExtendedFrom(h, p.d.val + p.further, p.w.val + p.more); }
  }

  lemma {:induction false} ExtendedFrom(h: seq<int>, dist: nat, len: nat)
    requires 1 <= dist <= |h|
    ensures h <= Extended(h, dist, len)
  {
    if len > 0 { ExtendedFrom(h, dist, len - 1); }
  }

  /**
   * What inflate_fast does with a text and what ends it, from its results: it puts out the text as far as it comes; it
   * comes to the end with enough input and room; and there it sets TYPE for the end code, and BAD for anything else.
   */
  lemma {:induction false} BlockComesOut(t: Tables, hold0: nat, bits0: nat, s: seq<Byte>, h: seq<int>, ps: seq<Piece>,
    last: Piece, rest: nat, n: nat, c: nat, g: seq<int>, mode: Mode, read: nat, nin: nat, bits: nat, avail_out: nat)
    requires GoodTables(t) && AllGoOn(t, h, ps) && IsPiece(t, last) && Stops(AllAdded(h, ps), last)
    requires Left(hold0, bits0, s, 0) == AllWritten(ps, Written(last, rest))
    requires Passes(t, hold0, bits0, s, State(0, h, Len), n) == State(c, g, mode)
    requires mode == Len ==> read + 6 > |s| || |g| - |h| + 258 > avail_out
    requires read <= nin + 3 && bits < 8 && c + bits == bits0 + 8 * nin
    ensures h <= AllAdded(h, ps) && g <= AllAdded(h, ps)
    ensures mode != Len ==> g == AllAdded(h, ps) && c == AllSize(ps) + Size(last)
    ensures mode != Len ==> mode == if last.Last? && last.w.op == END then Type else Bad
    ensures AllSize(ps) + 72 <= bits0 + 8 * |s| && |AllAdded(h, ps)| - |h| + 258 <= avail_out ==> mode != Len
  {
    hide GoodTables, IsPiece, Left, Written, Size, Added, AllGoOn, Stops, Passes;
    BlockPassed(t, hold0, bits0, s, h, ps, last, rest, n);
    PartOfText(t, h, ps, if n <= |ps| then n else |ps|);
  }

  // ---- all input is a text

  /** The number ends in the word's bits. */
  predicate Begins(x: nat, w: Word) {
    Rem(x, w.n) == w.bits
  }

  /** The words of a table: every number begins with one of them. */
  ghost predicate AreWords(t: seq<Code>, root: nat, lengths: bool, ws: seq<Word>) {
    && (forall k | 0 <= k < |ws| :: IsWord(ws[k], lengths) && Stands(t, root, ws[k]))
    && (forall x: nat :: SomeBegin(x, ws))
  }

  ghost predicate SomeBegin(x: nat, ws: seq<Word>) {
    exists k :: 0 <= k < |ws| && Begins(x, ws[k])
  }

  lemma {:induction false} FirstWord(t: seq<Code>, root: nat, lengths: bool, ws: seq<Word>, x: nat)
    returns (w: Word, rest: nat)
    requires AreWords(t, root, lengths, ws)
    ensures IsWord(w, lengths) && Stands(t, root, w) && x == Put(w.bits, w.n, rest)
  {
    hide Stands, Pow2;
    assert SomeBegin(x, ws);
    var k :| 0 <= k < |ws| && Begins(x, ws[k]);
    Parts(x, ws[k].n);
    w, rest := ws[k], Quo(x, ws[k].n);
  }

  /** Whatever the input is, it begins with a piece. */
  lemma {:induction false} SomePiece(t: Tables, lws: seq<Word>, dws: seq<Word>, x: nat) returns (p: Piece, rest: nat)
    requires AreWords(t.lt, t.lroot, true, lws) && AreWords(t.dt, t.droot, false, dws)
    ensures IsPiece(t, p) && x == Written(p, rest)
  {
    hide AreWords, Stands, Pow2, Quo, Rem;
    var w, x1 := FirstWord(t.lt, t.lroot, true, lws, x);
    rest := x1;
    if w.op == LITERAL {
      p := Lit(w);
    } else if w.op >= INVALID {
      p := Last(w);
    } else {
      Parts(x1, w.op - BASE);
      var more, x2 := Rem(x1, w.op - BASE), Quo(x1, w.op - BASE);
      var d, x3 := FirstWord(t.dt, t.droot, false, dws, x2);
      if d.op >= INVALID {
        p, rest := NoDistance(w, more, d), x3;
      } else {
        Parts(x3, d.op - BASE);
        p, rest := Pair(w, more, d, Rem(x3, d.op - BASE)), Quo(x3, d.op - BASE);
      }
    }
  }

  /** What makes a block's data invalid. */
  predicate IsBad(h: seq<int>, p: Piece) {
    Stops(h, p) && !(p.Last? && p.w.op == END)
  }

  /** A pass sets BAD exactly for an invalid code, or a distance behind the history. */
  lemma {:induction false} BadExactly(t: Tables, lws: seq<Word>, dws: seq<Word>, hold0: nat, bits0: nat, s: seq<Byte>,
    c: nat, h: seq<int>)
    requires GoodTables(t) && AreWords(t.lt, t.lroot, true, lws) && AreWords(t.dt, t.droot, false, dws)
    ensures Passed(t, hold0, bits0, s, State(c, h, Len)).mode == Bad <==>
      exists p, rest :: IsPiece(t, p) && IsBad(h, p) && Left(hold0, bits0, s, c) == Written(p, rest)
  {
    hide GoodTables, AreWords, IsPiece, Left, Written, Passed, Added;
    var p, rest := SomePiece(t, lws, dws, Left(hold0, bits0, s, c));
    PiecePassed(t, hold0, bits0, s, c, h, p, rest);
    forall q, more | IsPiece(t, q) && IsBad(h, q) && Left(hold0, bits0, s, c) == Written(q, more)
      ensures Passed(t, hold0, bits0, s, State(c, h, Len)).mode == Bad
    {
      PiecePassed(t, hold0, bits0, s, c, h, q, more);
    }
  }

  /** The smallest tables: 0 is the letter A, 1 the end of the block. */
  const SMALLEST: Tables :=
    Tables([Code(LITERAL, 1, 65), Code(END, 1, 0)], 1, [Code(INVALID, 1, 0), Code(INVALID, 1, 0)], 1)

  const LETTER: Word := Word(0, 1, LITERAL, 65)

  const FINAL: Word := Word(1, 1, END, 0)

  /** The bits 001 are two letters and the end. */
  lemma {:induction false} TwoLetters()
    ensures GoodTables(SMALLEST) && AreWords(SMALLEST.lt, 1, true, [LETTER, FINAL])
    ensures IsPiece(SMALLEST, Lit(LETTER)) && IsPiece(SMALLEST, Last(FINAL))
    ensures Written(Lit(LETTER), Written(Lit(LETTER), Written(Last(FINAL), 0))) == 4
  {
    assert Pow2(0) == 1 && Pow2(1) == 2;
    forall x: nat ensures SomeBegin(x, [LETTER, FINAL]) { assert Begins(x, [LETTER, FINAL][x % 2]); }
  }
}
