/** The initial run-length coding: what a block's bytes stand for, and how runs are written into it. */
module RunLength {
  import opened Rotations

  function Copies(c: Byte, n: nat): (r: seq<Byte>)
    ensures |r| == n && forall i | 0 <= i < n :: r[i] == c
  {
    seq(n, i => c)
  }

  // ---- reading

  /** What a block's bytes expand to; ok is false if they end within a run that lacks its count. */
  datatype Expanded = Expanded(out: seq<Byte>, ok: bool)

  function After(front: seq<Byte>, e: Expanded): Expanded {
    Expanded(front + e.out, e.ok)
  }

  /** How many of the first bytes of s, at most 4 and not the last byte of s, are equal. */
  function Equals(s: seq<Byte>): (n: nat)
    requires |s| >= 2
    ensures 1 <= n <= 4 && n < |s| && forall i | 0 <= i < n :: s[i] == s[0]
  {
    if |s| == 2 || s[1] != s[0] then 1
    else if |s| == 3 || s[2] != s[0] then 2
    else if |s| == 4 || s[3] != s[0] then 3
    else 4
  }

  /** The expansion of all bytes of s but its last, which is what the decoder fetches behind the block's end. */
  function Expand(s: seq<Byte>): Expanded
    requires |s| >= 1
  {
    if |s| == 1 then Expanded([], true)
    else
      var n := Equals(s);
      if n < 4 then After(Copies(s[0], n), Expand(s[n..]))
      else if |s| == 5 then Expanded(Copies(s[0], s[4] as int + 4), false)
      else After(Copies(s[0], s[4] as int + 4), Expand(s[5..]))
  }

  // ---- writing

  /** A run of 1 to 255 equal bytes. */
  datatype Run = Run(ch: Byte, len: nat)

  ghost predicate AreRuns(rs: seq<Run>) {
    && (forall i | 0 <= i < |rs| :: 1 <= rs[i].len <= 255)
    && (forall i | 0 <= i < |rs| - 1 :: rs[i].len < 4 ==> rs[i + 1].ch != rs[i].ch)
  }

  /** A run as it stands in the block: from 4 on, 4 bytes and the count of the others. */
  function Pair(r: Run): (s: seq<Byte>)
    requires 1 <= r.len <= 255
    ensures 1 <= |s| <= 5 && s[0] == r.ch
  {
    if r.len < 4 then Copies(r.ch, r.len) else Copies(r.ch, 4) + [r.len - 4]
  }

  function Encode(rs: seq<Run>): (s: seq<Byte>)
    requires forall i | 0 <= i < |rs| :: 1 <= rs[i].len <= 255
    ensures rs != [] ==> s != [] && s[0] == rs[0].ch
    ensures rs == [] ==> s == []
  {
    if rs == [] then [] else Pair(rs[0]) + Encode(rs[1..])
  }

  function Plain(rs: seq<Run>): seq<Byte> {
    if rs == [] then [] else Copies(rs[0].ch, rs[0].len) + Plain(rs[1..])
  }

  lemma {:induction false} EncodeAppend(rs: seq<Run>, r: Run)
    requires (forall i | 0 <= i < |rs| :: 1 <= rs[i].len <= 255) && 1 <= r.len <= 255
    ensures Encode(rs + [r]) == Encode(rs) + Pair(r)
  {
    if rs == [] {
      assert [r][1..] == [];
    } else {
      assert (rs + [r])[1..] == rs[1..] + [r];
      EncodeAppend(rs[1..], r);
    }
  }

  lemma {:induction false} PlainAppend(rs: seq<Run>, r: Run)
    ensures Plain(rs + [r]) == Plain(rs) + Copies(r.ch, r.len)
  {
    if rs == [] {
      assert [r][1..] == [];
    } else {
      assert (rs + [r])[1..] == rs[1..] + [r];
      PlainAppend(rs[1..], r);
    }
  }

  /** Runs become longer by a quarter at most. */
  lemma {:induction false} EncodeLength(rs: seq<Run>)
    requires forall i | 0 <= i < |rs| :: 1 <= rs[i].len <= 255
    ensures 4 * |Encode(rs)| <= 5 * |Plain(rs)| && |Plain(rs)| >= |rs|
  {
    if rs != [] { EncodeLength(rs[1..]); }
  }

  lemma {:induction false} FirstRun(r: Run, more: seq<Byte>)
    requires 1 <= r.len <= 255 && |more| >= 1 && (r.len < 4 && |more| > 1 ==> more[0] != r.ch)
    requires r.len < 4 || |more| >= 1
    ensures Expand(Pair(r) + more) == After(Copies(r.ch, r.len), Expand(more))
  {
    var s := Pair(r) + more;
    if r.len < 4 {
      assert s[r.len] == more[0];
      assert Equals(s) == r.len && s[r.len..] == more;
    } else {
      assert s[..4] == Copies(r.ch, 4) && s[4] as int == r.len - 4;
      assert s[0] == s[1] == s[2] == s[3] == r.ch;
      assert Equals(s) == 4 && s[5..] == more;
    }
  }

  /** Expanding the runs written gives the bytes they stand for, whatever byte is fetched behind the block. */
  lemma {:induction false} ExpandEncoded(rs: seq<Run>, z: Byte)
    requires AreRuns(rs)
    ensures Expand(Encode(rs) + [z]) == Expanded(Plain(rs), true)
  {
    if rs != [] {
      var more := Encode(rs[1..]) + [z];
      assert Encode(rs) + [z] == Pair(rs[0]) + more;
      assert |rs| > 1 ==> more[0] == rs[1].ch && rs[1..][0] == rs[1];
      FirstRun(rs[0], more);
      ExpandEncoded(rs[1..], z);
    }
  }
}
