/**
 * Copying a match in inflate_fast: len bytes from dist bytes back, out of a circular window of earlier output, out of
 * the present output, or out of both. Section 3.2.3 of RFC 1951.
 */
module InflateCopy {
  import opened Rotations

  // ---- what a match means

  /** h with len bytes more, each one the byte dist back; they may be bytes of the match itself. */
  function Extended(h: seq<int>, dist: nat, len: nat): (r: seq<int>)
    requires 1 <= dist <= |h|
    ensures |r| == |h| + len
    decreases len
  {
    if len == 0 then h
    else
      var g := Extended(h, dist, len - 1);
      g + [g[|g| - dist]]
  }

  /** r is h with a match behind it. */
  ghost predicate IsMatch(h: seq<int>, dist: nat, len: nat, r: seq<int>) {
    && 1 <= dist <= |h| && |r| == |h| + len && r[..|h|] == h
    && (forall i | |h| <= i < |r| :: r[i] == r[i - dist])
  }

  /** That determines the bytes. */
  lemma {:induction false} MatchIs(h: seq<int>, dist: nat, len: nat, r: seq<int>)
    requires IsMatch(h, dist, len, r)
    ensures r == Extended(h, dist, len)
  {
    if len > 0 {
      var g := r[..|r| - 1];
      assert g[..|h|] == h;
      MatchIs(h, dist, len - 1, g);
      assert r == g + [r[|r| - 1]];
    }
  }

  // ---- the window

  /** The last whave bytes of earlier output, in a circular window w; wnext is where the next byte would go. */
  ghost predicate IsWindow(w: seq<int>, wsize: int, whave: int, wnext: int) {
    0 <= whave <= wsize <= |w| && if whave < wsize then wnext == whave else wnext == 0 || 0 < wnext < wsize
  }

  /** The bytes of the window in the order in which they were put out. */
  ghost function Past(w: seq<int>, wsize: int, whave: int, wnext: int): (p: seq<int>)
    requires IsWindow(w, wsize, whave, wnext)
    ensures |p| == whave
  {
    if whave < wsize || wsize == 0 then w[..whave] else w[wnext..wsize] + w[..wnext]
  }

  /** The byte k back in the window. */
  lemma {:induction false} PastAt(w: seq<int>, wsize: int, whave: int, wnext: int, k: int)
    requires IsWindow(w, wsize, whave, wnext) && 1 <= k <= whave
    ensures k <= wnext ==> 0 <= wnext - k < |w| && Past(w, wsize, whave, wnext)[whave - k] == w[wnext - k]
    ensures k > wnext ==>
      0 <= wsize + wnext - k < |w| && Past(w, wsize, whave, wnext)[whave - k] == w[wsize + wnext - k]
  {
  }

  // ---- copying

  /** The history: what was put out before, and out[beg..o]. */
  ghost function History(p: seq<int>, out: seq<int>, beg: int, o: int): (h: seq<int>)
    requires 0 <= beg <= o <= |out|
    ensures |h| == |p| + (o - beg)
  {
    p + out[beg..o]
  }

  /** So far the history ends in a match for the bytes of the history at o0. */
  ghost predicate Copying(p: seq<int>, out0: seq<int>, out: seq<int>, beg: int, o0: int, o: int, dist: int) {
    && 0 <= beg <= o0 <= o <= |out| == |out0| && 1 <= dist <= |p| + (o0 - beg)
    && IsMatch(History(p, out0, beg, o0), dist, o - o0, History(p, out, beg, o))
    && (forall i | 0 <= i < o0 || o <= i < |out| :: out[i] == out0[i])
  }

  lemma {:induction false} NothingCopied(p: seq<int>, out0: seq<int>, beg: int, o0: int, dist: int)
    requires 0 <= beg <= o0 <= |out0| && 1 <= dist <= |p| + (o0 - beg)
    ensures Copying(p, out0, out0, beg, o0, o0, dist)
  {
  }

  /** One more byte, the one dist back in the history. */
  lemma {:induction false} OneCopied(p: seq<int>, out0: seq<int>, out: seq<int>, beg: int, o0: int, o: int, dist: int,
    c: int)
    requires Copying(p, out0, out, beg, o0, o, dist) && o < |out|
    requires c == History(p, out, beg, o)[|p| + (o - beg) - dist]
    ensures Copying(p, out0, out[o := c], beg, o0, o + 1, dist)
  {
    var h, r, r' := History(p, out0, beg, o0), History(p, out, beg, o), History(p, out[o := c], beg, o + 1);
    assert r' == r + [c];
  }

  lemma {:induction false} CopyingRange(p: seq<int>, out0: seq<int>, out: seq<int>, beg: int, o0: int, o: int,
    dist: int)
    requires Copying(p, out0, out, beg, o0, o, dist)
    ensures 0 <= beg <= o0 <= o <= |out| == |out0| && 1 <= dist <= |p| + (o0 - beg)
  {
  }

  /** The next n bytes of the match stand at f, in the window, or it is the output that is dist back. */
  ghost predicate Source(p: seq<int>, w: seq<int>, inWindow: bool, f: int, beg: int, o: int, dist: int, n: int) {
    if inWindow then
      var a := |p| + (o - beg) - dist;
      && 0 <= n && 0 <= f && f + n <= |w| && 0 <= a && a + n <= |p|
      && (forall i | f <= i < f + n :: w[i] == p[a + (i - f)])
    else beg <= f == o - dist
  }

  lemma {:induction false} SourceStep(p: seq<int>, w: seq<int>, inWindow: bool, f: int, beg: int, o: int, dist: int,
    n: int)
    requires Source(p, w, inWindow, f, beg, o, dist, n) && n > 0
    ensures Source(p, w, inWindow, f + 1, beg, o + 1, dist, n - 1)
    ensures inWindow ==> 0 <= f < |w| && 0 <= |p| + (o - beg) - dist < |p| && w[f] == p[|p| + (o - beg) - dist]
    ensures !inWindow ==> beg <= f == o - dist
  {
  }

  /** One more byte of the match is copied; the source still points at the byte dist back. */
  method CopyByte(window: array<int>, out: array<int>, o: int, f: int, inWindow: bool, ghost p: seq<int>,
    ghost out0: seq<int>, ghost beg: int, ghost o0: int, ghost dist: int, ghost n: int)
    requires window != out && Copying(p, out0, out[..], beg, o0, o, dist) && o < out.Length
    requires Source(p, window[..], inWindow, f, beg, o, dist, n) && n > 0
    modifies out
    ensures Copying(p, out0, out[..], beg, o0, o + 1, dist) &&
      Source(p, window[..], inWindow, f + 1, beg, o + 1, dist, n - 1)
  {
    hide Copying, IsMatch, Source;
    ghost var before := out[..];
    CopyingRange(p, out0, before, beg, o0, o, dist);
    SourceStep(p, window[..], inWindow, f, beg, o, dist, n);
    ghost var at := |p| + (o - beg) - dist;
    var c;
    if inWindow {
      c := window[f];
      assert History(p, before, beg, o)[at] == p[at];
    } else {
      c := out[f];
      assert History(p, before, beg, o)[at] == before[beg..o][o - beg - dist] == before[f];
    }
    OneCopied(p, out0, before, beg, o0, o, dist, c);
    out[o] := c;
    assert out[..] == before[o := c];
  }

  /** op bytes, one by one. */
  method CopySome(window: array<int>, out: array<int>, o: int, f: int, op0: int, ghost p: seq<int>,
    ghost out0: seq<int>, ghost beg: int, ghost o0: int, ghost dist: int)
    returns (o': int)
    requires window != out && Copying(p, out0, out[..], beg, o0, o, dist) && op0 > 0 && o + op0 <= out.Length
    requires Source(p, window[..], true, f, beg, o, dist, op0)
    modifies out
    ensures o' == o + op0 && Copying(p, out0, out[..], beg, o0, o', dist)
  {
    hide Copying, Source;
    var op, from := op0, f;
    o' := o;
    while true
      invariant 0 < op <= op0 && o' == o + (op0 - op)
      invariant Copying(p, out0, out[..], beg, o0, o', dist) && Source(p, window[..], true, from, beg, o', dist, op)
      decreases op
    {
      CopyByte(window, out, o', from, true, p, out0, beg, o0, dist, op);
      o', from, op := o' + 1, from + 1, op - 1;
      if op == 0 { break; }
    }
  }

  /** Three bytes. */
  method CopyThree(window: array<int>, out: array<int>, o: int, f: int, inWindow: bool, ghost p: seq<int>,
    ghost out0: seq<int>, ghost beg: int, ghost o0: int, ghost dist: int, ghost n: int)
    requires window != out && Copying(p, out0, out[..], beg, o0, o, dist) && o + 3 <= out.Length
    requires Source(p, window[..], inWindow, f, beg, o, dist, n) && n >= 3
    modifies out
    ensures Copying(p, out0, out[..], beg, o0, o + 3, dist) &&
      Source(p, window[..], inWindow, f + 3, beg, o + 3, dist, n - 3)
  {
    hide Copying, Source;
    CopyByte(window, out, o, f, inWindow, p, out0, beg, o0, dist, n);
    CopyByte(window, out, o + 1, f + 1, inWindow, p, out0, beg, o0, dist, n - 1);
    CopyByte(window, out, o + 2, f + 2, inWindow, p, out0, beg, o0, dist, n - 2);
  }

  /** What is left of the match, three bytes at a time. */
  method CopyRest(window: array<int>, out: array<int>, o: int, f: int, inWindow: bool, len0: int, ghost p: seq<int>,
    ghost out0: seq<int>, ghost beg: int, ghost o0: int, ghost dist: int)
    returns (o': int)
    requires window != out && Copying(p, out0, out[..], beg, o0, o, dist) && 0 <= len0 && o + len0 <= out.Length
    requires Source(p, window[..], inWindow, f, beg, o, dist, len0)
    modifies out
    ensures o' == o + len0 && Copying(p, out0, out[..], beg, o0, o', dist)
  {
    hide Copying, Source;
    var len, from := len0, f;
    o' := o;
    while len > 2
      invariant 0 <= len <= len0 && o' == o + (len0 - len)
      invariant Copying(p, out0, out[..], beg, o0, o', dist) &&
        Source(p, window[..], inWindow, from, beg, o', dist, len)
    {
      CopyThree(window, out, o', from, inWindow, p, out0, beg, o0, dist, len);
      o', from, len := o' + 3, from + 3, len - 3;
    }
    if len > 0 {
      CopyByte(window, out, o', from, inWindow, p, out0, beg, o0, dist, len);
      o', from := o' + 1, from + 1;
      if len > 1 {
        CopyByte(window, out, o', from, inWindow, p, out0, beg, o0, dist, len - 1);
        o' := o' + 1;
      }
    }
  }

  // ---- where in the window

  /**
   * n bytes from k back in the window, k being more than what stands in front of wnext: they are in the window's far
   * part.
   */
  lemma {:induction false} FarPart(w: seq<int>, wsize: int, whave: int, wnext: int, beg: int, o: int, dist: int, k: int,
    n: int)
    requires IsWindow(w, wsize, whave, wnext) && k == dist - (o - beg) && wnext < k <= whave && 0 <= n <= k - wnext
    ensures Source(Past(w, wsize, whave, wnext), w, true, wsize + wnext - k, beg, o, dist, n)
  {
    var p := Past(w, wsize, whave, wnext);
    forall i | wsize + wnext - k <= i < wsize + wnext - k + n ensures w[i] == p[whave - k + (i - (wsize + wnext - k))] {
      PastAt(w, wsize, whave, wnext, wsize + wnext - i);
    }
  }

  /** In the part in front of wnext. */
  lemma {:induction false} NearPart(w: seq<int>, wsize: int, whave: int, wnext: int, beg: int, o: int, dist: int,
    k: int, n: int)
    requires IsWindow(w, wsize, whave, wnext) && k == dist - (o - beg) && 1 <= k <= wnext && k <= whave && 0 <= n <= k
    ensures Source(Past(w, wsize, whave, wnext), w, true, wnext - k, beg, o, dist, n)
  {
    var p := Past(w, wsize, whave, wnext);
    forall i | wnext - k <= i < wnext - k + n ensures w[i] == p[whave - k + (i - (wnext - k))] {
      PastAt(w, wsize, whave, wnext, wnext - i);
    }
  }

  /** Once the window's bytes are used up, the match goes on at the beginning of the output. */
  lemma {:induction false} OutputPart(p: seq<int>, w: seq<int>, beg: int, o: int, dist: int, n: int)
    requires o - dist >= beg
    ensures Source(p, w, false, o - dist, beg, o, dist, n)
  {
  }

  // ---- the copy

  /**
   * The match copy of inflate_fast. A distance beyond all earlier output is an error; otherwise the output goes on with
   * just the bytes dist back in the whole history, whether they come from one part of the window, from both, from the
   * output, or from the match itself.
   */
  method CopyMatch(window: array<int>, wsize: int, whave: int, wnext: int, out: array<int>, beg: int, o: int, dist: int,
    len0: int)
    returns (o': int, tooFar: bool)
    requires window != out && IsWindow(window[..], wsize, whave, wnext)
    requires 0 <= beg <= o && 1 <= dist && 3 <= len0 && o + len0 <= out.Length
    modifies out
    ensures tooFar <==> dist > whave + (o - beg)
    ensures tooFar ==> o' == o && out[..] == old(out[..])
    ensures !tooFar ==> o' == o + len0 && forall i | 0 <= i < o || o' <= i < out.Length :: out[i] == old(out[i])
    ensures !tooFar ==>
      var p := Past(window[..], wsize, whave, wnext);
      History(p, out[..], beg, o') == Extended(History(p, old(out[..]), beg, o), dist, len0)
  {
    hide Copying, Source, IsWindow, Past;
    ghost var w, out0 := window[..], out[..];
    PastSize(w, wsize, whave, wnext);
    ghost var p := Past(w, wsize, whave, wnext);
    var op := o - beg;
    tooFar := false;
    if dist > op {
      op := dist - op;
      if op > whave { return o, true; }
      NothingCopied(p, out0, beg, o, dist);
      o' := CopyFromWindow(window, wsize, whave, wnext, out, beg, o, dist, len0, op, p);
    } else {
      NothingCopied(p, out0, beg, o, dist);
      OutputPart(p, w, beg, o, dist, len0);
      CopyThree(window, out, o, o - dist, false, p, out0, beg, o, dist, len0);
      o' := CopyRest(window, out, o + 3, o + 3 - dist, false, len0 - 3, p, out0, beg, o, dist);
    }
    Copied(p, out0, out[..], beg, o, o', dist, len0);
  }

  lemma {:induction false} PastSize(w: seq<int>, wsize: int, whave: int, wnext: int)
    requires IsWindow(w, wsize, whave, wnext)
    ensures |Past(w, wsize, whave, wnext)| == whave && 0 <= whave <= wsize <= |w| && (wnext == 0 || 0 < wnext <= whave)
    ensures whave < wsize ==> wnext == whave
  {
  }

  lemma {:induction false} Copied(p: seq<int>, out0: seq<int>, out: seq<int>, beg: int, o0: int, o: int, dist: int,
    len: nat)
    requires Copying(p, out0, out, beg, o0, o, dist) && len == o - o0
    ensures History(p, out, beg, o) == Extended(History(p, out0, beg, o0), dist, len)
    ensures forall i | 0 <= i < o0 || o <= i < |out| :: out[i] == out0[i]
  {
    MatchIs(History(p, out0, beg, o0), dist, len, History(p, out, beg, o));
  }

  /** A match that begins op back in the window. */
  method CopyFromWindow(window: array<int>, wsize: int, whave: int, wnext: int, out: array<int>, beg: int, o0: int,
    dist: int, len0: int, op0: int, ghost p: seq<int>)
    returns (o: int)
    requires window != out && IsWindow(window[..], wsize, whave, wnext) && p == Past(window[..], wsize, whave, wnext)
    requires 0 <= beg <= o0 && 3 <= len0 && o0 + len0 <= out.Length && op0 == dist - (o0 - beg) && 1 <= op0 <= whave
    requires Copying(p, out[..], out[..], beg, o0, o0, dist)
    modifies out
    ensures o == o0 + len0 && Copying(p, old(out[..]), out[..], beg, o0, o, dist)
  {
    hide Copying, Source, IsWindow, Past;
    ghost var w, out0 := window[..], out[..];
    PastSize(w, wsize, whave, wnext);
    var op, len, f, inWindow := op0, len0, 0, true;
    o := o0;
    if wnext == 0 {
      f := f + (wsize - op);
      FarPart(w, wsize, whave, wnext, beg, o, dist, op, if op < len then op else len);
      if op < len {
        len := len - op;
        o := CopySome(window, out, o, f, op, p, out0, beg, o0, dist);
        f, inWindow := o - dist, false;
        OutputPart(p, w, beg, o, dist, len);
      }
    } else if wnext < op {
      f := f + (wsize + wnext - op);
      op := op - wnext;
      FarPart(w, wsize, whave, wnext, beg, o, dist, op + wnext, if op < len then op else len);
      if op < len {
        len := len - op;
        o := CopySome(window, out, o, f, op, p, out0, beg, o0, dist);
        f := 0;
        NearPart(w, wsize, whave, wnext, beg, o, dist, wnext, if wnext < len then wnext else len);
        if wnext < len {
          op := wnext;
          len := len - op;
          o := CopySome(window, out, o, f, op, p, out0, beg, o0, dist);
          f, inWindow := o - dist, false;
          OutputPart(p, w, beg, o, dist, len);
        }
      }
    } else {
      f := f + (wnext - op);
      NearPart(w, wsize, whave, wnext, beg, o, dist, op, if op < len then op else len);
      if op < len {
        len := len - op;
        o := CopySome(window, out, o, f, op, p, out0, beg, o0, dist);
        f, inWindow := o - dist, false;
        OutputPart(p, w, beg, o, dist, len);
      }
    }
    o := CopyRest(window, out, o, f, inWindow, len, p, out0, beg, o0, dist);
  }
}
