/** The match copy of inflate_fast: from the sliding window in any of its three layouts, then from the
    output itself, possibly overlapping what is being written. It refines the byte-by-byte LZ77 copy. */
module MatchCopy {
  import opened Lz77

  /** Where the byte d back from the start of the output buffer lies in the window. */
  function WindowIndex(wsize: nat, wnext: nat, d: nat): int
  {
    if d <= wnext then wnext - d else wsize + wnext - d
  }

  /** The window holds the last whave bytes of the history, as far as they lie at index low or above; it is full,
      or has not wrapped yet. */
  ghost predicate WindowHolds(w: seq<byte>, wsize: nat, whave: nat, wnext: nat, hist: seq<byte>, low: nat)
  {
    && |w| == wsize && whave <= wsize && whave <= |hist| && wnext <= wsize
    && (whave == wsize || whave == wnext)
    && forall d :: 1 <= d <= whave ==>
                     && 0 <= WindowIndex(wsize, wnext, d) < wsize
                     && (low <= WindowIndex(wsize, wnext, d) ==> w[WindowIndex(wsize, wnext, d)] == hist[|hist| - d])
  }

  /** How many bytes of the history the window holds. While inflateBack fills its window for the first time there is no
      history: whave counts output there. */
  function Known(same: bool, wsize: nat, whave: nat): nat
  {
    if same && whave < wsize then 0 else whave
  }

  /** The ways in which the window and the output lie: in arrays of their own, or, as inflateBack has it, in one, where
      the output fills the window for the first time or is written over the oldest part of a full one. */
  ghost predicate Layout(window: array<byte>, wsize: nat, whave: nat, wnext: nat, out: array<byte>, beg: nat, pos: nat,
                         hist: seq<byte>)
    reads window
  {
    && beg <= pos <= out.Length && whave <= wsize
    && WindowHolds(window[..], wsize, Known(window == out, wsize, whave), wnext, hist, if window == out then pos else 0)
    && (window == out ==> wnext == 0 && beg == 0 && (whave == wsize || (whave <= pos && hist == [])))
  }

  /** The output o after a forward copy of n bytes, from output o0 and source s0: from behind in the same array it sees
      its own writes, otherwise it does not. */
  ghost predicate Copied(s0: seq<byte>, o0: seq<byte>, same: bool, from: nat, o: seq<byte>, pos: nat, n: nat)
  {
    && from + n <= |s0| && pos + n <= |o0| == |o| && (same ==> s0 == o0)
    && (same && from < pos ==> forall i :: pos <= i < pos + n ==> o[i] == o[i - pos + from])
    && (!same || from >= pos ==> forall i :: pos <= i < pos + n ==> o[i] == s0[i - pos + from])
    && (forall i :: 0 <= i < pos || pos + n <= i < |o| ==> o[i] == o0[i])
  }

  /** *out++ = *from++, the byte after the first j. */
  method CopyOne(src: array<byte>, from: nat, out: array<byte>, pos: nat, j: nat, ghost s0: seq<byte>,
                 ghost o0: seq<byte>)
    requires from + j < src.Length && pos + j < out.Length && (src != out ==> src[..] == s0)
    requires |s0| == src.Length && Copied(s0, o0, src == out, from, out[..], pos, j)
    modifies out
    ensures Copied(s0, o0, src == out, from, out[..], pos, j + 1)
  {
    out[pos + j] := src[from + j];
  }

  /** do { *out++ = *from++; } while (--n). */
  method CopyBytes(src: array<byte>, from: nat, out: array<byte>, pos: nat, n: nat)
    requires from + n <= src.Length && pos + n <= out.Length
    modifies out
    ensures Copied(old(src[..]), old(out[..]), src == out, from, out[..], pos, n)
  {
    ghost var s0, o0 := src[..], out[..];
    for j := 0 to n
      invariant Copied(s0, o0, src == out, from, out[..], pos, j) && (src != out ==> src[..] == s0)
    {
      hide Copied;
      CopyOne(src, from, out, pos, j, s0, o0);
    }
  }

  /** The same, unrolled three times, with the last one or two bytes apart. */
  method CopyByThrees(src: array<byte>, from: nat, out: array<byte>, pos: nat, n: nat)
    requires from + n <= src.Length && pos + n <= out.Length
    modifies out
    ensures Copied(old(src[..]), old(out[..]), src == out, from, out[..], pos, n)
  {
    ghost var s0, o0 := src[..], out[..];
    var j := 0;
    while n - j > 2
      invariant 0 <= j <= n && Copied(s0, o0, src == out, from, out[..], pos, j) && (src != out ==> src[..] == s0)
    {
      hide Copied;
      CopyOne(src, from, out, pos, j, s0, o0);
      CopyOne(src, from, out, pos, j + 1, s0, o0);
      CopyOne(src, from, out, pos, j + 2, s0, o0);
      j := j + 3;
    }
    hide Copied;
    if n > j {
      CopyOne(src, from, out, pos, j, s0, o0);
      if n - j > 1 {
        CopyOne(src, from, out, pos, j + 1, s0, o0);
      }
    }
  }

  /** Byte i of the output comes from dist back: from the output, or from the window before it. */
  ghost predicate FromBack(w: seq<byte>, wsize: nat, wnext: nat, out: seq<byte>, beg: nat, dist: nat, i: nat)
    requires beg <= i < |out| && |w| == wsize
  {
    if i >= beg + dist then out[i] == out[i - dist]
    else
      var x := WindowIndex(wsize, wnext, beg + dist - i);
      0 <= x < wsize && out[i] == w[x]
  }

  /** A match that begins in the part of the window that is about to be overwritten, at its end. */
  method CopyWrapped(window: array<byte>, wsize: nat, whave: nat, wnext: nat, out: array<byte>, beg: nat, pos: nat,
                     len: nat, dist: nat, ghost hist: seq<byte>)
    requires window != out && Layout(window, wsize, whave, wnext, out, beg, pos, hist)
    requires pos + len <= out.Length && 3 <= len && wnext < dist - (pos - beg) <= whave
    modifies out
    ensures Matched(old(window[..]), wsize, wnext, old(out[..]), out[..], beg, pos, len, dist)
  {
    var op := dist - (pos - beg);
    var wrap := op - wnext;
    if wrap < len {
      CopyBytes(window, wsize + wnext - op, out, pos, wrap);
      if wnext < len - wrap {
        CopyBytes(window, 0, out, pos + wrap, wnext);
        CopyByThrees(out, pos + op - dist, out, pos + op, len - op);
      } else {
        CopyByThrees(window, 0, out, pos + wrap, len - wrap);
      }
    } else {
      CopyByThrees(window, wsize + wnext - op, out, pos, len);
    }
  }

  /** A match that begins in a part of the window that ends at top, where the output begins. */
  method CopyFrom(window: array<byte>, wsize: nat, whave: nat, wnext: nat, top: nat, out: array<byte>, beg: nat,
                  pos: nat, len: nat, dist: nat, ghost hist: seq<byte>)
    requires Layout(window, wsize, whave, wnext, out, beg, pos, hist)
    requires if wnext == 0 then top == wsize else top == wnext
    requires pos + len <= out.Length && 3 <= len && 0 < dist - (pos - beg) <= top
    modifies out
    ensures Kept(old(out[..]), out[..], pos, len)
    ensures (window == out ==> dist <= wsize) ==>
              Matched(old(window[..]), wsize, wnext, old(out[..]), out[..], beg, pos, len, dist)
  {
    hide *;
    LayoutLow(window, wsize, whave, wnext, out, beg, pos, hist);
    ghost var w, o := window[..], out[..];
    var op := dist - (pos - beg);
    if op < len {
      CopyBytes(window, top - op, out, pos, op);
      ghost var o' := out[..];
      CopiedKeeps(w, o, window == out, top - op, o', pos, op);
      CopyByThrees(out, pos + op - dist, out, pos + op, len - op);
      CopiedKeeps(o', o', true, pos + op - dist, out[..], pos + op, len - op);
      KeptBoth(o, o', out[..], pos, op, len - op);
      if window == out ==> dist <= wsize {
        SomeThenRest(w, o, window == out, wsize, wnext, top, o', out[..], beg, pos, len, dist);
      }
    } else {
      CopyByThrees(window, top - op, out, pos, len);
      CopiedKeeps(w, o, window == out, top - op, out[..], pos, len);
      if window == out ==> dist <= wsize {
        AllFrom(w, o, window == out, wsize, wnext, top, out[..], beg, pos, len, dist);
      }
    }
  }

  /** Nothing but the len bytes from pos on was written. */
  ghost predicate Kept(o: seq<byte>, o': seq<byte>, pos: nat, len: nat)
  {
    pos + len <= |o'| == |o| && forall i :: 0 <= i < pos || pos + len <= i < |o| ==> o'[i] == o[i]
  }

  lemma CopiedKeeps(s0: seq<byte>, o0: seq<byte>, same: bool, from: nat, o: seq<byte>, pos: nat, n: nat)
    requires Copied(s0, o0, same, from, o, pos, n)
    ensures Kept(o0, o, pos, n)
  {
  }

  lemma KeptBoth(o: seq<byte>, o1: seq<byte>, o2: seq<byte>, pos: nat, a: nat, b: nat)
    requires Kept(o, o1, pos, a) && Kept(o1, o2, pos + a, b)
    ensures Kept(o, o2, pos, a + b)
  {
  }

  lemma LayoutLow(window: array<byte>, wsize: nat, whave: nat, wnext: nat, out: array<byte>, beg: nat, pos: nat,
                  hist: seq<byte>)
    requires Layout(window, wsize, whave, wnext, out, beg, pos, hist)
    ensures window.Length == wsize && wnext <= wsize && beg <= pos <= out.Length
    ensures window == out ==> wnext == 0 && beg == 0
  {
  }

  /** All of a match, and nothing else, was copied from dist back. */
  ghost predicate Matched(w: seq<byte>, wsize: nat, wnext: nat, o: seq<byte>, o': seq<byte>, beg: nat, pos: nat,
                          len: nat, dist: nat)
  {
    && |w| == wsize && beg <= pos && Kept(o, o', pos, len)
    && forall i :: pos <= i < pos + len ==> FromBack(w, wsize, wnext, o', beg, dist, i)
  }

  lemma AllFrom(w: seq<byte>, o: seq<byte>, same: bool, wsize: nat, wnext: nat, top: nat, o': seq<byte>, beg: nat,
                pos: nat, len: nat, dist: nat)
    requires |w| == wsize && (if wnext == 0 then top == wsize else top == wnext) && wnext <= wsize
    requires beg <= pos && 0 < len <= dist - (pos - beg) <= top && (same ==> wnext == 0 && beg == 0 && dist <= wsize)
    requires Copied(w, o, same, top - (dist - (pos - beg)), o', pos, len)
    ensures Matched(w, wsize, wnext, o, o', beg, pos, len, dist)
  {
  }

  lemma SomeThenRest(w: seq<byte>, o: seq<byte>, same: bool, wsize: nat, wnext: nat, top: nat, o1: seq<byte>,
                     o2: seq<byte>, beg: nat, pos: nat, len: nat, dist: nat)
    requires |w| == wsize && (if wnext == 0 then top == wsize else top == wnext) && wnext <= wsize
    requires beg <= pos && 0 < dist - (pos - beg) < len && dist - (pos - beg) <= top
    requires same ==> wnext == 0 && beg == 0 && dist <= wsize
    requires Copied(w, o, same, top - (dist - (pos - beg)), o1, pos, dist - (pos - beg))
    requires Copied(o1, o1, true, beg, o2, beg + dist, len - (dist - (pos - beg)))
    ensures Matched(w, wsize, wnext, o, o2, beg, pos, len, dist)
  {
    AllFrom(w, o, same, wsize, wnext, top, o1, beg, pos, dist - (pos - beg), dist);
  }

  /** Copy a match of len bytes from dist back. If it reaches further than output and window together, which only the
      unchecked code of inflateBack lets through, the bytes are still taken from within the window. */
  method CopyMatch(window: array<byte>, wsize: nat, whave: nat, wnext: nat, out: array<byte>, beg: nat, pos: nat,
                   len: nat, dist: nat, ghost hist: seq<byte>)
    requires Layout(window, wsize, whave, wnext, out, beg, pos, hist)
    requires pos + len <= out.Length && 3 <= len && 1 <= dist <= pos - beg + (if window == out then wsize else whave)
    modifies out
    ensures Kept(old(out[..]), out[..], pos, len)
    ensures (window == out ==> dist <= wsize) ==>
              Matched(old(window[..]), wsize, wnext, old(out[..]), out[..], beg, pos, len, dist)
  {
    var op := pos - beg;
    if dist > op {
      op := dist - op;
      if wnext == 0 {
        CopyFrom(window, wsize, whave, wnext, wsize, out, beg, pos, len, dist, hist);
      } else if wnext < op {
        CopyWrapped(window, wsize, whave, wnext, out, beg, pos, len, dist, hist);
      } else {
        CopyFrom(window, wsize, whave, wnext, wnext, out, beg, pos, len, dist, hist);
      }
    } else {
      ghost var o := out[..];
      CopyByThrees(out, pos - dist, out, pos, len);
      CopiedKeeps(o, o, true, pos - dist, out[..], pos, len);
    }
  }

  /** The copy is the LZ77 copy on the history followed by the output. */
  lemma CopyMeaning(w: seq<byte>, wsize: nat, known: nat, wnext: nat, hist: seq<byte>, o: seq<byte>, o': seq<byte>,
                    beg: nat, pos: nat, len: nat, dist: nat, low: nat)
    requires WindowHolds(w, wsize, known, wnext, hist, low)
    requires low == 0 || (low == pos && wnext == 0 && beg == 0 && dist <= wsize)
    requires |o'| == |o| && beg <= pos && pos + len <= |o| && 1 <= dist <= pos - beg + known
    requires o'[..pos] == o[..pos]
    requires forall i :: pos <= i < pos + len ==> FromBack(w, wsize, wnext, o', beg, dist, i)
    ensures hist + o'[beg..pos + len] == Copy(hist + o[beg..pos], dist, len)
  {
    var h, r := hist + o[beg..pos], hist + o'[beg..pos + len];
    assert r[..|h|] == h by {
      forall i | 0 <= i < |h| ensures r[i] == h[i] {
        if i >= |hist| { assert o'[..pos][i - |hist| + beg] == o[..pos][i - |hist| + beg]; }
      }
    }
    forall i | |h| <= i < |r| ensures r[i] == r[i - dist] {
      var j := i - |hist| + beg;
      assert FromBack(w, wsize, wnext, o', beg, dist, j);
      assert r[i] == o'[j];
      if j >= beg + dist {
        assert r[i - dist] == o'[j - dist];
      } else {
        var d := beg + dist - j;
        assert w[WindowIndex(wsize, wnext, d)] == hist[|hist| - d];
      }
    }
    CopyUnique(h, dist, len, r);
  }
}
