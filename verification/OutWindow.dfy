/** The output side of inflateBack: a circular window that is handed to out() each time it fills. */
module OutWindow {
  import opened Lz77

  class Window {
    const window: array<byte>
    /** Whether inflate_fast checks distances: inflateBackInit leaves it as it finds it. */
    const sane: bool
    var put: nat
    var left: nat
    var whave: nat
    /** Everything handed to out() so far. */
    ghost var given: seq<byte>

    /** The part of the window beyond put is, once the window has wrapped, the end of what was handed out. Before that
        whave counts at most the output so far. */
    ghost predicate Valid()
      reads this, window
    {
      && put + left == window.Length && 1 <= window.Length
      && (whave == window.Length || (whave <= put && given == []))
      && (whave == window.Length ==> |given| >= window.Length && window[put..] == given[|given| - left..])
    }

    /** All output: what was handed out, then what is in the window. */
    ghost function Output(): seq<byte>
      reads this, window
      requires put <= window.Length
    {
      given + window[..put]
    }

    /** How far back a match may reach: the test on the offset. */
    function Reachable(): nat
      reads this
      requires left <= window.Length
    {
      window.Length - (if whave < window.Length then left else 0)
    }

    constructor (buffer: array<byte>, sane: bool)
      requires 1 <= buffer.Length
      ensures Valid() && Output() == [] && window == buffer && this.sane == sane
    {
      window := buffer;
      this.sane := sane;
      put, left, whave, given := 0, buffer.Length, 0, [];
    }

    /** Where the byte d back stands. */
    function Source(d: nat): int
      reads this
    {
      if d <= put then put - d else put + window.Length - d
    }

    /** Everything within reach was produced, and stands where the copy looks for it. */
    lemma Back(d: nat)
      requires Valid() && 1 <= d <= Reachable()
      ensures d <= |Output()| && 0 <= Source(d) < window.Length
      ensures Output()[|Output()| - d] == window[Source(d)]
    {
      if d > put {
        var k := put + window.Length - d;
        assert window[k] == window[put..][k - put] == given[|given| - left..][k - put];
      }
    }

    /** Hand the window to out() if it is full. If out() fails, what it has was produced. */
    method Room() returns (ok: bool)
      requires Valid()
      modifies this
      ensures ok ==> Valid() && 0 < left && Output() == old(Output()) && Reachable() >= old(Reachable())
      ensures ok && old(left) > 0 ==> put == old(put)
      ensures !ok ==> given == old(given)
    {
      ok := true;
      if left == 0 {
        var failed: bool := *;
        ghost var all := window[..];
        assert window[..put] == all;
        put := 0;
        left := window.Length;
        whave := left;
        if failed {
          ok := false;
        } else {
          given := given + all;
          assert window[..0] == [] && window[0..] == all;
          assert given[|given| - left..] == all;
        }
      }
    }

    /** *put++ = b; left--. */
    method Put(b: byte)
      requires Valid() && 0 < left
      modifies this`put, this`left, window
      ensures Valid() && Output() == old(Output()) + [b] && left == old(left) - 1 && put == old(put) + 1
      ensures Reachable() >= old(Reachable()) && whave == old(whave)
      ensures forall k :: 0 <= k < window.Length && k != old(put) ==> window[k] == old(window[k])
    {
      ghost var w, p := window[..], put;
      window[put] := b;
      put := put + 1;
      left := left - 1;
      assert window[..] == w[p := b];
      PutKeeps(w, p, b, given);
    }

    /** Storing a byte at p adds it to the prefix and drops the first byte of the rest. */
    static lemma PutKeeps(w: seq<byte>, p: nat, b: byte, g: seq<byte>)
      requires p < |w|
      ensures w[p := b][..p + 1] == w[..p] + [b]
      ensures |g| >= |w| && w[p..] == g[|g| - (|w| - p)..] ==> w[p := b][p + 1..] == g[|g| - (|w| - p - 1)..]
    {
      if |g| >= |w| && w[p..] == g[|g| - (|w| - p)..] {
        assert w[p := b][p + 1..] == w[p..][1..] == g[|g| - (|w| - p)..][1..];
      }
    }

    /** zmemcpy(put, next, copy) and the updates after it. */
    method PutAll(bs: seq<byte>)
      requires Valid() && |bs| <= left
      modifies this`put, this`left, window
      ensures Valid() && Output() == old(Output()) + bs && left == old(left) - |bs|
    {
      ghost var h := Output();
      InRange();
      assert h + bs[..0] == h;
      hide Valid, Output;
      for k := 0 to |bs|
        invariant Valid() && left == old(left) - k && put == old(put) + k && put <= window.Length
        invariant Output() == h + bs[..k]
      {
        InRange();
        Put(bs[k]);
        InRange();
        assert bs[..k + 1] == bs[..k] + [bs[k]];
      }
      assert bs[..|bs|] == bs;
    }

    method Literal(b: byte) returns (ok: bool)
      requires Valid()
      modifies this, window
      ensures ok ==> Valid() && Output() == old(Output()) + [b]
      ensures !ok ==> given == old(given)
    {
      ok := Room();
      if ok { Put(b); }
    }

    /** Copy n bytes from index from on, where the byte off back stands now, without passing the end of
        the window. */
    method CopyRun(from: nat, off: nat, n: nat)
      requires Valid() && 1 <= off <= Reachable() && n <= left
      requires from == Source(off) && (off <= put || n <= off - put)
      modifies this`put, this`left, window
      ensures Valid() && Reachable() >= old(Reachable()) && left == old(left) - n
      ensures off <= |old(Output())| && Output() == Copy(old(Output()), off, n)
    {
      hide Valid, Output, Copy;
      InRange();
      Back(off);
      ghost var h := Output();
      ghost var reach := Reachable();
      CopyNone(h, off);
      for k := 0 to n
        invariant left == old(left) - k && put == old(put) + k && put + left == window.Length
        invariant Valid() && reach <= Reachable()
        invariant Output() == Copy(h, off, k)
      {
        InRange();
        Back(off);
        CopyOne(h, off, k);
        Put(window[from + k]);
      }
    }

    static lemma CopyNone(h: seq<byte>, off: nat)
      requires 1 <= off <= |h|
      ensures Copy(h, off, 0) == h
    {
    }

    static lemma CopyOne(h: seq<byte>, off: nat, k: nat)
      requires 1 <= off <= |h|
      ensures var r := Copy(h, off, k); Copy(h, off, k + 1) == r + [r[|r| - off]]
    {
    }

    /** One round of the copy loop: make room, then copy up to the end of the window or of the source. */
    method CopyRound(off: nat, len: nat) returns (ok: bool, copy: nat)
      requires Valid() && 1 <= off <= Reachable() && 1 <= len
      modifies this, window
      ensures ok ==> Valid() && Reachable() >= old(Reachable()) && 1 <= copy <= len
      ensures off <= |old(Output())| && (ok ==> Output() == Copy(old(Output()), off, copy))
      ensures !ok ==> given <= old(Output())
    {
      Back(off);
      assert given <= Output();
      copy := 0;
      ok := Room();
      if !ok { return; }
      copy := window.Length - off;
      var from;
      if copy < left {
        from := put + copy;
        copy := left - copy;
      } else {
        from := put - off;
        copy := left;
      }
      if copy > len { copy := len; }
      hide Copy, Output;
      CopyRun(from, off, copy);
    }

    /** Copy a match; the source may be before the window start, and may overlap what is written. */
    method Match(length: nat, off: nat) returns (ok: bool)
      requires Valid() && 1 <= off <= Reachable()
      modifies this, window
      ensures ok ==> Valid() && Reachable() >= old(Reachable())
      ensures off <= |old(Output())| && (ok ==> Output() == Copy(old(Output()), off, length))
      ensures !ok ==> given <= Copy(old(Output()), off, length)
    {
      hide Valid, Output, Copy;
      InRange();
      Back(off);
      ghost var h := Output();
      ghost var done: nat := 0;
      var len: nat := length;
      ok := true;
      ghost var reach := Reachable();
      CopyNone(h, off);
      while len != 0
        invariant done + len == length && left <= window.Length && put <= window.Length
        invariant Valid() && off <= reach <= Reachable()
        invariant Output() == Copy(h, off, done)
      {
        var copy;
        ok, copy := CopyRound(off, len);
        if !ok {
          CopyGrows(h, off, done, length);
          return;
        }
        InRange();
        CopyCopy(h, off, done, copy);
        done := done + copy;
        len := len - copy;
      }
    }

    /** Hand out what is left in the window. */
    method Flush() returns (ok: bool)
      requires Valid()
      modifies this`given
      ensures given == if ok then old(Output()) else old(given)
    {
      ok := true;
      if left < window.Length {
        if * {
          ok := false;
        } else {
          given := given + window[..window.Length - left];
        }
      }
    }

    lemma InRange()
      requires Valid()
      ensures left <= window.Length && put <= window.Length && put + left == window.Length
    {
    }

    static lemma CopyGrows(h: seq<byte>, off: nat, a: nat, b: nat)
      requires 1 <= off <= |h| && a <= b
      ensures Copy(h, off, a) <= Copy(h, off, b)
    {
      CopyCopy(h, off, a, b - a);
      CopyExtends(Copy(h, off, a), off, b - a);
    }
  }
}
