/** inflateBack: block dispatch, stored blocks, dynamic headers, and the literal/length loop, from a bit source to a
    window. inflate_fast does the work where it can. */
module InflateBack {
  import opened Common
  import opened Bits
  import opened Huffman
  import opened DecodeTable
  import opened Lz77
  import opened BitReader
  import opened BlockData
  import opened DeflateFormat
  import opened BitSource
  import opened OutWindow
  import opened InflateTable
  import opened InflateHeader
  import opened DeflateUnique
  import opened DeflateRefusal
  import opened DeflateReading
  import opened DeflateStray
  import opened MatchCopy
  import InflateFast

  // ---------------------------------------------------------------- coded data

  /** One literal/length code, with its extra bits and distance if it is a length. */
  method NextItem(src: Source, t: Tables, ghost ll: seq<nat>, ghost dl: seq<nat>) returns (ok: bool, item: Item)
    requires src.Valid() && Ready(t, ll, dl)
    modifies src
    ensures src.Valid() && src.n >= old(src.n)
    ensures ok && (item.Tok? || item == EndOfBlock) ==> ItemAt(ll, dl, old(src.Rest()), item, src.n - old(src.n))
    ensures ok && (item == BadLength || item == BadDistance) ==> ItemAt(ll, dl, old(src.Rest()), item, 0)
    ensures ok && item.Tok? && item.t.Match? ==> 3 <= item.t.len <= 258 && 1 <= item.t.dist
    ensures !ok ==> NoItem(ll, dl, old(src.Rest()), 8 * |src.input| - old(src.n))
    ensures ok && old(src.bits) < 8 ==> src.bits < 8
  {
    hide *;
    ReadyParts(t, ll, dl);
    ghost var z, r := src.Rest(), 8 * |src.input| - src.n;
    item := BadLength;
    var here, x;
    ghost var k;
    ghost var e, k0, l := LengthEntry(t.lcode, t.lenbits, ll, z);
    ok, here, k := src.GetCode(t.lcode, t.lenbits, LENS, ll);
    if !ok {
      StarvedLength(ll, dl, z, e, k0, l, r);
    } else if here.op == 0 || !IsBase(here) {
      PlainItemAt(ll, dl, z, e, k, l);
      item := PlainItem(here);
    } else {
      ExtraAtMost(ll, z, e, k, l);
      ok, x := src.Take(ExtraBits(here));
      if !ok {
        StarvedLength(ll, dl, z, e, k, l, r);
      } else {
        LengthFound(ll, z, e, k, l, x);
        var len := here.val + x;
        ghost var a := k + ExtraBits(here);
        HighHigh(z, k, ExtraBits(here));
        ok, item := Distance(src, t, len, z, l, a, ll, dl);
      }
    }
  }

  lemma ReadyParts(t: Tables, ll: seq<nat>, dl: seq<nat>)
    requires Ready(t, ll, dl)
    ensures BlockCodes(ll, dl) && t.lenbits <= MAXBITS && t.distbits <= MAXBITS
    ensures |ll| <= MaxSymbols(LENS) && |dl| <= MaxSymbols(DISTS)
    ensures Decodes(t.lcode, t.lenbits, LENS, ll) && Decodes(t.dcode, t.distbits, DISTS, dl)
    ensures |ll| <= 288 && |dl| <= 32 && ValidLengths(ll) && ValidLengths(dl)
  {
    hide Decodes, Kraft, ValidLengths;
  }

  /** Too few bits for a code, or for the extra bits of a length. */
  lemma StarvedLength(ll: seq<nat>, dl: seq<nat>, z: nat, e: Code, k: nat, l: nat, r: int)
    requires BlockCodes(ll, dl) && LengthMeans(ll, z, e, k, l)
    requires k > r || (e.op != 0 && IsBase(e) && k + ExtraBits(e) > r)
    ensures NoItem(ll, dl, z, r)
  {
    hide BlockCodes, LengthMeans, ItemAt;
    forall item: Item, n: nat | (item.Tok? || item == EndOfBlock) && ItemAt(ll, dl, z, item, n) ensures n > r {
      ItemNeeds(ll, dl, z, item, n, e, k, l);
    }
  }

  /** Too few bits for a distance. */
  lemma StarvedDistance(ll: seq<nat>, dl: seq<nat>, z: nat, l: nat, len: nat, a: nat, e: Code, k: nat, d: nat, r: int)
    requires BlockCodes(ll, dl) && LengthAt(ll, z, l, len, a)
    requires !IsBase(e) ==> Undecodable(dl, High(z, a), 30)
    requires IsBase(e) ==>
              d < 30 && d < |dl| && Matches(dl, d, High(z, a)) && k == dl[d] && ExtraBits(e) == ExtraDist(d)
    requires a + k > r || (IsBase(e) && a + k + ExtraBits(e) > r)
    ensures NoItem(ll, dl, z, r)
  {
    hide BlockCodes, ItemAt, LengthAt, Undecodable, Matches, ExtraDist, Low, High;
    forall item: Item, n: nat | (item.Tok? || item == EndOfBlock) && ItemAt(ll, dl, z, item, n) ensures n > r {
      PairNeeds(ll, dl, z, item, n, l, len, a, d);
    }
  }

  lemma DistanceFound(ll: seq<nat>, dl: seq<nat>, z: nat, l: nat, len: nat, a: nat, e: Code, k: nat, d: nat, x: nat)
    requires LengthAt(ll, z, l, len, a)
    requires d < 30 && d < |dl| && Matches(dl, d, High(z, a)) && k == dl[d]
    requires e.val == DBASE[d] && ExtraBits(e) == ExtraDist(d) && x == Low(High(High(z, a), k), ExtraBits(e))
    ensures ItemAt(ll, dl, z, Tok(Match(len, e.val + x)), a + k + ExtraBits(e)) && 1 <= e.val + x
  {
    hide Low, High, LengthAt, Matches, ExtraDist;
    DistanceRange(d, x);
    assert DistanceAt(dl, High(z, a), d, e.val + x, k + ExtraBits(e));
    assert a + k + ExtraBits(e) == a + (k + ExtraBits(e));
  }

  method Distance(src: Source, t: Tables, len: nat,
                  ghost z: nat, ghost l: nat, ghost a: nat, ghost ll: seq<nat>, ghost dl: seq<nat>)
    returns (ok: bool, item: Item)
    requires src.Valid() && Ready(t, ll, dl)
    requires LengthAt(ll, z, l, len, a) && src.Rest() == High(z, a)
    modifies src
    ensures src.Valid() && src.n >= old(src.n)
    ensures ok ==> item == BadDistance || (item.Tok? && item.t.Match? && item.t.len == len && 1 <= item.t.dist)
    ensures ok && item.Tok? ==> ItemAt(ll, dl, z, item, a + src.n - old(src.n))
    ensures ok && item == BadDistance ==> ItemAt(ll, dl, z, item, 0)
    ensures !ok ==> NoItem(ll, dl, z, 8 * |src.input| - old(src.n) + a)
    ensures ok && old(src.bits) < 8 ==> src.bits < 8
  {
    hide Ready, Decodes, Lookup, LengthAt, DistanceAt, Undecodable, Kraft, Source.Valid, Matches, NoItem, BlockCodes,
      ExtraDist;
    ReadyParts(t, ll, dl);
    ghost var r := 8 * |src.input| - src.n + a;
    item := BadDistance;
    var here, x;
    ghost var k;
    ghost var e, k0, d := DistanceEntry(t.dcode, t.distbits, dl, High(z, a));
    ok, here, k := src.GetCode(t.dcode, t.distbits, DISTS, dl);
    if !ok {
      StarvedDistance(ll, dl, z, l, len, a, e, k0, d, r);
    } else if IsBase(here) {
      ok, x := src.Take(ExtraBits(here));
      if !ok {
        StarvedDistance(ll, dl, z, l, len, a, e, k, d, r);
      } else {
        DistanceFound(ll, dl, z, l, len, a, e, k, d, x);
        item := Tok(Match(len, here.val + x));
      }
    }
  }

  /** Write one token to the window. */
  method Write(out: Window, t: Token) returns (ok: bool)
    requires out.Valid() && (t.Match? ==> 1 <= t.dist <= out.Reachable())
    modifies out, out.window
    ensures ok ==> out.Valid() && Apply(old(out.Output()), t) == Some(out.Output())
  {
    match t
    case Literal(b) => ok := out.Literal(b);
    case Match(len, dist) => ok := out.Match(len, dist);
  }

  /** One pass of the LEN mode without inflate_fast: read an item and act on it. */
  method Step(src: Source, out: Window, t: Tables, ghost ll: seq<nat>, ghost dl: seq<nat>)
    returns (status: Status, item: Item)
    requires src.Valid() && out.Valid() && Ready(t, ll, dl)
    modifies src, out, out.window
    ensures src.Valid() && src.n >= old(src.n) && (status != FULL ==> out.Valid())
    ensures status == GO ==> src.n > old(src.n) && ItemAt(ll, dl, old(src.Rest()), item, src.n - old(src.n))
    ensures status == GO ==> item == EndOfBlock || item.Tok?
    ensures status == GO && item.Tok? ==> Apply(old(out.Output()), item.t) == Some(out.Output())
    ensures (status == GO && !item.Tok?) || status == STARVED || status == BAD ==>
              out.Output() == old(out.Output()) && out.left == old(out.left)
    ensures status == BAD ==> Invalid(ll, dl, old(src.Rest()), out.Reachable())
    ensures status == STARVED ==> NoItem(ll, dl, old(src.Rest()), 8 * |src.input| - old(src.n))
    ensures status == GO && old(src.bits) < 8 ==> src.bits < 8
  {
    hide NoItem, Ready, ItemAt, Source.Valid, Window.Valid, Apply, Low, Stream, Window.Output;
    ghost var z := src.Rest();
    out.InRange();
    var ok;
    ok, item := NextItem(src, t, ll, dl);
    if !ok {
      status := STARVED;
    } else if item == EndOfBlock {
      status := GO;
      ItemTakes(ll, dl, z, item, src.n - old(src.n));
    } else if !item.Tok? || (item.t.Match? && item.t.dist > out.Reachable()) {
      status := BAD;
    } else {
      ItemTakes(ll, dl, z, item, src.n - old(src.n));
      ok := Write(out, item.t);
      status := if ok then GO else FULL;
    }
  }

  /** What the answers of a run depend on. */
  ghost function Setting(src: Source, out: Window): Decoder
  {
    Decoder(out.window.Length, src.whole, 8 * |src.input|)
  }

  /** How a pass over coded data from bit p on ended, after tokens of m bits, with n bytes of output in a block that
      began with n0: with tokens, at the end of the block, at data that no sure reading has, or for want of bits. */
  ghost predicate Passed(status: Status, done: bool, d: Decoder, ll: seq<nat>, dl: seq<nat>, z: nat, p: nat, m: nat,
                         p': nat, n0: nat, n: nat)
  {
    && p + m <= p'
    && (status == GO && !done ==> m > 0 && p + m == p')
    && (status == GO && done ==> ItemAt(ll, dl, High(z, p + m), EndOfBlock, p' - (p + m)))
    && (status == BAD ==> Refuses(Sure(d), ll, dl, z, p + m, n0, n))
    && (status == STARVED ==> NoItem(ll, dl, High(z, p + m), d.size - (p + m)))
  }

  /** No distance beyond far is sure to be taken. */
  ghost predicate NoneSure(d: Decoder, n0: nat, n: nat, p: nat, far: nat)
  {
    forall dist: nat :: dist > far ==> !Admits(d, n0, n, p, dist)
  }

  /** Invalid data is then in no sure reading. */
  lemma InvalidRefuses(d: Decoder, ll: seq<nat>, dl: seq<nat>, z: nat, p: nat, n0: nat, n: nat, far: nat)
    requires Invalid(ll, dl, High(z, p), far)
    requires NoneSure(d, n0, n, p, far)
    ensures Refuses(Sure(d), ll, dl, z, p, n0, n)
  {
    hide ItemAt, High, Admits;
  }

  // ---------------------------------------------------------------- the fast path

  /** A window that is being filled for the first time, or in which the output is written over its oldest part. */
  lemma LapLayout(out: Window)
    requires out.Valid()
    ensures Layout(out.window, out.window.Length, out.whave, 0, out.window, 0, out.put, out.given)
    ensures out.Output() == out.given + out.window[0..out.put] && out.put + out.left == out.window.Length
  {
    var w, n := out.window[..], out.window.Length;
    if out.whave == n {
      forall d | 1 <= d <= n && out.put <= WindowIndex(n, 0, d)
        ensures w[WindowIndex(n, 0, d)] == out.given[|out.given| - d]
      {
        assert w[n - d] == out.window[out.put..][n - d - out.put] ==
          out.given[|out.given| - out.left..][n - d - out.put];
      }
    }
  }

  /** if (whave < wsize) whave = wsize - left. */
  method CountOutput(out: Window)
    requires out.Valid() && 0 < out.left
    modifies out`whave
    ensures out.Valid() && out.Output() == old(out.Output()) && out.whave <= out.window.Length
    ensures out.whave < out.window.Length ==> out.given == [] && out.whave == |out.Output()|
  {
    if out.whave < out.window.Length { out.whave := out.window.Length - out.left; }
  }

  /** LOAD() on the side of the window: put and left after a routine that wrote up to pos. */
  method Written(out: Window, pos: nat)
    requires pos <= out.window.Length && 1 <= out.window.Length
    requires Layout(out.window, out.window.Length, out.whave, 0, out.window, 0, pos, out.given)
    modifies out`put, out`left
    ensures out.Valid() && out.put == pos && out.Output() == out.given + out.window[0..pos]
    ensures out.left <= out.window.Length
  {
    out.put := pos;
    out.left := out.window.Length - pos;
    ghost var n, l := out.window.Length, out.left;
    if out.whave == n {
      forall k | 0 <= k < l ensures out.window[pos..][k] == out.given[|out.given| - l..][k] {
        assert WindowIndex(n, 0, l - k) == pos + k;
      }
    }
  }

  /** inflate_fast refuses no distance that is sure to be taken. */
  lemma FastRefuses(out: Window, d: Decoder, n0: nat, p: nat)
    requires out.Valid() && d.wsize == out.window.Length
    requires out.whave < out.window.Length ==> n0 <= out.whave
    ensures NoneSure(d, n0, |out.Output()|, p, out.put + out.whave)
  {
    hide Align;
  }

  lemma FastEnded(mode: InflateFast.Mode, d: Decoder, ll: seq<nat>, dl: seq<nat>, y: nat, z: nat, p: nat, m: nat,
                  p': nat, n0: nat, n: nat, far: nat)
    requires p <= p' && y == High(z, p) && InflateFast.Ends(mode, ll, dl, y, m, p' - p, far)
    requires mode != InflateFast.BAD ==> p' > p
    requires NoneSure(d, n0, n, p + m, far)
    ensures Passed(if mode == InflateFast.BAD then BAD else GO, mode == InflateFast.TYPE, d, ll, dl, z, p, m, p', n0, n)
  {
    hide ItemAt, NoItem, Invalid, High, Refuses, NoneSure;
    HighHigh(z, p, m);
    if mode == InflateFast.BAD { InvalidRefuses(d, ll, dl, z, p + m, n0, n, far); }
    assert p' - p - m == p' - (p + m);
  }

  /** The call of inflate_fast, between RESTORE() and LOAD(). */
  method FastCall(src: Source, out: Window, have: nat, t: Tables, ghost ll: seq<nat>, ghost dl: seq<nat>)
    returns (mode: InflateFast.Mode, ghost ts: seq<Token>, ghost m: nat)
    requires src.Valid() && src.bits < 8 && out.Valid() && Ready(t, ll, dl)
    requires 6 <= have <= |src.input| - src.i && 258 <= out.left
    modifies src, out`put, out`left, out.window
    ensures src.Valid() && src.bits < 8 && src.n >= old(src.n) && out.Valid()
    ensures mode != InflateFast.BAD ==> src.n > old(src.n)
    ensures Took(ll, dl, old(src.Rest()), old(out.Output()), out.Output(), ts, m, out.window.Length, out.sane)
    ensures InflateFast.Ends(mode, ll, dl, old(src.Rest()), m, src.n - old(src.n), out.put + out.whave)
  {
    hide *;
    src.RestWhole();
    LapLayout(out);
    OneArray(out.window, out.sane);
    var a, pos;
    ghost var k;
    mode, a, pos, ts, m, k := InflateFast.Inflate(src.input[src.i..], have, t, src.hold, src.bits, out.window,
      out.window.Length, out.whave, 0, out.sane, out.window, 0, out.put, out.given, out.window.Length, ll, dl);
    src.Load(a.hold, a.bits, a.i, k);
    Written(out, pos);
  }

  /** A round by inflate_fast. */
  method FastPass(src: Source, out: Window, have: nat, t: Tables, ghost n0: nat, ghost ll: seq<nat>, ghost dl: seq<nat>)
    returns (status: Status, done: bool, ghost ts: seq<Token>, ghost m: nat)
    requires src.Valid() && src.bits < 8 && out.Valid() && Ready(t, ll, dl)
    requires 6 <= have <= |src.input| - src.i && 258 <= out.left && n0 <= |out.Output()|
    modifies src, out, out.window
    ensures src.Valid() && src.bits < 8 && src.n >= old(src.n) && out.Valid() && (status == GO || status == BAD)
    ensures Took(ll, dl, old(src.Rest()), old(out.Output()), out.Output(), ts, m, out.window.Length, out.sane)
    ensures Passed(status, done, Setting(src, out), ll, dl, Stream(src.input), old(src.n), m, src.n, n0, |out.Output()|)
  {
    hide *;
    ghost var z, p := src.Rest(), src.n;
    src.RestHere();
    CountOutput(out);
    var mode;
    mode, ts, m := FastCall(src, out, have, t, ll, dl);
    out.InRange();
    ghost var d, n := Setting(src, out), |out.Output()|;
    SettingIs(src, out);
    FastRefuses(out, d, n0, p + m);
    FastEnded(mode, d, ll, dl, z, Stream(src.input), p, m, src.n, n0, n, out.put + out.whave);
    status := if mode == InflateFast.BAD then BAD else GO;
    done := mode == InflateFast.TYPE;
  }

  lemma SettingIs(src: Source, out: Window)
    ensures Setting(src, out) == Decoder(out.window.Length, src.whole, 8 * |src.input|)
  {
  }

  lemma OneArray(window: array<byte>, sane: bool)
    ensures InflateFast.Checks(true, window.Length, sane, window.Length)
  {
  }

  // ---------------------------------------------------------------- the literal/length loop

  /** Where inflate_fast is not called, the test on the distance refuses none that is sure to be taken. */
  lemma SlowRefuses(out: Window, d: Decoder, i: nat, n0: nat, p: nat)
    requires out.Valid() && out.left <= out.window.Length == d.wsize && 8 * i == Align(p)
    requires d.whole ==> d.size < 8 * i + 48 || out.left < 258
    ensures NoneSure(d, n0, |out.Output()|, p, out.Reachable())
  {
    hide Align;
  }

  /** With fewer than 8 bits held, the next byte is the one after the bit position. */
  lemma NextByte(src: Source)
    requires src.Valid() && src.bits < 8
    ensures 8 * src.i == Align(src.n) && src.i <= |src.input|
  {
    src.Counted();
  }

  /** Without inflate_fast: one item. */
  method SlowPass(src: Source, out: Window, t: Tables, ghost n0: nat, ghost ll: seq<nat>, ghost dl: seq<nat>)
    returns (status: Status, done: bool, ghost ts: seq<Token>, ghost m: nat)
    requires src.Valid() && src.bits < 8 && out.Valid() && Ready(t, ll, dl)
    requires src.whole ==> |src.input| < src.i + 6 || out.left < 258
    modifies src, out, out.window
    ensures src.Valid() && src.n >= old(src.n) && (status != FULL ==> out.Valid()) && (status == GO ==> src.bits < 8)
    ensures status != FULL ==>
              Took(ll, dl, old(src.Rest()), old(out.Output()), out.Output(), ts, m, out.window.Length, out.sane)
    ensures status != FULL ==>
              Passed(status, done, Setting(src, out), ll, dl, Stream(src.input), old(src.n), m, src.n, n0,
                     |out.Output()|)
  {
    hide *;
    NextByte(src);
    out.InRange();
    src.RestHere();
    ghost var z, h, i := src.Rest(), out.Output(), src.i;
    ts, m := [], 0;
    TookNone(ll, dl, z, h, out.window.Length, out.sane);
    HighNone(z);
    var item;
    status, item := Step(src, out, t, ll, dl);
    done := item == EndOfBlock;
    if status == GO && !done {
      m := src.n - old(src.n);
      ts := [item.t];
      ApplyAdds(h, item.t);
      out.InRange();
      TookMore(ll, dl, z, h, h, [], 0, out.window.Length, out.sane, item.t, m, out.Output());
      assert [] + [item.t] == [item.t];
    }
    if status != FULL {
      out.InRange();
      ghost var d, n := Setting(src, out), |out.Output()|;
      if status == BAD {
        SettingIs(src, out);
        SlowRefuses(out, d, i, n0, old(src.n));
        InvalidRefuses(d, ll, dl, Stream(src.input), old(src.n), n0, n, out.Reachable());
      }
      SettingIs(src, out);
      SlowEnded(status, done, d, ll, dl, Stream(src.input), old(src.n), m, src.n, n0, n);
    }
  }

  lemma ApplyAdds(h: seq<byte>, t: Token)
    requires Apply(h, t).Some?
    ensures |Apply(h, t).value| == |h| + Adds(t)
  {
  }

  lemma SlowEnded(status: Status, done: bool, d: Decoder, ll: seq<nat>, dl: seq<nat>, z: nat, p: nat, m: nat, p': nat,
                  n0: nat, n: nat)
    requires p <= p' && (status == GO && !done ==> p + m == p' > p) && (status != GO || done ==> m == 0)
    requires status == GO && done ==> ItemAt(ll, dl, High(z, p), EndOfBlock, p' - p)
    requires status == BAD ==> Refuses(Sure(d), ll, dl, z, p, n0, n)
    requires status == STARVED ==> NoItem(ll, dl, High(z, p), d.size - p)
    ensures Passed(status, done, d, ll, dl, z, p, m, p', n0, n)
  {
    hide ItemAt, NoItem, Refuses, High;
  }

  /** One round of the LEN mode. How many bytes in() has delivered and are not yet read decides, with the space that is
      left, whether inflate_fast is called. */
  method Pass(src: Source, out: Window, t: Tables, ghost n0: nat, ghost ll: seq<nat>, ghost dl: seq<nat>)
    returns (status: Status, done: bool, ghost ts: seq<Token>, ghost m: nat)
    requires src.Valid() && src.bits < 8 && out.Valid() && Ready(t, ll, dl)
    requires out.put <= out.window.Length && n0 <= |out.Output()|
    modifies src, out, out.window
    ensures src.Valid() && src.n >= old(src.n) && (status != FULL ==> out.Valid()) && (status == GO ==> src.bits < 8)
    ensures status != FULL ==>
              Took(ll, dl, old(src.Rest()), old(out.Output()), out.Output(), ts, m, out.window.Length, out.sane)
    ensures status != FULL ==>
              Passed(status, done, Setting(src, out), ll, dl, Stream(src.input), old(src.n), m, src.n, n0,
                     |out.Output()|)
  {
    hide *;
    SourceRange(src);
    var have := |src.input| - src.i;
    if !src.whole { have :| 0 <= have <= |src.input| - src.i; }
    if have >= 6 && out.left >= 258 {
      status, done, ts, m := FastPass(src, out, have, t, n0, ll, dl);
    } else {
      status, done, ts, m := SlowPass(src, out, t, n0, ll, dl);
    }
  }

  lemma PassedParts(status: Status, done: bool, d: Decoder, ll: seq<nat>, dl: seq<nat>, z: nat, p: nat, m: nat, p': nat,
                    n0: nat, n: nat)
    requires Passed(status, done, d, ll, dl, z, p, m, p', n0, n)
    ensures p + m <= p' && (status == GO && !done ==> m > 0 && p + m == p')
    ensures status == GO && done ==> ItemAt(ll, dl, High(z, p + m), EndOfBlock, p' - (p + m))
    ensures status == BAD ==> Refuses(Sure(d), ll, dl, z, p + m, n0, n)
    ensures status == STARVED ==> NoItem(ll, dl, High(z, p + m), d.size - (p + m))
  {
  }

  /** What the tokens taken amount to. */
  lemma TookParts(ll: seq<nat>, dl: seq<nat>, z: nat, h0: seq<byte>, h: seq<byte>, ts: seq<Token>, m: nat, wsize: nat,
                  sane: bool)
    requires Took(ll, dl, z, h0, h, ts, m, wsize, sane)
    ensures TokensAt(ll, dl, z, ts, m) && |h| == |h0| + Length(ts)
  {
    hide TokensAt, Expand, Strays;
  }

  /** Coded data of the format, or data in which a match goes too far; in either case the lengths are right. */
  ghost predicate CodedOr(ll: seq<nat>, dl: seq<nat>, z: nat, p: nat, h0: seq<byte>, h: seq<byte>, p': nat, wsize: nat,
                          sane: bool)
  {
    && p <= p' && CodedReads(Any, ll, dl, z, p, |h0|, |h|, p')
    && (CodedAt(ll, dl, High(z, p), h0, h, p' - p) || Strays(ll, dl, High(z, p), h0, wsize, sane))
  }

  lemma CodedDone(ll: seq<nat>, dl: seq<nat>, z: nat, p: nat, h0: seq<byte>, h: seq<byte>, ts: seq<Token>, m: nat,
                  p': nat, wsize: nat, sane: bool)
    requires Took(ll, dl, High(z, p), h0, h, ts, m, wsize, sane)
    requires p + m <= p' && ItemAt(ll, dl, High(z, p + m), EndOfBlock, p' - (p + m))
    ensures CodedOr(ll, dl, z, p, h0, h, p', wsize, sane)
  {
    hide TokensAt, ItemAt, Expand, Strays, High, Length;
    HighHigh(z, p, m);
    assert p' - p - m == p' - (p + m);
    assert ReadsBy(Any, ll, dl, z, p, |h0|, ts, m, p');
  }

  /** The LEN mode: items until the end of the block. What was handed out followed by what is in the
      window is at every point the expansion of the tokens read, unless a match went too far. */
  method Coded(src: Source, out: Window, t: Tables, ghost ll: seq<nat>, ghost dl: seq<nat>)
    returns (status: Status)
    requires src.Valid() && src.bits < 8 && out.Valid() && Ready(t, ll, dl)
    modifies src, out, out.window
    ensures src.Valid() && src.n >= old(src.n) && (status != FULL ==> out.Valid())
    ensures status == GO ==>
              CodedOr(ll, dl, Stream(src.input), old(src.n), old(out.Output()), out.Output(), src.n, out.window.Length,
                      out.sane)
    ensures status != GO && status != FULL ==>
              NoCoded(Sure(Setting(src, out)), ll, dl, Stream(src.input), old(src.n), |old(out.Output())|,
                      status == BAD, 8 * |src.input|)
    ensures status == GO ==> src.bits < 8
  {
    hide *;
    out.InRange();
    ReadyParts(t, ll, dl);
    SettingIs(src, out);
    src.RestHere();
    ghost var z, h0, p, d := Stream(src.input), out.Output(), src.n, Setting(src, out);
    ghost var ts, m: nat := [], 0;
    status := GO;
    TookNone(ll, dl, High(z, p), h0, out.window.Length, out.sane);
    var done := false;
    while status == GO && !done
      invariant src.Valid() && p + m <= src.n && (status == GO ==> src.bits < 8)
      invariant status != FULL ==> out.Valid() && out.put <= out.window.Length && out.left <= out.window.Length
      invariant status != FULL ==> Took(ll, dl, High(z, p), h0, out.Output(), ts, m, out.window.Length, out.sane)
      invariant status == GO && !done ==> src.n == p + m
      invariant status == GO && done ==> CodedOr(ll, dl, z, p, h0, out.Output(), src.n, out.window.Length, out.sane)
      invariant status == BAD ==> Refuses(Sure(d), ll, dl, z, p + m, |h0|, |out.Output()|)
      invariant status == STARVED ==> NoItem(ll, dl, High(z, p + m), d.size - (p + m))
      decreases status == GO && !done, 8 * |src.input| - src.n
    {
      src.RestHere();
      HighHigh(z, p, m);
      ghost var h, more, k := out.Output(), [], 0;
      TookParts(ll, dl, High(z, p), h0, h, ts, m, out.window.Length, out.sane);
      status, done, more, k := Pass(src, out, t, |h0|, ll, dl);
      src.Bounded();
      if status != FULL {
        out.InRange();
        PassedParts(status, done, d, ll, dl, z, p + m, k, src.n, |h0|, |out.Output()|);
        TookAppend(ll, dl, High(z, p), h0, h, ts, m, out.window.Length, out.sane, out.Output(), more, k);
        ts, m := ts + more, m + k;
        if status == GO && done {
          CodedDone(ll, dl, z, p, h0, out.Output(), ts, m, src.n, out.window.Length, out.sane);
        }
      }
    }
    if status == BAD || status == STARVED {
      TookParts(ll, dl, High(z, p), h0, out.Output(), ts, m, out.window.Length, out.sane);
      if status == BAD {
        RefusedCoded(Sure(d), ll, dl, z, p, |h0|, ts, m, d.size);
      } else {
        DeflateReading.StarvedCoded(Sure(d), ll, dl, z, p, |h0|, ts, m, d.size);
      }
    }
  }

  // ---------------------------------------------------------------- stored blocks

  lemma {:induction false} BytesOfStream(bs: seq<byte>, k: nat)
    requires k <= |bs|
    ensures BytesOf(Stream(bs), k) == bs[..k]
    decreases k
  {
    if k > 0 {
      hide Low, High, Stream;
      StreamHead(bs);
      BytesOfStream(bs[1..], k - 1);
      assert bs[..k] == [bs[0]] + bs[1..][..k - 1];
    }
  }

  /** The bytes of the input from i to j, as a piece of the stream. */
  lemma InputBytes(input: seq<byte>, i: nat, j: nat)
    requires i <= j <= |input|
    ensures input[i..j] == BytesOf(High(Stream(input), 8 * i), j - i)
  {
    StreamDrop(input, i);
    BytesOfStream(input[i..], j - i);
    assert input[i..j] == input[i..][..j - i];
  }

  lemma AlignIs(p: nat, q: nat)
    requires q % 8 == 0 && p <= q < p + 8
    ensures q == Align(p)
  {
  }

  /** One round of the copy loop of a stored block: as many bytes as the input buffer and the window allow. */
  method StoredChunk(src: Source, out: Window, len: nat) returns (status: Status, copy: nat)
    requires src.Valid() && out.Valid() && src.bits == 0 && 1 <= len
    modifies src, out, out.window
    ensures src.Valid() && (status != FULL ==> out.Valid()) && src.n >= old(src.n)
    ensures status == GO || (status == STARVED && old(src.i) == |src.input|) || status == FULL
    ensures status == GO ==> 1 <= copy <= len && src.i == old(src.i) + copy && src.n == old(src.n) + 8 * copy
    ensures status == GO ==> src.bits == 0 && old(src.i) + copy <= |src.input|
    ensures status == GO ==> out.Output() == old(out.Output()) + src.input[old(src.i)..old(src.i) + copy]
  {
    hide *;
    SourceRange(src);
    out.InRange();
    copy := len;
    if src.i == |src.input| {
      status := STARVED;
    } else {
      var have :| 1 <= have <= |src.input| - src.i;
      var ok := out.Room();
      if !ok {
        status := FULL;
      } else {
        if copy > have { copy := have; }
        if copy > out.left { copy := out.left; }
        var bs := src.TakeBytes(copy);
        out.PutAll(bs);
        status := GO;
      }
    }
  }

  /** The copy loop of a stored block. */
  method CopyStored(src: Source, out: Window, length: nat) returns (status: Status)
    requires src.Valid() && out.Valid() && src.bits == 0
    modifies src, out, out.window
    ensures src.Valid() && (status != FULL ==> out.Valid()) && src.n >= old(src.n)
    ensures status == GO ==> src.n == old(src.n) + 8 * length && old(src.i) + length <= |src.input|
    ensures status == GO ==> out.Output() == old(out.Output()) + src.input[old(src.i)..old(src.i) + length]
    ensures status != BAD && (status == STARVED ==> old(src.i) + length > |src.input|)
    ensures status == GO ==> src.bits == 0
  {
    hide *;
    SourceRange(src);
    out.InRange();
    ghost var h0, i0, n0 := out.Output(), src.i, src.n;
    var done: nat := 0;
    status := GO;
    assert h0 + src.input[i0..i0] == h0;
    while status == GO && done != length
      invariant done <= length && n0 <= src.n && src.Valid() && (status != FULL ==> out.Valid()) && status != BAD
      invariant status == STARVED ==> i0 + length > |src.input|
      invariant status == GO ==> src.i == i0 + done <= |src.input| && src.bits == 0 && src.n == n0 + 8 * done
      invariant status == GO ==> out.put <= out.window.Length && out.Output() == h0 + src.input[i0..i0 + done]
      decreases status == GO, length - done
    {
      var copy;
      status, copy := StoredChunk(src, out, length - done);
      if status == GO {
        JoinPieces(h0, src.input, i0, i0 + done, i0 + done + copy);
        out.InRange();
        done := done + copy;
      }
    }
  }

  lemma JoinPieces(h: seq<byte>, s: seq<byte>, i: nat, j: nat, k: nat)
    requires i <= j <= k <= |s|
    ensures h + s[i..j] + s[j..k] == h + s[i..k]
  {
    assert s[i..j] + s[j..k] == s[i..k];
  }

  lemma SourceRange(src: Source)
    requires src.Valid()
    ensures src.i <= |src.input|
  {
  }

  /** The length of a stored block, checked against its complement. */
  method StoredLength(src: Source) returns (status: Status, length: nat)
    requires src.Valid()
    modifies src
    ensures src.Valid() && src.n >= old(src.n) && (status == GO || status == BAD || status == STARVED)
    ensures status == GO ==> src.bits == 0 && src.n == Align(old(src.n)) + 32
    ensures status == GO ==> LengthField(High(Stream(src.input), Align(old(src.n))), length)
    ensures status == BAD ==> !LengthField(High(Stream(src.input), Align(old(src.n))), length)
                              && length == Low(High(Stream(src.input), Align(old(src.n))), 16)
    ensures status == STARVED ==> Align(old(src.n)) + 32 > 8 * |src.input|
  {
    hide *;
    length := 0;
    status := STARVED;
    src.ByteBits();
    AlignIs(old(src.n), src.n);
    Source.WordFits(src.bits);
    var ok := src.NeedBits(32);
    if ok {
      src.Counted();
      src.RestHere();
      var word := src.Peek(32);
      length := Low(word, 16);
      WordField(src.Rest(), word);
      if length != 0xFFFF - High(word, 16) {
        status := BAD;
      } else {
        src.Drop(32);
        status := GO;
      }
    }
  }

  /** The two halves of the word. */
  lemma WordField(z: nat, word: nat)
    requires word == Low(z, 32)
    ensures Low(word, 16) == Low(z, 16) && (LengthField(z, Low(word, 16)) <==> Low(word, 16) == 0xFFFF - High(word, 16))
  {
    hide Low, High;
    LowLow(z, 16, 32);
    HighLow(z, 16, 32);
  }

  ghost predicate LengthField(z: nat, length: nat)
  {
    length == Low(z, 16) && Low(High(z, 16), 16) == 0xFFFF - length
  }

  /** A stored block, from its type bits on. */
  method Stored(src: Source, out: Window) returns (status: Status)
    requires src.Valid() && out.Valid() && out.put <= out.window.Length
    modifies src, out, out.window
    ensures src.Valid() && (status != FULL ==> out.Valid()) && src.n >= old(src.n)
    ensures status == GO ==> StoredBlock(src.input, old(src.n), old(out.Output()), out.Output(), src.n)
    ensures status != GO && status != FULL ==>
              NoStored(Stream(src.input), old(src.n), |old(out.Output())|, status == BAD, 8 * |src.input|)
    ensures status == GO ==> src.bits < 8
  {
    ghost var h0, p, q := out.Output(), src.n, Align(src.n);
    hide NoStored, LengthField, Window.Valid, Window.Output, Low, High, Align;
    var length;
    status, length := StoredLength(src);
    if status != GO {
      NotStored(Stream(src.input), p, |h0|, length, status == BAD, 8 * |src.input|);
      return;
    }
    ghost var i1 := src.i;
    assert src.n == 8 * i1;
    status := CopyStored(src, out, length);
    if status == GO {
      StoredDone(src.input, q, i1, length, h0, out.Output());
    } else if status == STARVED {
      NotStored(Stream(src.input), p, |h0|, length, false, 8 * |src.input|);
    }
  }

  /** No stored block: its length field is not one, or there are not enough bytes. */
  lemma NotStored(z: nat, p: nat, n0: nat, length: nat, bad: bool, r: int)
    requires bad ==> length == Low(High(z, Align(p)), 16) && !LengthField(High(z, Align(p)), length)
    requires !bad ==> Align(p) + 32 > r || (LengthField(High(z, Align(p)), length) && Align(p) + 32 + 8 * length > r)
    ensures NoStored(z, p, n0, bad, r)
  {
    hide Low, High, Align;
  }

  /** The input has a stored block whose type bits end at bit p. */
  ghost predicate StoredBlock(input: seq<byte>, p: nat, h: seq<byte>, h': seq<byte>, p': nat)
  {
    Align(p) <= p' && StoredAt(High(Stream(input), Align(p)), h, h', p' - Align(p))
  }

  lemma StoredDone(input: seq<byte>, q: nat, i: nat, length: nat, h: seq<byte>, h': seq<byte>)
    requires q + 32 == 8 * i && i + length <= |input| && h' == h + input[i..i + length]
    requires LengthField(High(Stream(input), q), length)
    ensures StoredAt(High(Stream(input), q), h, h', 32 + 8 * length)
  {
    HighHigh(Stream(input), q, 32);
    InputBytes(input, i, i + length);
    assert h'[..|h|] == h && h'[|h|..] == input[i..i + length];
  }

  // ---------------------------------------------------------------- blocks

  /** The three bits at the head of a block. */
  method BlockHead(src: Source) returns (ok: bool, last: bool, kind: nat)
    requires src.Valid()
    modifies src
    ensures src.Valid() && src.n >= old(src.n)
    ensures ok ==> src.n == old(src.n) + 3 && kind < 4 && HeadAt(Stream(src.input), old(src.n), last, kind)
    ensures !ok ==> old(src.n) + 3 > 8 * |src.input|
    ensures ok && old(src.bits) < 8 ==> src.bits < 8
  {
    ghost var z, p := Stream(src.input), src.n;
    last, kind := false, 0;
    ok := src.NeedBits(3);
    if ok {
      hide Low, High, Source.Valid, Stream;
      var x := src.Peek(1);
      last := x == 1;
      src.Drop(1);
      kind := src.Peek(2);
      src.Drop(2);
      assert Pow2(2) == 4;
    }
  }

  ghost predicate HeadAt(z: nat, p: nat, last: bool, kind: nat)
  {
    (last <==> Low(High(z, p), 1) == 1) && kind == Low(High(z, p + 1), 2)
  }

  /** A block of the format, or one in which a match goes too far; in either case the lengths are right. */
  ghost predicate BlockOr(z: nat, p: nat, h: seq<byte>, h': seq<byte>, p': nat, last: bool, wsize: nat, sane: bool)
  {
    && BlockReads(Any, z, p, |h|, |h'|, p', last)
    && (BlockAt(z, p, h, h', p', last) || StrayBlock(BeyondOutput(sane), z, p, h)
        || StrayBlock(BeyondWindow(wsize), z, p, h))
  }

  method FixedBlock(src: Source, out: Window) returns (status: Status)
    requires src.Valid() && out.Valid() && out.put <= out.window.Length
    requires src.bits < 8
    modifies src, out, out.window
    ensures src.Valid() && src.n >= old(src.n) && (status != FULL ==> out.Valid())
    ensures status == GO ==>
              CodedOr(FixedLengths(), FixedDistances(), Stream(src.input), old(src.n), old(out.Output()), out.Output(),
                                     src.n, out.window.Length, out.sane)
    ensures status != GO && status != FULL ==>
              NoCoded(Sure(Setting(src, out)), FixedLengths(), FixedDistances(), Stream(src.input), old(src.n),
                      |old(out.Output())|, status == BAD, 8 * |src.input|)
    ensures status == GO ==> src.bits < 8
  {
    hide *;
    var t := FixedTables();
    status := Coded(src, out, t, FixedLengths(), FixedDistances());
  }

  /** Why a dynamic block after its type bits is refused: its header, or the data after a valid header. */
  ghost predicate NoDynamic(d: Decoder, z: nat, p: nat, ll: seq<nat>, dl: seq<nat>, q: nat, n0: nat, bad: bool, r: int)
  {
    || NoHeader(High(z, p), bad, r - p) || BigHeader(High(z, p))
    || (HeaderAt(High(z, p), ll, dl, q) && NoCoded(Sure(d), ll, dl, z, p + q, n0, bad, r))
  }

  method DynamicBlock(src: Source, out: Window)
    returns (status: Status, ghost ll: seq<nat>, ghost dl: seq<nat>, ghost q: nat)
    requires src.Valid() && out.Valid() && out.put <= out.window.Length
    requires src.bits < 8
    modifies src, out, out.window
    ensures src.Valid() && src.n >= old(src.n) && (status != FULL ==> out.Valid())
    ensures status == GO ==> HeaderAt(High(Stream(src.input), old(src.n)), ll, dl, q)
    ensures status == GO ==> CodedOr(ll, dl, Stream(src.input), old(src.n) + q, old(out.Output()), out.Output(), src.n,
                                     out.window.Length, out.sane)
    ensures status != GO && status != FULL ==>
              NoDynamic(Setting(src, out), Stream(src.input), old(src.n), ll, dl, q, |old(out.Output())|, status == BAD,
                        8 * |src.input|)
    ensures status == GO ==> src.bits < 8
  {
    hide NoHeader, BigHeader, NoCoded, HeaderAt, Ready, CodedOr, Source.Valid, Window.Valid, Window.Output, High,
      Stream;
    ghost var n0 := src.n;
    src.RestHere();
    q := 0;
    var t;
    status, t, ll, dl := Header(src);
    if status == GO {
      q := src.n - n0;
      status := Coded(src, out, t, ll, dl);
    }
  }

  lemma DynamicIs(z: nat, p: nat, ll: seq<nat>, dl: seq<nat>, q: nat, h: seq<byte>, h': seq<byte>, p': nat, wsize: nat,
                  sane: bool)
    requires HeaderAt(High(z, p + 3), ll, dl, q) && CodedOr(ll, dl, z, p + 3 + q, h, h', p', wsize, sane)
    requires Low(High(z, p + 1), 2) == 2
    ensures BlockOr(z, p, h, h', p', Low(High(z, p), 1) == 1, wsize, sane)
  {
    hide HeaderAt, CodedAt, CodedReads, StrayMatch, Low, High, DoesNotFit;
    HighHigh(z, p + 3, q);
    assert DynamicReads(Any, z, p, ll, dl, q, |h|, |h'|, p');
    if CodedAt(ll, dl, High(z, p + 3 + q), h, h', p' - (p + 3 + q)) { assert DynamicAt(z, p, ll, dl, q, h, h', p'); }
  }

  lemma FixedIs(z: nat, p: nat, h: seq<byte>, h': seq<byte>, p': nat, wsize: nat, sane: bool)
    requires CodedOr(FixedLengths(), FixedDistances(), z, p + 3, h, h', p', wsize, sane)
    requires Low(High(z, p + 1), 2) == 1
    ensures BlockOr(z, p, h, h', p', Low(High(z, p), 1) == 1, wsize, sane)
  {
    hide CodedAt, CodedReads, StrayMatch, Low, High, FixedLengths, FixedDistances;
  }

  lemma StoredIs(input: seq<byte>, p: nat, h: seq<byte>, h': seq<byte>, p': nat, wsize: nat, sane: bool)
    requires StoredBlock(input, p + 3, h, h', p')
    requires Low(High(Stream(input), p + 1), 2) == 0
    ensures BlockOr(Stream(input), p, h, h', p', Low(High(Stream(input), p), 1) == 1, wsize, sane)
  {
    hide Low, High, Stream, Align, BytesOf;
  }

  lemma DynamicRefused(d: Decoder, z: nat, p: nat, ll: seq<nat>, dl: seq<nat>, q: nat, n0: nat, bad: bool, r: int)
    requires Low(High(z, p + 1), 2) == 2 && NoDynamic(d, z, p + 3, ll, dl, q, n0, bad, r)
    ensures NoBlock(Sure(d), z, p, n0, bad, r)
  {
    hide HeaderAt, NoHeader, BigHeader, NoCoded, NoBlock, Low, High;
    if NoHeader(High(z, p + 3), bad, r - (p + 3)) {
      HeaderFails(Sure(d), z, p, n0, bad, r);
    } else if BigHeader(High(z, p + 3)) {
      BigFails(d, z, p, n0, bad, r);
    } else {
      DynamicFails(Sure(d), z, p, ll, dl, q, n0, bad, r);
    }
  }

  /** The block's data after its three type bits. */
  method BlockBody(src: Source, out: Window, kind: nat, ghost p: nat, ghost last: bool) returns (status: Status)
    requires src.Valid() && out.Valid() && out.put <= out.window.Length
    requires src.n == p + 3 && kind < 4 && HeadAt(Stream(src.input), p, last, kind)
    requires src.bits < 8
    modifies src, out, out.window
    ensures src.Valid() && src.n >= p + 3 && (status != FULL ==> out.Valid())
    ensures status == GO ==>
              BlockOr(Stream(src.input), p, old(out.Output()), out.Output(), src.n, last, out.window.Length, out.sane)
    ensures status != GO && status != FULL ==>
              NoBlock(Sure(Setting(src, out)), Stream(src.input), p, |old(out.Output())|, status == BAD,
                      8 * |src.input|)
    ensures status == GO ==> src.bits < 8
  {
    hide NoStored, NoCoded, NoBlock, NoDynamic, BlockOr, CodedOr, StoredBlock, HeaderAt, Source.Valid, Window.Valid,
      Window.Output, Low, High, Stream;
    ghost var z, h, r, d := Stream(src.input), out.Output(), 8 * |src.input|, Setting(src, out);
    if kind == 0 {
      status := Stored(src, out);
      if status == GO {
        out.InRange();
        StoredIs(src.input, p, h, out.Output(), src.n, out.window.Length, out.sane);
      } else if status != FULL {
        StoredFails(Sure(d), z, p, |h|, status == BAD, r);
      }
    } else if kind == 1 {
      status := FixedBlock(src, out);
      if status == GO {
        out.InRange();
        FixedIs(z, p, h, out.Output(), src.n, out.window.Length, out.sane);
      } else if status != FULL {
        FixedFails(Sure(d), z, p, |h|, status == BAD, r);
      }
    } else if kind == 2 {
      ghost var ll, dl, q;
      status, ll, dl, q := DynamicBlock(src, out);
      if status == GO {
        out.InRange();
        DynamicIs(z, p, ll, dl, q, h, out.Output(), src.n, out.window.Length, out.sane);
      } else if status != FULL {
        DynamicRefused(d, z, p, ll, dl, q, |h|, status == BAD, r);
      }
    } else {
      status := BAD;
      TypeFails(Sure(d), z, p, |h|, r);
    }
  }

  /** One block. */
  method Block(src: Source, out: Window) returns (status: Status, last: bool)
    requires src.Valid() && out.Valid() && out.put <= out.window.Length
    requires src.bits < 8
    modifies src, out, out.window
    ensures src.Valid() && src.n >= old(src.n) && (status != FULL ==> out.Valid())
    ensures status == GO ==> src.n > old(src.n) && src.bits < 8
    ensures status == GO ==> BlockOr(Stream(src.input), old(src.n), old(out.Output()), out.Output(), src.n, last,
                                     out.window.Length, out.sane)
    ensures status != GO && status != FULL ==>
              NoBlock(Sure(Setting(src, out)), Stream(src.input), old(src.n), |old(out.Output())|, status == BAD,
                      8 * |src.input|)
  {
    hide *;
    ghost var p, n0 := src.n, |out.Output()|;
    var ok, kind;
    ok, last, kind := BlockHead(src);
    if !ok {
      status := STARVED;
      HeadFails(Sure(Setting(src, out)), Stream(src.input), p, n0, 8 * |src.input|);
    } else {
      status := BlockBody(src, out, kind, p, last);
    }
  }

  // ---------------------------------------------------------------- streams

  /** The first k blocks are of the format, or a match goes too far in the stream; in either case the lengths are
      right. */
  ghost predicate BlocksOr(z: nat, k: nat, h: seq<byte>, p: nat, last: bool, wsize: nat, sane: bool)
  {
    && BlocksRead(Any, z, k, |h|, p, last)
    && (BlocksAt(z, k, h, p, last) || TooFar(z, sane) || StrayStream(BeyondWindow(wsize), z))
  }

  lemma BlocksOrNone(z: nat, wsize: nat, sane: bool)
    ensures BlocksOr(z, 0, [], 0, false, wsize, sane)
  {
    hide TooFar, StrayStream;
  }

  lemma BlocksOrMore(z: nat, k: nat, h: seq<byte>, p: nat, h': seq<byte>, p': nat, last: bool, wsize: nat, sane: bool)
    requires BlocksOr(z, k, h, p, false, wsize, sane) && BlockOr(z, p, h, h', p', last, wsize, sane)
    ensures BlocksOr(z, k + 1, h', p', last, wsize, sane)
  {
    hide BlockAt, BlocksAt, BlocksRead, BlockReads, StrayBlock;
    BlocksMore(Any, z, k, |h|, p, |h'|, p', last);
    if BlocksAt(z, k, h, p, false) && BlockAt(z, p, h, h', p', last) { NextBlock(z, k, h, p, h', p', last); }
  }

  lemma NextBlock(z: nat, k: nat, h: seq<byte>, p: nat, h': seq<byte>, p': nat, last: bool)
    requires BlocksAt(z, k, h, p, false) && BlockAt(z, p, h, h', p', last)
    ensures BlocksAt(z, k + 1, h', p', last)
  {
    hide BlockAt;
  }

  lemma BlocksOrReads(z: nat, k: nat, h: seq<byte>, p: nat, last: bool, wsize: nat, sane: bool)
    requires BlocksOr(z, k, h, p, last, wsize, sane)
    ensures BlocksRead(Any, z, k, |h|, p, last)
  {
    hide TooFar, StrayStream, BlocksRead, BlocksAt;
  }

  /** The output of a whole stream is what the format says, unless a match goes too far; its length is right in any
      case. */
  ghost predicate StreamOr(z: nat, h: seq<byte>, p: nat, wsize: nat, sane: bool)
  {
    && StreamReads(Any, z, |h|, p)
    && (Inflates(z, h, p) || TooFar(z, sane) || StrayStream(BeyondWindow(wsize), z))
  }

  lemma StreamIs(z: nat, k: nat, h: seq<byte>, p: nat, wsize: nat, sane: bool)
    requires BlocksOr(z, k, h, p, true, wsize, sane)
    ensures StreamOr(z, h, p, wsize, sane)
  {
    hide BlocksAt, BlocksRead, TooFar, StrayStream;
  }

  /** What inflateBack returns: the stream ended properly, the data is invalid, or in() or out() failed. */
  datatype Outcome = STREAM_END | DATA_ERROR | BUF_ERROR

  /** All blocks up to and including the last. */
  method Blocks(src: Source, out: Window) returns (status: Status)
    requires src.Valid() && src.bits < 8 && out.Valid() && src.n == 0 && out.Output() == []
    modifies src, out, out.window
    ensures src.Valid() && (status != FULL ==> out.Valid())
    ensures status == GO ==> StreamOr(Stream(src.input), out.Output(), src.n, out.window.Length, out.sane)
    ensures status != GO && status != FULL ==>
              NoReading(Sure(Setting(src, out)), Stream(src.input), status == BAD, 8 * |src.input|)
  {
    hide *;
    ghost var z, k: nat, d := Stream(src.input), 0, Setting(src, out);
    BlocksOrNone(z, out.window.Length, out.sane);
    out.InRange();
    status := GO;
    var last := false;
    while status == GO && !last
      invariant src.Valid() && (status == GO ==> src.bits < 8)
      invariant status != FULL ==> out.Valid() && out.put <= out.window.Length
      invariant status == GO ==> BlocksOr(z, k, out.Output(), src.n, last, out.window.Length, out.sane)
      invariant status != GO && status != FULL ==> NoReading(Sure(d), z, status == BAD, 8 * |src.input|)
      decreases status == GO && !last, 8 * |src.input| - src.n
    {
      ghost var h, p := out.Output(), src.n;
      BlocksOrReads(z, k, h, p, false, out.window.Length, out.sane);
      status, last := Block(src, out);
      src.Bounded();
      if status != FULL { out.InRange(); }
      if status == GO {
        BlocksOrMore(z, k, h, p, out.Output(), src.n, last, out.window.Length, out.sane);
        k := k + 1;
      } else if status != FULL {
        StreamFails(Sure(d), z, k, |h|, p, status == BAD, 8 * |src.input|);
      }
    }
    if status == GO { StreamIs(z, k, out.Output(), src.n, out.window.Length, out.sane); }
  }

  /** The whole routine. If it ends properly, what it has handed to out() is what the format assigns to the stream,
      unless a match goes too far. It does end properly on every stream with a sure reading, in particular on every
      deflate stream that is not a hard one. */
  method InflateBack(input: seq<byte>, whole: bool, buffer: array<byte>, sane: bool)
    returns (ret: Outcome, ghost given: seq<byte>, ghost n: nat, ghost outFailed: bool)
    requires 1 <= buffer.Length
    modifies buffer
    ensures ret == STREAM_END ==> StreamReads(Any, Stream(input), |given|, n) && n <= 8 * |input|
    ensures ret == STREAM_END ==>
              Inflates(Stream(input), given, n) || TooFar(Stream(input), sane)
                || StrayStream(BeyondWindow(buffer.Length), Stream(input))
    ensures outFailed ==> ret == BUF_ERROR
    ensures ret != STREAM_END && !outFailed ==>
              NoReading(Sure(Decoder(buffer.Length, whole, 8 * |input|)), Stream(input), ret == DATA_ERROR, 8 * |input|)
    ensures ret != STREAM_END && !outFailed ==>
              NoStream(Stream(input), ret == DATA_ERROR, 8 * |input|) || HardStream(Stream(input), buffer.Length)
    ensures !outFailed && Decodable(Stream(input), 8 * |input|) && !HardStream(Stream(input), buffer.Length) ==>
              ret == STREAM_END && Inflates(Stream(input), given, n)
    ensures !outFailed && !HardStream(Stream(input), buffer.Length) && !TooFar(Stream(input), sane) ==>
              (ret == STREAM_END <==> Decodable(Stream(input), 8 * |input|))
  {
    hide *;
    var src := new Source(input, whole);
    var out := new Window(buffer, sane);
    SettingIs(src, out);
    var status := Blocks(src, out);
    n := 0;
    if status == GO {
      n := src.n;
      src.Bounded();
      src.ByteBits();
      out.InRange();
      var ok := out.Flush();
      ret := if ok then STREAM_END else BUF_ERROR;
      outFailed := !ok;
    } else {
      outFailed := status == FULL;
      ret := if status == BAD then DATA_ERROR else BUF_ERROR;
    }
    given := out.given;
    Concludes(Stream(input), given, n, Decoder(buffer.Length, whole, 8 * |input|), ret == STREAM_END, outFailed,
              ret == DATA_ERROR, sane);
  }

  /** From how the run ended to what that says of the stream. */
  lemma Concludes(z: nat, h: seq<byte>, n: nat, d: Decoder, ok: bool, outFailed: bool, bad: bool, sane: bool)
    requires ok ==> StreamOr(z, h, n, d.wsize, sane) && n <= d.size
    requires !ok && !outFailed ==> NoReading(Sure(d), z, bad, d.size)
    ensures ok ==> StreamReads(Any, z, |h|, n)
    ensures ok ==> Inflates(z, h, n) || TooFar(z, sane) || StrayStream(BeyondWindow(d.wsize), z)
    ensures !ok && !outFailed ==> NoStream(z, bad, d.size) || HardStream(z, d.wsize)
    ensures (ok || !outFailed) && Decodable(z, d.size) && !HardStream(z, d.wsize) ==> ok && Inflates(z, h, n)
    ensures (ok || !outFailed) && !HardStream(z, d.wsize) && !TooFar(z, sane) ==> (ok <==> Decodable(z, d.size))
  {
    hide Inflates, StreamReads, TooFar, StrayStream, BigStream, NoStream, NoReading, Decodable;
    DecodableIf(z, h, n, d.size, bad);
    if TooFar(z, sane) { TooFarFails(z, sane, d.size); }
    if !ok && !outFailed { NoReadingNoStream(Sure(d), z, bad, d.size); }
  }
}
