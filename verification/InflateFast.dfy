/** inflate_fast: decode literal/length and distance codes through the lookup tables and write the output,
    while at least 6 input bytes and 258 output bytes are available. */
module InflateFast {
  import opened Common
  import opened Bits
  import opened Huffman
  import opened DecodeTable
  import opened Lz77
  import opened BitReader
  import opened BlockData
  import opened MatchCopy

  datatype Mode = LEN | TYPE | BAD

  /** The bit accumulator and the input position. */
  datatype Acc = Acc(hold: nat, bits: nat, i: nat)

  /** The accumulator after n bits of stream s were consumed; b bits were held at the start. The width
      never exceeds 30 bits, so a 32-bit register suffices. */
  ghost predicate At(s: nat, b: nat, input: seq<byte>, n: nat, a: Acc)
  {
    Carries(s, b, input) && Held(s, b, n, a.i, a.hold, a.bits) && a.bits <= 30 && a.i <= |input|
  }

  method Pull(input: seq<byte>, a: Acc, ghost s: nat, ghost b: nat, ghost n: nat) returns (r: Acc)
    requires At(s, b, input, n, a) && a.i < |input| && a.bits <= 22
    ensures At(s, b, input, n, r) && r.i == a.i + 1 && r.bits == a.bits + 8
  {
    PullByte(s, b, n, a.i, a.hold, a.bits, input);
    r := Acc(a.hold + Shl(input[a.i], a.bits), a.bits + 8, a.i + 1);
  }

  method Drop(input: seq<byte>, a: Acc, k: nat, ghost s: nat, ghost b: nat, ghost n: nat) returns (r: Acc)
    requires At(s, b, input, n, a) && k <= a.bits
    ensures At(s, b, input, n + k, r) && r.i == a.i && r.bits == a.bits - k
  {
    DropBits(s, b, n, a.i, a.hold, a.bits, k);
    r := Acc(High(a.hold, k), a.bits - k, a.i);
  }

  /** if (bits < 15) fetch two bytes. */
  method Refill(input: seq<byte>, a: Acc, ghost s: nat, ghost b: nat, ghost n: nat) returns (r: Acc)
    requires At(s, b, input, n, a) && a.i + 2 <= |input|
    ensures At(s, b, input, n, r) && MAXBITS <= r.bits
    ensures if a.bits < MAXBITS then r.bits == a.bits + 16 && r.i == a.i + 2 else r == a
  {
    r := a;
    if a.bits < 15 {
      r := Pull(input, r, s, b, n);
      r := Pull(input, r, s, b, n);
    }
  }

  /** Extra bits: fetch bytes while too few are held, then take k bits. */
  method Extra(input: seq<byte>, a: Acc, k: nat, ghost s: nat, ghost b: nat, ghost n: nat) returns (x: nat, r: Acc)
    requires At(s, b, input, n, a) && k <= 13
    requires a.bits < k ==> a.i < |input|
    requires a.bits + 8 < k ==> a.i + 1 < |input|
    ensures At(s, b, input, n + k, r) && x == Low(High(s, n), k)
    ensures r.i == a.i + (if k <= a.bits then 0 else if k <= a.bits + 8 then 1 else 2)
    ensures r.bits == a.bits + 8 * (r.i - a.i) - k
  {
    r := a;
    if r.bits < k {
      r := Pull(input, r, s, b, n);
      if r.bits < k {
        r := Pull(input, r, s, b, n);
      }
    }
    PeekBits(s, b, n, r.i, r.hold, r.bits, k);
    x := Low(r.hold, k);
    r := Drop(input, r, k, s, b, n);
  }

  /** Look a code up in the bits held, through its link if it has one, and drop it. */
  method Fetch(t: seq<Code>, root: nat, input: seq<byte>, a: Acc, ghost s: nat, ghost b: nat, ghost n: nat,
               ghost e: Code, ghost k: nat)
    returns (here: Code, r: Acc)
    requires At(s, b, input, n, a) && MAXBITS <= a.bits && root <= MAXBITS
    requires Lookup(t, root, High(s, n)) == Hit(e, k) && k <= MAXBITS && Reach(t, root, High(s, n)) <= MAXBITS
    ensures here == e && At(s, b, input, n + k, r) && r.i == a.i && r.bits == a.bits - k
  {
    hide Held, Carries, Low, High;
    PeekBits(s, b, n, a.i, a.hold, a.bits, root);
    here := t[Low(a.hold, root)];
    var h := here;
    r := Drop(input, a, here.bits, s, b, n);
    if IsLink(here) {
      HighHigh(s, n, h.bits);
      PeekBits(s, b, n + h.bits, r.i, r.hold, r.bits, h.op);
      here := t[here.val + Low(r.hold, here.op)];
      r := Drop(input, r, here.bits, s, b, n + h.bits);
    }
  }

  /** What one pass over the tables finds at stream position n: a token or the end of the block, with the
      bits it takes consumed, or an error. */
  ghost predicate Reads(ll: seq<nat>, dl: seq<nat>, s: nat, n: nat, item: Item, n': nat)
  {
    && n <= n'
    && ItemAt(ll, dl, High(s, n), item, if item.Tok? || item == EndOfBlock then n' - n else 0)
  }

  /** Input bytes that the distance half of a pair may need when this many bits are held. */
  function DistanceNeeds(bits: nat): nat
  {
    if bits < 4 then 4 else if bits < 15 then 3 else 2
  }

  /** The distance half of a pair, after a length that took the bits from n to m. */
  method Distance(input: seq<byte>, t: Tables, a: Acc, len: nat, ghost s: nat, ghost b: nat, ghost n: nat, ghost m: nat,
                  ghost ls: nat, ghost ll: seq<nat>, ghost dl: seq<nat>)
    returns (item: Item, r: Acc, ghost n': nat)
    requires Ready(t, ll, dl) && n <= m && At(s, b, input, m, a) && LengthAt(ll, High(s, n), ls, len, m - n)
    requires a.i + DistanceNeeds(a.bits) <= |input|
    ensures At(s, b, input, n', r) && Reads(ll, dl, s, n, item, n')
    ensures item == BadDistance || (item.Tok? && item.t.Match? && item.t.len == len && 1 <= item.t.dist <= 32768)
    ensures a.i <= r.i <= a.i + DistanceNeeds(a.bits)
  {
    hide Carries, Held, Decodes, Lookup, Reach, LengthAt, Matches, Low, High, Kraft, Reads, Undecodable, ExtraDist;
    r := Refill(input, a, s, b, m);
    ghost var e, k, d := DistanceEntry(t.dcode, t.distbits, dl, High(s, m));
    var here;
    here, r := Fetch(t.dcode, t.distbits, input, r, s, b, m, e, k);
    if IsBase(here) {
      var x;
      HighHigh(s, m, k);
      x, r := Extra(input, r, ExtraBits(here), s, b, m + k);
      DistanceReads(ll, dl, s, n, m, ls, len, e, k, d, x);
      item := Tok(Match(len, here.val + x));
      n' := m + k + ExtraBits(here);
    } else {
      BadDistanceReads(ll, dl, s, n, m, ls, len, m + k);
      item := BadDistance;
      n' := m + k;
    }
  }

  /** A length and a distance make a match. */
  lemma DistanceReads(ll: seq<nat>, dl: seq<nat>, s: nat, n: nat, m: nat, ls: nat, len: nat, e: Code, k: nat, d: nat,
                      x: nat)
    requires n <= m && LengthAt(ll, High(s, n), ls, len, m - n)
    requires d < 30 && d < |dl| && Matches(dl, d, High(s, m)) && k == dl[d] && e.val == DBASE[d]
    requires ExtraBits(e) == ExtraDist(d) && x == Low(High(High(s, m), k), ExtraBits(e))
    ensures Reads(ll, dl, s, n, Tok(Match(len, e.val + x)), m + k + ExtraBits(e)) && 1 <= e.val + x <= 32768
  {
    hide Low, High, LengthAt, Matches, ExtraDist;
    HighHigh(s, n, m - n);
    DistanceRange(d, x);
    var c := k + ExtraBits(e);
    assert DistanceAt(dl, High(s, m), d, e.val + x, c);
    assert m + c - n == (m - n) + c;
  }

  lemma BadDistanceReads(ll: seq<nat>, dl: seq<nat>, s: nat, n: nat, m: nat, ls: nat, len: nat, n': nat)
    requires n <= m <= n' && LengthAt(ll, High(s, n), ls, len, m - n) && Undecodable(dl, High(s, m), 30)
    ensures Reads(ll, dl, s, n, BadDistance, n')
  {
    hide Low, High, LengthAt, Undecodable;
    HighHigh(s, n, m - n);
  }

  /** One pass: a literal, the end of the block, or a length and a distance. At most 6 bytes are read. */
  method NextItem(input: seq<byte>, t: Tables, a: Acc,
                  ghost s: nat, ghost b: nat, ghost n: nat, ghost ll: seq<nat>, ghost dl: seq<nat>)
    returns (item: Item, r: Acc, ghost n': nat)
    requires Ready(t, ll, dl)
    requires At(s, b, input, n, a) && a.i + 6 <= |input|
    ensures At(s, b, input, n', r) && Reads(ll, dl, s, n, item, n')
    ensures item.Tok? && item.t.Match? ==> 3 <= item.t.len <= 258 && 1 <= item.t.dist <= 32768
    ensures a.i <= r.i <= a.i + 6
  {
    hide Carries, Held, Decodes, Lookup, Reach, LengthMeans, ItemAt, LengthAt, Low, High, Kraft;
    r := Refill(input, a, s, b, n);
    ghost var z := High(s, n);
    ghost var e, k, l := LengthEntry(t.lcode, t.lenbits, ll, z);
    assert a.bits < 15 ==> r.i == a.i + 2 && r.bits >= 16;
    var here;
    here, r := Fetch(t.lcode, t.lenbits, input, r, s, b, n, e, k);
    n' := n + k;
    if here.op == 0 || !IsBase(here) {
      PlainItemAt(ll, dl, z, e, k, l);
      item := PlainItem(here);
    } else {
      ExtraAtMost(ll, z, e, k, l);
      HighHigh(s, n, k);
      ghost var m := n' + ExtraBits(here);
      var x;
      x, r := Extra(input, r, ExtraBits(here), s, b, n');
      LengthFound(ll, z, e, k, l, x);
      assert m - n == k + ExtraBits(e);
      item, r, n' := Distance(input, t, r, here.val + x, s, b, n, m, l, ll, dl);
    }
  }

  /** How the routine may end at stream position n, after tokens that took m bits: in LEN for want of input
      or space, in TYPE at the end of the block, in BAD at an invalid code or a distance beyond far. */
  ghost predicate Ends(mode: Mode, ll: seq<nat>, dl: seq<nat>, s: nat, m: nat, n: nat, far: nat)
  {
    && m <= n
    && match mode
       case LEN => m == n
       case TYPE => ItemAt(ll, dl, High(s, m), EndOfBlock, n - m)
       case BAD => Invalid(ll, dl, High(s, m), far)
  }

  /** Distances are checked, except perhaps by inflateBack, which has window and output in one array. A decoder whose
      window is far bytes finds no match beyond it where they are two. */
  predicate Checks(same: bool, wsize: nat, sane: bool, far: nat)
  {
    if same then far == wsize else sane && 32768 <= far
  }

  /** A distance that the format allows, and that the window has room for. */
  predicate Within(t: Token, same: bool, wsize: nat, whave: nat, n: nat)
  {
    t.Match? ==> 1 <= t.dist <= n + Known(same, wsize, whave) && (same ==> t.dist <= wsize)
  }

  /** What is not within either of the two and is let through goes too far. */
  lemma NotWithin(window: array<byte>, wsize: nat, whave: nat, wnext: nat, out: array<byte>, beg: nat, pos: nat,
                  hist: seq<byte>, t: Token, sane: bool, far: nat)
    requires Layout(window, wsize, whave, wnext, out, beg, pos, hist) && Checks(window == out, wsize, sane, far)
    requires t.Match? && 1 <= t.dist <= 32768 && (sane ==> t.dist <= pos - beg + whave)
    requires !Within(t, window == out, wsize, whave, pos - beg)
    ensures window == out && GoesTooFar(|hist + out[beg..pos]|, t.dist, far, sane)
  {
  }

  /** The match copy with a source before the window: the bytes may be anything. */
  method CopyOutside(out: array<byte>, pos: nat, len: nat)
    requires pos + len <= out.Length
    modifies out
    ensures Kept(old(out[..]), out[..], pos, len)
  {
    ghost var o := out[..];
    for j := 0 to len
      invariant Kept(o, out[..], pos, len)
    {
      var b: byte := *;
      out[pos + j] := b;
    }
  }

  /** Write one token to the output. A match that goes too far is copied all the same. */
  method Write(t: Token, window: array<byte>, wsize: nat, whave: nat, wnext: nat, out: array<byte>, beg: nat, pos: nat,
               ghost hist: seq<byte>)
    returns (pos': nat)
    requires Layout(window, wsize, whave, wnext, out, beg, pos, hist) && pos + 258 <= out.Length
    requires t.Match? ==> 3 <= t.len <= 258 && 1 <= t.dist && (window != out ==> t.dist <= pos - beg + whave)
    modifies out
    ensures pos < pos' == pos + Adds(t) <= pos + 258 && Layout(window, wsize, whave, wnext, out, beg, pos', hist)
    ensures Within(t, window == out, wsize, whave, pos - beg) ==>
              Apply(hist + old(out[beg..pos]), t) == Some(hist + out[beg..pos'])
    ensures forall i :: 0 <= i < pos || pos' <= i < out.Length ==> out[i] == old(out[i])
  {
    ghost var w, o := window[..], out[..];
    ghost var known, low := Known(window == out, wsize, whave), if window == out then pos else 0;
    hide WindowHolds;
    match t
    case Literal(b) =>
      out[pos] := b;
      pos' := pos + 1;
      assert out[beg..pos'] == old(out[beg..pos]) + [b];
      assert hist + out[beg..pos'] == hist + old(out[beg..pos]) + [b];
      StillHolds(w, window[..], wsize, known, wnext, hist, low, if window == out then pos' else 0);
    case Match(len, dist) =>
      pos' := pos + len;
      if dist <= pos - beg + (if window == out then wsize else whave) {
        CopyMatch(window, wsize, whave, wnext, out, beg, pos, len, dist, hist);
        assert out[..][..pos] == o[..pos];
        if Within(t, window == out, wsize, whave, pos - beg) {
          CopyMeaning(w, wsize, known, wnext, hist, o, out[..], beg, pos, len, dist, low);
          assert o[beg..pos] == old(out[beg..pos]) && out[..][beg..pos'] == out[beg..pos'];
        }
      } else {
        CopyOutside(out, pos, len);
      }
      StillHolds(w, window[..], wsize, known, wnext, hist, low, if window == out then pos' else 0);
  }

  /** What lies above the place of writing stays. */
  lemma StillHolds(w: seq<byte>, w': seq<byte>, wsize: nat, known: nat, wnext: nat, hist: seq<byte>, low: nat,
                   low': nat)
    requires WindowHolds(w, wsize, known, wnext, hist, low) && low <= low' && |w'| == |w|
    requires forall i :: low' <= i < |w| ==> w'[i] == w[i]
    ensures WindowHolds(w', wsize, known, wnext, hist, low')
  {
  }

  /** The loop, the return of unused bytes, and the state left behind. Of the input the first avail bytes may be read.
      On return fewer than 8 bits are held, every bit fetched is consumed or held, and the tokens consumed expand to
      the output, unless a match went too far. */
  method Inflate(input: seq<byte>, avail: nat, t: Tables, hold: nat, bits: nat, window: array<byte>, wsize: nat,
                 whave: nat, wnext: nat, sane: bool, out: array<byte>, beg: nat, start: nat, ghost hist: seq<byte>,
                 ghost far: nat, ghost ll: seq<nat>, ghost dl: seq<nat>)
    returns (mode: Mode, a: Acc, pos: nat, ghost ts: seq<Token>, ghost m: nat, ghost n: nat)
    requires Ready(t, ll, dl)
    requires bits < 8 && hold < Pow2(bits) && 6 <= avail <= |input|
    requires Layout(window, wsize, whave, wnext, out, beg, start, hist) && Checks(window == out, wsize, sane, far)
    requires start + 258 <= out.Length
    modifies out
    ensures a.bits < 8 && a.i <= avail && start <= pos <= out.Length && (mode != BAD ==> n > 0)
    ensures Layout(window, wsize, whave, wnext, out, beg, pos, hist)
    ensures n + a.bits == bits + 8 * a.i && a.hold == Low(High(Whole(hold, bits, input), n), a.bits)
    ensures Took(ll, dl, Whole(hold, bits, input), hist + old(out[beg..start]), hist + out[beg..pos], ts, m, far, sane)
    ensures Ends(mode, ll, dl, Whole(hold, bits, input), m, n, pos - beg + whave)
    ensures mode == LEN ==> avail - a.i < 9 || out.Length - pos < 258
    ensures forall i :: 0 <= i < start || pos <= i < out.Length ==> out[i] == old(out[i])
  {
    hide Ready, Carries, Layout, Took, Invalid, ItemAt, TokensAt, Expand, Low, High, Whole;
    LayoutIn(window, wsize, whave, wnext, out, beg, start, hist);
    ghost var s, h0 := Whole(hold, bits, input), hist + out[beg..start];
    HeldStart(hold, bits, input);
    mode, a, pos, ts, m, n := LEN, Acc(hold, bits, 0), start, [], 0, 0;
    TookNone(ll, dl, s, h0, far, sane);
    while mode == LEN && a.i + 6 <= avail && pos + 258 <= out.Length
      invariant At(s, bits, input, n, a) && a.i <= avail && beg <= start <= pos <= out.Length
      invariant Layout(window, wsize, whave, wnext, out, beg, pos, hist)
      invariant mode == LEN && pos == start ==> a.i + 6 <= avail
      invariant pos > start || mode == TYPE ==> n > 0
      invariant Took(ll, dl, s, h0, hist + out[beg..pos], ts, m, far, sane)
      invariant Ends(mode, ll, dl, s, m, n, pos - beg + whave)
      invariant forall i :: 0 <= i < start || pos <= i < out.Length ==> out[i] == old(out[i])
      decreases mode == LEN, out.Length - pos
    {
      var item;
      item, a, n := NextItem(input, t, a, s, bits, n, ll, dl);
      if item == EndOfBlock {
        mode := TYPE;
        ReadsSome(ll, dl, s, m, item, n);
      } else if !item.Tok? || (item.t.Match? && item.t.dist > pos - beg + whave && sane) {
        mode := BAD;
        ReadsInvalid(ll, dl, s, m, item, n, pos - beg + whave);
      } else {
        ghost var h := hist + out[beg..pos];
        if !Within(item.t, window == out, wsize, whave, pos - beg) {
          NotWithin(window, wsize, whave, wnext, out, beg, pos, hist, item.t, sane, far);
        }
        pos := Write(item.t, window, wsize, whave, wnext, out, beg, pos, hist);
        ReadsTok(ll, dl, s, m, item.t, n);
        ReadsSome(ll, dl, s, m, item, n);
        TookMore(ll, dl, s, h0, h, ts, m, far, sane, item.t, n - m, hist + out[beg..pos]);
        ts, m := ts + [item.t], n;
      }
    }
    var back := a.bits / 8;
    GiveBack(s, bits, n, a.i, a.hold, a.bits, back);
    a := Acc(Low(a.hold, a.bits - 8 * back), a.bits - 8 * back, a.i - back);
  }

  lemma LayoutIn(window: array<byte>, wsize: nat, whave: nat, wnext: nat, out: array<byte>, beg: nat, pos: nat,
                 hist: seq<byte>)
    requires Layout(window, wsize, whave, wnext, out, beg, pos, hist)
    ensures beg <= pos <= out.Length
  {
  }

  /** An item takes at least one bit. */
  lemma ReadsSome(ll: seq<nat>, dl: seq<nat>, s: nat, m: nat, item: Item, n: nat)
    requires Reads(ll, dl, s, m, item, n) && (item.Tok? || item == EndOfBlock)
    ensures m < n
  {
    hide High;
    ItemTakes(ll, dl, High(s, m), item, n - m);
  }

  lemma ReadsInvalid(ll: seq<nat>, dl: seq<nat>, s: nat, m: nat, item: Item, n: nat, far: nat)
    requires Reads(ll, dl, s, m, item, n) && item != EndOfBlock && (item.Tok? ==> item.t.Match? && item.t.dist > far)
    ensures Invalid(ll, dl, High(s, m), far)
  {
    hide ItemAt, High;
  }

  lemma ReadsTok(ll: seq<nat>, dl: seq<nat>, s: nat, m: nat, t: Token, n: nat)
    requires Reads(ll, dl, s, m, Tok(t), n)
    ensures m <= n && ItemAt(ll, dl, High(s, m), Tok(t), n - m) && m + (n - m) == n
  {
    hide ItemAt;
  }
}
