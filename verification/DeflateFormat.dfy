/** The deflate format of section 3.2 of RFC 1951 as relations on a bit stream: stored blocks, the header of
    a dynamic block, coded data, and whole streams. */
module DeflateFormat {
  import opened Common
  import opened Bits
  import opened Huffman
  import opened DecodeTable
  import opened Lz77
  import opened BlockData
  import opened InflateTable

  /** The next k bytes of a stream. */
  function BytesOf(z: nat, k: nat): (r: seq<nat>)
    ensures |r| == k
    decreases k
  {
    if k == 0 then [] else [Low(z, 8)] + BytesOf(High(z, 8), k - 1)
  }

  /** A stored block from its length field on: it adds the bytes that follow to the output h. */
  ghost predicate StoredAt(z: nat, h: seq<byte>, h': seq<byte>, n: nat)
  {
    var len := Low(z, 16);
    && Low(High(z, 16), 16) == 0xFFFF - len
    && n == 32 + 8 * len
    && |h'| == |h| + len && h'[..|h|] == h && h'[|h|..] == BytesOf(High(z, 32), len)
  }

  /** Coded data up to and including the end-of-block code: tokens that expand the output h to h'. */
  ghost predicate CodedAt(ll: seq<nat>, dl: seq<nat>, z: nat, h: seq<byte>, h': seq<byte>, n: nat)
  {
    exists ts: seq<Token>, m: nat :: m <= n && TokensAt(ll, dl, z, ts, m) && Expand(h, ts) == Some(h')
                                     && ItemAt(ll, dl, High(z, m), EndOfBlock, n - m)
  }

  // ---------------------------------------------------------------- dynamic headers

  const ORDER: seq<nat> := [16, 17, 18, 0, 8, 7, 9, 6, 10, 5, 11, 4, 12, 3, 13, 2, 14, 1, 15]

  /** The lengths of the code-length code, sent in a fixed order; those not sent are zero. */
  ghost predicate CodeCodeAt(z: nat, cl: seq<nat>, n: nat)
  {
    var ncode := Low(High(z, 10), 4) + 4;
    && |cl| == 19 && n == 14 + 3 * ncode
    && forall k :: 0 <= k < 19 ==> cl[ORDER[k]] == if k < ncode then Low(High(z, 14 + 3 * k), 3) else 0
  }

  function Repeat(x: nat, k: nat): (r: seq<nat>)
    ensures |r| == k && forall i :: 0 <= i < k ==> r[i] == x
  {
    seq(k, i => x)
  }

  /** A code-length symbol. With no code-length code at all, every bit reads as the symbol 0. */
  ghost predicate LengthSymbol(cl: seq<nat>, z: nat, v: nat, w: nat)
  {
    (v < |cl| && Matches(cl, v, z) && w == cl[v]) || (NoMatch(cl, z) && v == 0 && w == 1)
  }

  /** One code-length symbol and its extra bits extend the lengths read so far. */
  ghost predicate LengthStep(cl: seq<nat>, z: nat, lens: seq<nat>, lens': seq<nat>, n: nat)
  {
    exists v: nat, w: nat :: LengthSymbol(cl, z, v, w) && StepOf(z, v, w, lens, lens', n)
  }

  ghost predicate StepOf(z: nat, v: nat, w: nat, lens: seq<nat>, lens': seq<nat>, n: nat)
  {
    if v < 16 then lens' == lens + [v] && n == w
    else if v == 16 then
      |lens| > 0 && lens' == lens + Repeat(lens[|lens| - 1], 3 + Low(High(z, w), 2)) && n == w + 2
    else if v == 17 then lens' == lens + Repeat(0, 3 + Low(High(z, w), 3)) && n == w + 3
    else lens' == lens + Repeat(0, 11 + Low(High(z, w), 7)) && n == w + 7
  }

  /** The lengths read from n bits of code-length symbols. */
  ghost predicate LengthsAt(cl: seq<nat>, z: nat, lens: seq<nat>, n: nat)
    decreases |lens|
  {
    if |lens| == 0 then n == 0
    else exists prev: seq<nat>, m: nat :: |prev| < |lens| && m <= n && LengthsAt(cl, z, prev, m)
                                          && LengthStep(cl, High(z, m), prev, lens, n - m)
  }

  lemma LengthsMore(cl: seq<nat>, z: nat, lens: seq<nat>, m: nat, lens': seq<nat>, k: nat)
    requires LengthsAt(cl, z, lens, m) && LengthStep(cl, High(z, m), lens, lens', k) && |lens| < |lens'|
    ensures LengthsAt(cl, z, lens', m + k)
  {
    assert m + k - m == k;
  }

  /** A dynamic block header: the two codes, and the bits it takes. */
  ghost predicate HeaderAt(z: nat, ll: seq<nat>, dl: seq<nat>, n: nat)
  {
    exists cl: seq<nat>, q: nat, m: nat :: HeaderWith(z, cl, q, m, ll, dl, n)
  }

  ghost predicate HeaderWith(z: nat, cl: seq<nat>, q: nat, m: nat, ll: seq<nat>, dl: seq<nat>, n: nat)
  {
    && |ll| == Low(z, 5) + 257 <= 286 && |dl| == Low(High(z, 5), 5) + 1 <= 30
    && CodeCodeAt(z, cl, q) && ValidLengths(cl) && !Refused(CODES, cl)
    && LengthsAt(cl, High(z, q), ll + dl, m) && n == q + m
    && ll[256] != 0 && ValidLengths(ll) && ValidLengths(dl) && !Refused(LENS, ll) && !Refused(DISTS, dl)
  }

  /** Without a code-length code all lengths are zero, so a header always has one. */
  lemma {:induction false} EmptyLengths(cl: seq<nat>, z: nat, lens: seq<nat>, n: nat)
    requires !SomeCode(cl) && LengthsAt(cl, z, lens, n)
    ensures forall k :: 0 <= k < |lens| ==> lens[k] == 0
    decreases |lens|
  {
    if |lens| > 0 {
      var prev: seq<nat>, m: nat :| |prev| < |lens| && m <= n && LengthsAt(cl, z, prev, m)
                                    && LengthStep(cl, High(z, m), prev, lens, n - m);
      EmptyLengths(cl, z, prev, m);
      var v: nat, w: nat :| LengthSymbol(cl, High(z, m), v, w) && StepOf(High(z, m), v, w, prev, lens, n - m);
    }
  }

  /** The code-length code of a valid header is complete, and its symbols are therefore unambiguous. */
  lemma HeaderCode(z: nat, cl: seq<nat>, q: nat, m: nat, ll: seq<nat>, dl: seq<nat>, n: nat)
    requires HeaderWith(z, cl, q, m, ll, dl, n)
    ensures Kraft(cl) == Pow2(MAXBITS)
    ensures forall y: nat :: !NoMatch(cl, y)
  {
    assert (ll + dl)[256] == ll[256];
    if !SomeCode(cl) {
      EmptyLengths(cl, High(z, q), ll + dl, m);
    }
    forall y: nat ensures !NoMatch(cl, y) { var s := Complete(cl, y); }
  }

  // ---------------------------------------------------------------- blocks and streams

  /** The fixed code of section 3.2.6. */
  function FixedLengths(): (ll: seq<nat>)
    ensures |ll| == 288
  {
    seq(288, s => if s < 144 then 8 else if s < 256 then 9 else if s < 280 then 7 else 8)
  }

  function FixedDistances(): (dl: seq<nat>)
    ensures |dl| == 32
  {
    seq(32, s => 5)
  }

  /** The position of the next byte boundary. */
  function Align(p: nat): nat
  {
    (p + 7) / 8 * 8
  }

  /** The block at bit p of stream z takes the output from h to h' and ends at bit p'. */
  ghost predicate BlockAt(z: nat, p: nat, h: seq<byte>, h': seq<byte>, p': nat, last: bool)
  {
    && (last <==> Low(High(z, p), 1) == 1)
    && var kind := Low(High(z, p + 1), 2);
       if kind == 0 then Align(p + 3) <= p' && StoredAt(High(z, Align(p + 3)), h, h', p' - Align(p + 3))
       else if kind == 1 then
         p + 3 <= p' && CodedAt(FixedLengths(), FixedDistances(), High(z, p + 3), h, h', p' - (p + 3))
       else kind == 2 && exists ll: seq<nat>, dl: seq<nat>, q: nat :: DynamicAt(z, p, ll, dl, q, h, h', p')
  }

  /** A dynamic block: three type bits, a header of q bits, and data in its codes. */
  ghost predicate DynamicAt(z: nat, p: nat, ll: seq<nat>, dl: seq<nat>, q: nat, h: seq<byte>, h': seq<byte>, p': nat)
  {
    && p + 3 + q <= p' && HeaderAt(High(z, p + 3), ll, dl, q)
    && CodedAt(ll, dl, High(z, p + 3 + q), h, h', p' - (p + 3 + q))
  }

  /** The first k blocks of stream z produce output h and end at bit p; only the last may be marked so. */
  ghost predicate BlocksAt(z: nat, k: nat, h: seq<byte>, p: nat, last: bool)
    decreases k
  {
    if k == 0 then h == [] && p == 0 && !last
    else exists h0: seq<byte>, p0: nat :: BlocksAt(z, k - 1, h0, p0, false) && BlockAt(z, p0, h0, h, p, last)
  }

  /** Stream z is a complete deflate stream that decompresses to h and ends at bit p. */
  ghost predicate Inflates(z: nat, h: seq<byte>, p: nat)
  {
    exists k: nat :: BlocksAt(z, k, h, p, true)
  }

  // ---------------------------------------------------------------- facts about the codes

  lemma OrderDistinct()
    ensures |ORDER| == 19
    ensures forall k :: 0 <= k < 19 ==> ORDER[k] < 19
    ensures forall j, k :: 0 <= j < k < 19 ==> ORDER[j] != ORDER[k]
  {
  }

  lemma OrderOnto(v: nat) returns (k: nat)
    requires v < 19
    ensures k < |ORDER| == 19 && ORDER[k] == v
  {
    var where: seq<nat> := [3, 17, 15, 13, 11, 9, 7, 5, 4, 6, 8, 10, 12, 14, 16, 18, 0, 1, 2];
    k := where[v];
  }

  /** Lengths that were not refused do not make an over-subscribed code. */
  lemma AcceptedKraft(kind: CodeType, lens: seq<nat>)
    requires ValidLengths(lens) && !Refused(kind, lens)
    ensures Kraft(lens) <= Pow2(MAXBITS)
  {
    if !SomeCode(lens) { NoKraft(lens, |lens|); }
  }

  lemma {:induction false} NoKraft(lens: seq<nat>, n: nat)
    requires ValidLengths(lens) && !SomeCode(lens) && n <= |lens|
    ensures KraftBelow(lens, n) == 0
  {
    if n > 0 { NoKraft(lens, n - 1); }
  }

  /** A run of symbols of one length adds as many times the weight of that length. */
  lemma {:induction false} KraftRun(lens: seq<nat>, a: nat, b: nat, l: nat, w: nat)
    requires a <= b <= |lens| && ValidLengths(lens) && 1 <= l <= MAXBITS && w == Pow2(MAXBITS - l)
    requires forall s :: a <= s < b ==> lens[s] == l
    ensures KraftBelow(lens, b) == KraftBelow(lens, a) + (b - a) * w
    decreases b - a
  {
    hide Pow2, ValidLengths;
    if a < b {
      KraftRun(lens, a, b - 1, l, w);
      Times(b - 1 - a, w);
    }
  }

  lemma Times(k: nat, w: nat)
    ensures (k + 1) * w == k * w + w
  {
  }

  lemma SmallPowers()
    ensures Pow2(5) == 32 && Pow2(6) == 64 && Pow2(7) == 128 && Pow2(8) == 256 && Pow2(9) == 512 && Pow2(10) == 1024
    ensures Pow2(MAXBITS) == 32768
  {
    assert Pow2(4) == 16;
    assert Pow2(11) == 2048;
    assert Pow2(14) == 16384;
  }

  /** The fixed codes are complete. */
  lemma FixedComplete()
    ensures ValidLengths(FixedLengths()) && ValidLengths(FixedDistances())
    ensures Kraft(FixedLengths()) == Pow2(MAXBITS) && Kraft(FixedDistances()) == Pow2(MAXBITS)
  {
    hide Pow2, KraftBelow;
    SmallPowers();
    var ll, dl := FixedLengths(), FixedDistances();
    assert KraftBelow(ll, 0) == 0 && KraftBelow(dl, 0) == 0 by { KraftNone(ll); KraftNone(dl); }
    KraftRun(ll, 0, 144, 8, 128);
    KraftRun(ll, 144, 256, 9, 64);
    KraftRun(ll, 256, 280, 7, 256);
    KraftRun(ll, 280, 288, 8, 128);
    KraftRun(dl, 0, 32, 5, 1024);
  }

  lemma KraftNone(lens: seq<nat>)
    requires ValidLengths(lens)
    ensures KraftBelow(lens, 0) == 0
  {
  }
}
