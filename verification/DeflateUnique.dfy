/** The deflate format is unambiguous: a bit stream is a complete deflate stream for at most one output and
    ends at one place. */
module DeflateUnique {
  import opened Common
  import opened Bits
  import opened Huffman
  import opened DecodeTable
  import opened Lz77
  import opened BlockData
  import opened DeflateFormat
  import opened InflateTable

  // ---------------------------------------------------------------- coded data

  /** The first k tokens, and the token after them. */
  lemma {:induction false} TokensPrefix(ll: seq<nat>, dl: seq<nat>, z: nat, ts: seq<Token>, n: nat, k: nat)
    returns (m: nat, c: nat)
    requires TokensAt(ll, dl, z, ts, n) && k < |ts|
    ensures TokensAt(ll, dl, z, ts[..k], m) && ItemAt(ll, dl, High(z, m), Tok(ts[k]), c) && m + c <= n
    decreases |ts|
  {
    hide *;
    m := TokensLast(ll, dl, z, ts, n);
    var last := |ts| - 1;
    if k == last {
      c := n - m;
    } else {
      m, c := TokensPrefix(ll, dl, z, ts[..last], m, k);
      assert ts[..last][..k] == ts[..k];
    }
  }

  /** A block's data cannot end before the block does. */
  lemma NotShorter(ll: seq<nat>, dl: seq<nat>, z: nat, ts: seq<Token>, m: nat, k: nat, ts': seq<Token>, n': nat)
    requires BlockCodes(ll, dl) && TokensAt(ll, dl, z, ts, m) && ItemAt(ll, dl, High(z, m), EndOfBlock, k)
    requires TokensAt(ll, dl, z, ts', n')
    ensures |ts'| <= |ts|
  {
    hide *;
    if |ts| < |ts'| {
      var m', c := TokensPrefix(ll, dl, z, ts', n', |ts|);
      TokensUnique(ll, dl, z, ts, m, ts'[..|ts|], m');
      ItemUnique(ll, dl, High(z, m), EndOfBlock, k, Tok(ts'[|ts|]), c);
    }
  }

  lemma CodedParts(ll: seq<nat>, dl: seq<nat>, z: nat, h: seq<byte>, h': seq<byte>, n: nat)
    returns (ts: seq<Token>, m: nat)
    requires CodedAt(ll, dl, z, h, h', n)
    ensures m <= n && TokensAt(ll, dl, z, ts, m) && Expand(h, ts) == Some(h')
    ensures ItemAt(ll, dl, High(z, m), EndOfBlock, n - m)
  {
    hide TokensAt, ItemAt, Expand, High;
    ts, m :| m <= n && TokensAt(ll, dl, z, ts, m) && Expand(h, ts) == Some(h')
             && ItemAt(ll, dl, High(z, m), EndOfBlock, n - m);
  }

  lemma CodedUnique(ll: seq<nat>, dl: seq<nat>, z: nat, h: seq<byte>, h1: seq<byte>, n1: nat, h2: seq<byte>, n2: nat)
    requires BlockCodes(ll, dl) && CodedAt(ll, dl, z, h, h1, n1) && CodedAt(ll, dl, z, h, h2, n2)
    ensures h1 == h2 && n1 == n2
  {
    hide *;
    var ts, m := CodedParts(ll, dl, z, h, h1, n1);
    var ts', m' := CodedParts(ll, dl, z, h, h2, n2);
    NotShorter(ll, dl, z, ts, m, n1 - m, ts', m');
    NotShorter(ll, dl, z, ts', m', n2 - m', ts, m);
    TokensUnique(ll, dl, z, ts, m, ts', m');
    ItemUnique(ll, dl, High(z, m), EndOfBlock, n1 - m, EndOfBlock, n2 - m);
  }

  // ---------------------------------------------------------------- dynamic headers

  /** The order of the code-length code covers every symbol. */
  lemma CodeCodeUnique(z: nat, c1: seq<nat>, q1: nat, c2: seq<nat>, q2: nat)
    requires CodeCodeAt(z, c1, q1) && CodeCodeAt(z, c2, q2)
    ensures c1 == c2 && q1 == q2
  {
    hide Low, High, ORDER;
    forall v | 0 <= v < 19 ensures c1[v] == c2[v] { var k := OrderOnto(v); }
  }

  /** The lengths after k symbols of the code-length code. */
  ghost predicate LengthsAfter(cl: seq<nat>, z: nat, k: nat, lens: seq<nat>, n: nat)
    decreases k
  {
    if k == 0 then lens == [] && n == 0
    else exists prev: seq<nat>, m: nat :: StepBetween(cl, z, prev, m, lens, n) && LengthsAfter(cl, z, k - 1, prev, m)
  }

  ghost predicate StepBetween(cl: seq<nat>, z: nat, prev: seq<nat>, m: nat, lens: seq<nat>, n: nat)
  {
    m <= n && LengthStep(cl, High(z, m), prev, lens, n - m)
  }

  lemma AfterPrev(cl: seq<nat>, z: nat, k: nat, lens: seq<nat>, n: nat) returns (prev: seq<nat>, m: nat)
    requires k > 0 && LengthsAfter(cl, z, k, lens, n)
    ensures m <= n && LengthsAfter(cl, z, k - 1, prev, m) && LengthStep(cl, High(z, m), prev, lens, n - m)
  {
    hide LengthStep, High;
    prev, m :| StepBetween(cl, z, prev, m, lens, n) && LengthsAfter(cl, z, k - 1, prev, m);
  }

  lemma AfterNone(cl: seq<nat>, z: nat, lens: seq<nat>, n: nat)
    ensures LengthsAfter(cl, z, 0, lens, n) <==> lens == [] && n == 0
  {
  }

  lemma LengthsPrev(cl: seq<nat>, z: nat, lens: seq<nat>, n: nat) returns (prev: seq<nat>, m: nat)
    requires |lens| > 0 && LengthsAt(cl, z, lens, n)
    ensures |prev| < |lens| && m <= n && LengthsAt(cl, z, prev, m) && LengthStep(cl, High(z, m), prev, lens, n - m)
  {
    hide LengthStep, High;
    prev, m :| |prev| < |lens| && m <= n && LengthsAt(cl, z, prev, m)
               && LengthStep(cl, High(z, m), prev, lens, n - m);
  }

  lemma AfterMore(cl: seq<nat>, z: nat, k: nat, prev: seq<nat>, m: nat, lens: seq<nat>, n: nat)
    requires m <= n && LengthsAfter(cl, z, k, prev, m) && LengthStep(cl, High(z, m), prev, lens, n - m)
    ensures LengthsAfter(cl, z, k + 1, lens, n)
  {
    hide LengthStep, High;
    assert StepBetween(cl, z, prev, m, lens, n);
  }

  lemma {:induction false} LengthsCount(cl: seq<nat>, z: nat, lens: seq<nat>, n: nat) returns (k: nat)
    requires LengthsAt(cl, z, lens, n)
    ensures LengthsAfter(cl, z, k, lens, n)
    decreases |lens|
  {
    if |lens| == 0 {
      k := 0;
    } else {
      hide *;
      var prev, m := LengthsPrev(cl, z, lens, n);
      k := LengthsCount(cl, z, prev, m);
      AfterMore(cl, z, k, prev, m, lens, n);
      k := k + 1;
    }
  }

  /** The code-length code makes its symbols unambiguous. */
  ghost predicate ClearCode(cl: seq<nat>)
  {
    ValidLengths(cl) && Kraft(cl) <= Pow2(MAXBITS) && forall y: nat :: !NoMatch(cl, y)
  }

  lemma StepUnique(cl: seq<nat>, z: nat, prev: seq<nat>, a: seq<nat>, n: nat, b: seq<nat>, m: nat)
    requires ClearCode(cl) && LengthStep(cl, z, prev, a, n) && LengthStep(cl, z, prev, b, m)
    ensures a == b && n == m && |prev| < |a|
  {
    hide Low, High, Matches, Kraft, NoMatch;
    var v: nat, w: nat :| LengthSymbol(cl, z, v, w) && StepOf(z, v, w, prev, a, n);
    var v': nat, w': nat :| LengthSymbol(cl, z, v', w') && StepOf(z, v', w', prev, b, m);
    PrefixFree(cl, v, v', z);
  }

  lemma {:induction false} AfterUnique(cl: seq<nat>, z: nat, k: nat, a: seq<nat>, n: nat, b: seq<nat>, m: nat)
    requires ClearCode(cl) && LengthsAfter(cl, z, k, a, n) && LengthsAfter(cl, z, k, b, m)
    ensures a == b && n == m
    decreases k
  {
    hide *;
    if k == 0 {
      AfterNone(cl, z, a, n);
      AfterNone(cl, z, b, m);
    } else {
      var a', n' := AfterPrev(cl, z, k, a, n);
      var b', m' := AfterPrev(cl, z, k, b, m);
      AfterUnique(cl, z, k - 1, a', n', b', m');
      StepUnique(cl, High(z, n'), a', a, n - n', b, m - n');
    }
  }

  lemma {:induction false} AfterGrows(cl: seq<nat>, z: nat, j: nat, a: seq<nat>, n: nat, k: nat, b: seq<nat>, m: nat)
    requires ClearCode(cl) && LengthsAfter(cl, z, j, a, n) && LengthsAfter(cl, z, k, b, m) && j < k
    ensures |a| < |b|
    decreases k
  {
    hide *;
    var b', m' := AfterPrev(cl, z, k, b, m);
    StepUnique(cl, High(z, m'), b', b, m - m', b, m - m');
    if j < k - 1 {
      AfterGrows(cl, z, j, a, n, k - 1, b', m');
    } else {
      AfterUnique(cl, z, j, a, n, b', m');
    }
  }

  lemma LengthsUnique(cl: seq<nat>, z: nat, a: seq<nat>, n: nat, b: seq<nat>, m: nat)
    requires ClearCode(cl) && LengthsAt(cl, z, a, n) && LengthsAt(cl, z, b, m) && |a| == |b|
    ensures a == b && n == m
  {
    hide *;
    var j := LengthsCount(cl, z, a, n);
    var k := LengthsCount(cl, z, b, m);
    if j < k { AfterGrows(cl, z, j, a, n, k, b, m); }
    if k < j { AfterGrows(cl, z, k, b, m, j, a, n); }
    AfterUnique(cl, z, j, a, n, b, m);
  }

  lemma HeaderClear(z: nat, cl: seq<nat>, q: nat, m: nat, ll: seq<nat>, dl: seq<nat>, n: nat)
    requires HeaderWith(z, cl, q, m, ll, dl, n)
    ensures ClearCode(cl) && BlockCodes(ll, dl)
  {
    HeaderCode(z, cl, q, m, ll, dl, n);
    AcceptedKraft(LENS, ll);
    AcceptedKraft(DISTS, dl);
  }

  lemma HeaderParts(z: nat, ll: seq<nat>, dl: seq<nat>, n: nat) returns (cl: seq<nat>, q: nat, m: nat)
    requires HeaderAt(z, ll, dl, n)
    ensures HeaderWith(z, cl, q, m, ll, dl, n)
  {
    hide HeaderWith;
    cl, q, m :| HeaderWith(z, cl, q, m, ll, dl, n);
  }

  lemma HeaderFields(z: nat, cl: seq<nat>, q: nat, m: nat, ll: seq<nat>, dl: seq<nat>, n: nat)
    requires HeaderWith(z, cl, q, m, ll, dl, n)
    ensures |ll| == Low(z, 5) + 257 && CodeCodeAt(z, cl, q) && |dl| == Low(High(z, 5), 5) + 1
    ensures LengthsAt(cl, High(z, q), ll + dl, m) && n == q + m
  {
  }

  lemma HeaderUnique(z: nat, ll: seq<nat>, dl: seq<nat>, n: nat, ll': seq<nat>, dl': seq<nat>, n': nat)
    requires HeaderAt(z, ll, dl, n) && HeaderAt(z, ll', dl', n')
    ensures ll == ll' && dl == dl' && n == n' && BlockCodes(ll, dl)
  {
    hide *;
    var cl, q, m := HeaderParts(z, ll, dl, n);
    var cl', q', m' := HeaderParts(z, ll', dl', n');
    HeaderClear(z, cl, q, m, ll, dl, n);
    HeaderFields(z, cl, q, m, ll, dl, n);
    HeaderFields(z, cl', q', m', ll', dl', n');
    CodeCodeUnique(z, cl, q, cl', q');
    LengthsUnique(cl, High(z, q), ll + dl, m, ll' + dl', m');
    assert ll == (ll + dl)[..|ll|] && dl == (ll + dl)[|ll|..] && ll' == (ll' + dl')[..|ll|]
      && dl' == (ll' + dl')[|ll|..];
  }

  // ---------------------------------------------------------------- blocks

  lemma StoredUnique(z: nat, h: seq<byte>, h1: seq<byte>, n1: nat, h2: seq<byte>, n2: nat)
    requires StoredAt(z, h, h1, n1) && StoredAt(z, h, h2, n2)
    ensures h1 == h2 && n1 == n2
  {
    hide Low, High;
    assert h1 == h1[..|h|] + h1[|h|..] && h2 == h2[..|h|] + h2[|h|..];
  }

  lemma FixedBlockCodes()
    ensures BlockCodes(FixedLengths(), FixedDistances())
  {
    hide Pow2, Kraft, ValidLengths, FixedLengths, FixedDistances;
    FixedComplete();
  }

  lemma DynamicUnique(z: nat, p: nat, h: seq<byte>, ll: seq<nat>, dl: seq<nat>, q: nat, h1: seq<byte>, p1: nat,
                      ll': seq<nat>, dl': seq<nat>, q': nat, h2: seq<byte>, p2: nat)
    requires DynamicAt(z, p, ll, dl, q, h, h1, p1) && DynamicAt(z, p, ll', dl', q', h, h2, p2)
    ensures h1 == h2 && p1 == p2
  {
    hide HeaderAt, CodedAt, High, BlockCodes;
    HeaderUnique(High(z, p + 3), ll, dl, q, ll', dl', q');
    var s := p + 3 + q;
    CodedUnique(ll, dl, High(z, s), h, h1, p1 - s, h2, p2 - s);
  }

  /** A block is determined by the stream and where it begins. */
  lemma BlockUnique(z: nat, p: nat, h: seq<byte>, h1: seq<byte>, p1: nat, last1: bool, h2: seq<byte>, p2: nat,
                    last2: bool)
    requires BlockAt(z, p, h, h1, p1, last1) && BlockAt(z, p, h, h2, p2, last2)
    ensures h1 == h2 && p1 == p2 && last1 == last2
  {
    hide Low, High, CodedAt, StoredAt, DynamicAt, Align, FixedLengths, FixedDistances, BlockCodes;
    var kind := Low(High(z, p + 1), 2);
    if kind == 0 {
      var q := Align(p + 3);
      StoredUnique(High(z, q), h, h1, p1 - q, h2, p2 - q);
    } else if kind == 1 {
      FixedBlockCodes();
      CodedUnique(FixedLengths(), FixedDistances(), High(z, p + 3), h, h1, p1 - (p + 3), h2, p2 - (p + 3));
    } else {
      var ll: seq<nat>, dl: seq<nat>, q: nat :| DynamicAt(z, p, ll, dl, q, h, h1, p1);
      var ll': seq<nat>, dl': seq<nat>, q': nat :| DynamicAt(z, p, ll', dl', q', h, h2, p2);
      DynamicUnique(z, p, h, ll, dl, q, h1, p1, ll', dl', q', h2, p2);
    }
  }

  lemma BlocksPrev(z: nat, k: nat, h: seq<byte>, p: nat, last: bool) returns (h0: seq<byte>, p0: nat)
    requires k > 0 && BlocksAt(z, k, h, p, last)
    ensures BlocksAt(z, k - 1, h0, p0, false) && BlockAt(z, p0, h0, h, p, last)
  {
    hide BlockAt;
    h0, p0 :| BlocksAt(z, k - 1, h0, p0, false) && BlockAt(z, p0, h0, h, p, last);
  }

  lemma BlocksNone(z: nat, h: seq<byte>, p: nat, last: bool)
    ensures BlocksAt(z, 0, h, p, last) <==> h == [] && p == 0 && !last
  {
  }

  lemma {:induction false} BlocksUnique(z: nat, k: nat, h1: seq<byte>, p1: nat, last1: bool, h2: seq<byte>, p2: nat,
                                        last2: bool)
    requires BlocksAt(z, k, h1, p1, last1) && BlocksAt(z, k, h2, p2, last2)
    ensures h1 == h2 && p1 == p2 && last1 == last2
    decreases k
  {
    hide *;
    if k == 0 {
      BlocksNone(z, h1, p1, last1);
      BlocksNone(z, h2, p2, last2);
    } else {
      var g1, q1 := BlocksPrev(z, k, h1, p1, last1);
      var g2, q2 := BlocksPrev(z, k, h2, p2, last2);
      BlocksUnique(z, k - 1, g1, q1, false, g2, q2, false);
      BlockUnique(z, q1, g1, h1, p1, last1, h2, p2, last2);
    }
  }

  /** Before the last block no block is marked as the last. */
  lemma {:induction false} BlocksBefore(z: nat, j: nat, k: nat, h: seq<byte>, p: nat, last: bool)
    returns (g: seq<byte>, q: nat)
    requires j < k && BlocksAt(z, k, h, p, last)
    ensures BlocksAt(z, j, g, q, false)
    decreases k
  {
    hide *;
    g, q := BlocksPrev(z, k, h, p, last);
    if j < k - 1 { g, q := BlocksBefore(z, j, k - 1, g, q, false); }
  }

  /** There is at most one output for a stream. */
  lemma InflatesUnique(z: nat, h1: seq<byte>, p1: nat, h2: seq<byte>, p2: nat)
    requires Inflates(z, h1, p1) && Inflates(z, h2, p2)
    ensures h1 == h2 && p1 == p2
  {
    hide BlocksAt;
    var j: nat :| BlocksAt(z, j, h1, p1, true);
    var k: nat :| BlocksAt(z, k, h2, p2, true);
    if j < k {
      var g, q := BlocksBefore(z, j, k, h2, p2, true);
      BlocksUnique(z, j, h1, p1, true, g, q, false);
    } else if k < j {
      var g, q := BlocksBefore(z, k, j, h1, p1, true);
      BlocksUnique(z, k, h2, p2, true, g, q, false);
    } else {
      BlocksUnique(z, k, h1, p1, true, h2, p2, true);
    }
  }
}
