/** Compressed block data as section 3.2.5 of RFC 1951 reads it: literal/length codes, length and distance
    extra bits, distance codes. A stream begins with at most one item, and tables built by inflate_table
    find it. */
module BlockData {
  import opened Common
  import opened Bits
  import opened Huffman
  import opened DecodeTable
  import opened Lz77

  datatype Item = Tok(t: Token) | EndOfBlock | BadLength | BadDistance

  function ExtraLen(s: nat): nat
    requires 257 <= s <= 285
  {
    LEXT[s - 257] - 16
  }

  function ExtraDist(d: nat): nat
    requires d < 30
  {
    DEXT[d] - 16
  }

  /** A length and its extra bits, from symbol s at the head of stream z: n bits in all. */
  ghost predicate LengthAt(ll: seq<nat>, z: nat, s: nat, len: nat, n: nat)
  {
    && 257 <= s <= 285 && s < |ll| && Matches(ll, s, z)
    && len == LBASE[s - 257] + Low(High(z, ll[s]), ExtraLen(s))
    && n == ll[s] + ExtraLen(s)
  }

  ghost predicate DistanceAt(dl: seq<nat>, z: nat, d: nat, dist: nat, n: nat)
  {
    && 0 <= d < 30 && d < |dl| && Matches(dl, d, z)
    && dist == DBASE[d] + Low(High(z, dl[d]), ExtraDist(d))
    && n == dl[d] + ExtraDist(d)
  }

  /** Stream z begins with a symbol from s on, or with no code at all. */
  ghost predicate Undecodable(lens: seq<nat>, z: nat, s: nat)
  {
    NoMatch(lens, z) || exists i :: s <= i < |lens| && Matches(lens, i, z)
  }

  /** Stream z begins with the item, which takes n bits. */
  ghost predicate ItemAt(ll: seq<nat>, dl: seq<nat>, z: nat, item: Item, n: nat)
  {
    match item
    case Tok(Literal(b)) => b < |ll| && Matches(ll, b, z) && n == ll[b]
    case Tok(Match(len, dist)) =>
      exists s: nat, a: nat, d: nat, c: nat ::
        LengthAt(ll, z, s, len, a) && DistanceAt(dl, High(z, a), d, dist, c) && n == a + c
    case EndOfBlock => 256 < |ll| && Matches(ll, 256, z) && n == ll[256]
    case BadLength => Undecodable(ll, z, 286) && n == 0
    case BadDistance =>
      exists s: nat, len: nat, a: nat :: LengthAt(ll, z, s, len, a) && Undecodable(dl, High(z, a), 30) && n == 0
  }

  /** Every item takes at least one bit. */
  lemma ItemTakes(ll: seq<nat>, dl: seq<nat>, z: nat, item: Item, k: nat)
    requires ItemAt(ll, dl, z, item, k) && (item.Tok? || item == EndOfBlock)
    ensures k >= 1
  {
  }

  /** The two codes of a block, neither over-subscribed. */
  ghost predicate BlockCodes(ll: seq<nat>, dl: seq<nat>)
  {
    && ValidLengths(ll) && ValidLengths(dl) && |ll| <= 288 && |dl| <= 32
    && Kraft(ll) <= Pow2(MAXBITS) && Kraft(dl) <= Pow2(MAXBITS)
  }

  lemma LengthUnique(ll: seq<nat>, z: nat, s: nat, len: nat, n: nat, s': nat, len': nat, n': nat)
    requires ValidLengths(ll) && Kraft(ll) <= Pow2(MAXBITS)
    requires LengthAt(ll, z, s, len, n) && LengthAt(ll, z, s', len', n')
    ensures s == s' && len == len' && n == n'
  {
    PrefixFree(ll, s, s', z);
  }

  lemma DistanceUnique(dl: seq<nat>, z: nat, d: nat, dist: nat, n: nat, d': nat, dist': nat, n': nat)
    requires ValidLengths(dl) && Kraft(dl) <= Pow2(MAXBITS)
    requires DistanceAt(dl, z, d, dist, n) && DistanceAt(dl, z, d', dist', n')
    ensures d == d' && dist == dist' && n == n'
  {
    PrefixFree(dl, d, d', z);
  }

  /** The literal/length symbol that an item begins with. */
  ghost predicate BeginsWith(ll: seq<nat>, z: nat, item: Item, s: nat)
  {
    && s < |ll| && Matches(ll, s, z)
    && match item
       case Tok(Literal(b)) => s == b
       case Tok(Match(_, _)) => 257 <= s <= 285
       case EndOfBlock => s == 256
       case BadLength => 286 <= s
       case BadDistance => 257 <= s <= 285
  }

  lemma ItemBegins(ll: seq<nat>, dl: seq<nat>, z: nat, item: Item, n: nat) returns (s: nat)
    requires ItemAt(ll, dl, z, item, n)
    ensures NoMatch(ll, z) <==> (item == BadLength && !BeginsWith(ll, z, item, s))
    ensures !NoMatch(ll, z) ==> BeginsWith(ll, z, item, s)
  {
    match item
    case Tok(Literal(b)) => s := b;
    case EndOfBlock => s := 256;
    case Tok(Match(len, dist)) =>
      var s', a: nat, d: nat, c: nat :| LengthAt(ll, z, s', len, a) && DistanceAt(dl, High(z, a), d, dist, c)
        && n == a + c;
      s := s';
    case BadDistance =>
      var s', len: nat, a: nat :| LengthAt(ll, z, s', len, a) && Undecodable(dl, High(z, a), 30) && n == 0;
      s := s';
    case BadLength =>
      if NoMatch(ll, z) { s := |ll|; } else { s :| 286 <= s < |ll| && Matches(ll, s, z); }
  }

  /** A stream begins with at most one item. */
  lemma ItemUnique(ll: seq<nat>, dl: seq<nat>, z: nat, i: Item, n: nat, i': Item, n': nat)
    requires BlockCodes(ll, dl) && ItemAt(ll, dl, z, i, n) && ItemAt(ll, dl, z, i', n')
    ensures i == i' && n == n'
  {
    var s := ItemBegins(ll, dl, z, i, n);
    var s' := ItemBegins(ll, dl, z, i', n');
    if !NoMatch(ll, z) {
      PrefixFree(ll, s, s', z);
      if 257 <= s <= 285 { PairUnique(ll, dl, z, i, n, i', n'); }
    }
  }

  lemma PairUnique(ll: seq<nat>, dl: seq<nat>, z: nat, i: Item, n: nat, i': Item, n': nat)
    requires BlockCodes(ll, dl) && ItemAt(ll, dl, z, i, n) && ItemAt(ll, dl, z, i', n')
    requires i == BadDistance || (i.Tok? && i.t.Match?)
    requires i' == BadDistance || (i'.Tok? && i'.t.Match?)
    ensures i == i' && n == n'
  {
    var s, len, a, d, dist, c := PairParts(ll, dl, z, i, n);
    var s', len', a', d', dist', c' := PairParts(ll, dl, z, i', n');
    LengthUnique(ll, z, s, len, a, s', len', a');
    var y := High(z, a);
    if i == BadDistance && i' != BadDistance { PartsClash(dl, y, d', dist', c'); }
    if i != BadDistance && i' == BadDistance { PartsClash(dl, y, d, dist, c); }
    if i != BadDistance && i' != BadDistance { DistanceUnique(dl, y, d, dist, c, d', dist', c'); }
  }

  lemma PartsClash(dl: seq<nat>, y: nat, d: nat, dist: nat, c: nat)
    requires ValidLengths(dl) && Kraft(dl) <= Pow2(MAXBITS)
    requires DistanceAt(dl, y, d, dist, c)
    ensures !Undecodable(dl, y, 30)
  {
    if Undecodable(dl, y, 30) {
      var e :| 30 <= e < |dl| && Matches(dl, e, y);
      PrefixFree(dl, d, e, y);
    }
  }

  lemma PairParts(ll: seq<nat>, dl: seq<nat>, z: nat, i: Item, n: nat)
    returns (s: nat, len: nat, a: nat, d: nat, dist: nat, c: nat)
    requires ItemAt(ll, dl, z, i, n) && (i == BadDistance || (i.Tok? && i.t.Match?))
    ensures LengthAt(ll, z, s, len, a)
    ensures i == BadDistance ==> Undecodable(dl, High(z, a), 30) && n == 0
    ensures i != BadDistance ==> i.t == Match(len, dist) && DistanceAt(dl, High(z, a), d, dist, c) && n == a + c
  {
    d, dist, c := 0, 0, 0;
    if i == BadDistance {
      s, len, a :| LengthAt(ll, z, s, len, a) && Undecodable(dl, High(z, a), 30) && n == 0;
    } else {
      len, dist := i.t.len, i.t.dist;
      s, a, d, c :| LengthAt(ll, z, s, len, a) && DistanceAt(dl, High(z, a), d, dist, c) && n == a + c;
    }
  }

  /** Stream z begins with the tokens, one after another, in n bits. */
  ghost predicate TokensAt(ll: seq<nat>, dl: seq<nat>, z: nat, ts: seq<Token>, n: nat)
    decreases |ts|
  {
    if |ts| == 0 then n == 0
    else exists m: nat :: m <= n && TokensAt(ll, dl, z, ts[..|ts| - 1], m)
                          && ItemAt(ll, dl, High(z, m), Tok(ts[|ts| - 1]), n - m)
  }

  lemma TokensSnoc(ll: seq<nat>, dl: seq<nat>, z: nat, ts: seq<Token>, m: nat, t: Token, n: nat)
    requires TokensAt(ll, dl, z, ts, m) && ItemAt(ll, dl, High(z, m), Tok(t), n)
    ensures TokensAt(ll, dl, z, ts + [t], m + n)
  {
    assert (ts + [t])[..|ts|] == ts && (ts + [t])[|ts|] == t;
    assert m + n - m == n;
  }

  /** The bits before the last token. */
  lemma TokensLast(ll: seq<nat>, dl: seq<nat>, z: nat, ts: seq<Token>, n: nat) returns (m: nat)
    requires TokensAt(ll, dl, z, ts, n) && |ts| > 0
    ensures m <= n && TokensAt(ll, dl, z, ts[..|ts| - 1], m)
    ensures ItemAt(ll, dl, High(z, m), Tok(ts[|ts| - 1]), n - m)
  {
    m :| m <= n && TokensAt(ll, dl, z, ts[..|ts| - 1], m) && ItemAt(ll, dl, High(z, m), Tok(ts[|ts| - 1]), n - m);
  }

  lemma NoTokens(ll: seq<nat>, dl: seq<nat>, z: nat, ts: seq<Token>, n: nat)
    requires TokensAt(ll, dl, z, ts, n) && |ts| == 0
    ensures n == 0
  {
  }

  /** The stream determines the tokens and the bits they take. */
  lemma {:induction false} TokensUnique(ll: seq<nat>, dl: seq<nat>, z: nat, ts: seq<Token>, n: nat, ts': seq<Token>,
                                        n': nat)
    requires BlockCodes(ll, dl) && TokensAt(ll, dl, z, ts, n) && TokensAt(ll, dl, z, ts', n') && |ts| == |ts'|
    ensures ts == ts' && n == n'
    decreases |ts|
  {
    hide *;
    if |ts| == 0 {
      NoTokens(ll, dl, z, ts, n);
      NoTokens(ll, dl, z, ts', n');
    } else {
      var k := |ts| - 1;
      var m := TokensLast(ll, dl, z, ts, n);
      var m' := TokensLast(ll, dl, z, ts', n');
      TokensUnique(ll, dl, z, ts[..k], m, ts'[..k], m');
      ItemUnique(ll, dl, High(z, m), Tok(ts[k]), n - m, Tok(ts'[k]), n' - m');
      assert ts == ts[..k] + [ts[k]] && ts' == ts'[..k] + [ts'[k]];
    }
  }

  /** The output h is the expansion of the tokens in the first m bits, from the output h0 on. */
  ghost predicate Produced(ll: seq<nat>, dl: seq<nat>, z: nat, h0: seq<byte>, h: seq<byte>, ts: seq<Token>, m: nat)
  {
    TokensAt(ll, dl, z, ts, m) && Expand(h0, ts) == Some(h)
  }

  lemma ProducedStart(ll: seq<nat>, dl: seq<nat>, z: nat, h0: seq<byte>)
    ensures Produced(ll, dl, z, h0, h0, [], 0)
  {
  }

  lemma ProducedMore(ll: seq<nat>, dl: seq<nat>, z: nat, h0: seq<byte>, h: seq<byte>, ts: seq<Token>, m: nat, t: Token,
                     k: nat)
    requires Produced(ll, dl, z, h0, h, ts, m) && ItemAt(ll, dl, High(z, m), Tok(t), k) && Apply(h, t).Some?
    ensures Produced(ll, dl, z, h0, Apply(h, t).value, ts + [t], m + k)
  {
    hide TokensAt, ItemAt, Expand;
    TokensSnoc(ll, dl, z, ts, m, t, k);
    ExpandSnoc(h0, ts, t);
  }

  /** Tokens that go on after others. */
  lemma {:induction false} ProducedAppend(ll: seq<nat>, dl: seq<nat>, z: nat, h0: seq<byte>, h: seq<byte>,
                                          ts: seq<Token>, m: nat, h': seq<byte>, ts': seq<Token>, m': nat)
    requires Produced(ll, dl, z, h0, h, ts, m) && Produced(ll, dl, High(z, m), h, h', ts', m')
    ensures Produced(ll, dl, z, h0, h', ts + ts', m + m')
    decreases |ts'|
  {
    hide *;
    if |ts'| == 0 {
      ProducedNone(ll, dl, High(z, m), h, h', ts', m');
      assert ts + ts' == ts;
    } else {
      var last := |ts'| - 1;
      var g, n := ProducedLast(ll, dl, High(z, m), h, h', ts', m');
      ProducedAppend(ll, dl, z, h0, h, ts, m, g, ts'[..last], n);
      HighHigh(z, m, n);
      ProducedMore(ll, dl, z, h0, g, ts + ts'[..last], m + n, ts'[last], m' - n);
      assert ts + ts'[..last] + [ts'[last]] == ts + ts';
    }
  }

  lemma ProducedNone(ll: seq<nat>, dl: seq<nat>, z: nat, h0: seq<byte>, h: seq<byte>, ts: seq<Token>, m: nat)
    requires Produced(ll, dl, z, h0, h, ts, m) && |ts| == 0
    ensures m == 0 && h == h0
  {
  }

  lemma ProducedLast(ll: seq<nat>, dl: seq<nat>, z: nat, h0: seq<byte>, h: seq<byte>, ts: seq<Token>, m: nat)
    returns (g: seq<byte>, n: nat)
    requires Produced(ll, dl, z, h0, h, ts, m) && |ts| > 0
    ensures n <= m && Produced(ll, dl, z, h0, g, ts[..|ts| - 1], n) && Apply(g, ts[|ts| - 1]) == Some(h)
    ensures ItemAt(ll, dl, High(z, n), Tok(ts[|ts| - 1]), m - n)
  {
    hide ItemAt, High, Apply;
    n := TokensLast(ll, dl, z, ts, m);
    g := Expand(h0, ts[..|ts| - 1]).value;
  }

  // ---------------------------------------------------------------- matches that go too far

  /** How a match may go too far: it reaches beyond all output, though by no more than there is output if distances are
      checked (sane); or it stays within the output but reaches beyond the window. */
  datatype Excess = BeyondOutput(sane: bool) | BeyondWindow(wsize: nat)

  predicate Exceeds(x: Excess, n: nat, dist: nat)
  {
    match x
    case BeyondOutput(sane) => n < dist && (sane ==> dist <= 2 * n)
    case BeyondWindow(wsize) => wsize < dist <= n
  }

  /** After tokens of the format, with output g, comes a match that goes too far. */
  ghost predicate StrayAfter(x: Excess, ll: seq<nat>, dl: seq<nat>, z: nat, h: seq<byte>, ts: seq<Token>, m: nat,
                             g: seq<byte>, len: nat, dist: nat, k: nat)
  {
    Produced(ll, dl, z, h, g, ts, m) && ItemAt(ll, dl, High(z, m), Tok(Match(len, dist)), k) && Exceeds(x, |g|, dist)
  }

  ghost predicate StrayMatch(x: Excess, ll: seq<nat>, dl: seq<nat>, z: nat, h: seq<byte>)
  {
    exists ts: seq<Token>, m: nat, g: seq<byte>, len: nat, dist: nat, k: nat ::
      StrayAfter(x, ll, dl, z, h, ts, m, g, len, dist, k)
  }

  ghost predicate Strays(ll: seq<nat>, dl: seq<nat>, z: nat, h: seq<byte>, wsize: nat, sane: bool)
  {
    StrayMatch(BeyondOutput(sane), ll, dl, z, h) || StrayMatch(BeyondWindow(wsize), ll, dl, z, h)
  }

  /** A decoder has taken the tokens in the first m bits and has output h: their expansion, unless a match went too
      far. */
  ghost predicate Took(ll: seq<nat>, dl: seq<nat>, z: nat, h0: seq<byte>, h: seq<byte>, ts: seq<Token>, m: nat,
                       wsize: nat, sane: bool)
  {
    && TokensAt(ll, dl, z, ts, m) && |h| == |h0| + Length(ts)
    && (Expand(h0, ts) == Some(h) || Strays(ll, dl, z, h0, wsize, sane))
  }

  lemma TookNone(ll: seq<nat>, dl: seq<nat>, z: nat, h: seq<byte>, wsize: nat, sane: bool)
    ensures Took(ll, dl, z, h, h, [], 0, wsize, sane)
  {
  }

  /** One more token: the output grows by what it stands for, or by as many bytes. */
  lemma TookMore(ll: seq<nat>, dl: seq<nat>, z: nat, h0: seq<byte>, h: seq<byte>, ts: seq<Token>, m: nat, wsize: nat,
                 sane: bool, t: Token, k: nat, h': seq<byte>)
    requires Took(ll, dl, z, h0, h, ts, m, wsize, sane) && ItemAt(ll, dl, High(z, m), Tok(t), k)
    requires |h'| == |h| + Adds(t)
    requires Apply(h, t) == Some(h') || (t.Match? && GoesTooFar(|h|, t.dist, wsize, sane))
    ensures Took(ll, dl, z, h0, h', ts + [t], m + k, wsize, sane)
  {
    hide TokensAt, ItemAt, Expand, Length, Apply, Exceeds;
    TokensSnoc(ll, dl, z, ts, m, t, k);
    LengthSnoc(ts, t);
    if Expand(h0, ts) == Some(h) {
      ExpandSnoc(h0, ts, t);
      if Apply(h, t) != Some(h') {
        var x := if Exceeds(BeyondOutput(sane), |h|, t.dist) then BeyondOutput(sane) else BeyondWindow(wsize);
        assert StrayAfter(x, ll, dl, z, h0, ts, m, h, t.len, t.dist, k);
      }
    }
  }

  predicate GoesTooFar(n: nat, dist: nat, wsize: nat, sane: bool)
  {
    Exceeds(BeyondOutput(sane), n, dist) || Exceeds(BeyondWindow(wsize), n, dist)
  }

  /** A match that goes too far in what follows goes too far in the whole. */
  lemma StrayLater(x: Excess, ll: seq<nat>, dl: seq<nat>, z: nat, h0: seq<byte>, h: seq<byte>, ts: seq<Token>, m: nat)
    requires Produced(ll, dl, z, h0, h, ts, m) && StrayMatch(x, ll, dl, High(z, m), h)
    ensures StrayMatch(x, ll, dl, z, h0)
  {
    hide Produced, ItemAt, High, Exceeds;
    var ts': seq<Token>, m': nat, g: seq<byte>, len: nat, dist: nat, k: nat :|
      StrayAfter(x, ll, dl, High(z, m), h, ts', m', g, len, dist, k);
    ProducedAppend(ll, dl, z, h0, h, ts, m, g, ts', m');
    HighHigh(z, m, m');
    assert StrayAfter(x, ll, dl, z, h0, ts + ts', m + m', g, len, dist, k);
  }

  /** Tokens that go on after others. */
  lemma TookAppend(ll: seq<nat>, dl: seq<nat>, z: nat, h0: seq<byte>, h: seq<byte>, ts: seq<Token>, m: nat, wsize: nat,
                   sane: bool, h': seq<byte>, ts': seq<Token>, m': nat)
    requires Took(ll, dl, z, h0, h, ts, m, wsize, sane) && Took(ll, dl, High(z, m), h, h', ts', m', wsize, sane)
    ensures Took(ll, dl, z, h0, h', ts + ts', m + m', wsize, sane)
  {
    hide TokensAt, High, StrayMatch, Expand, Length;
    TokensAppend(ll, dl, z, ts, m, ts', m');
    LengthAppend(ts, ts');
    if Expand(h0, ts) == Some(h) {
      assert Produced(ll, dl, z, h0, h, ts, m);
      if Expand(h, ts') == Some(h') {
        ProducedAppend(ll, dl, z, h0, h, ts, m, h', ts', m');
      } else if StrayMatch(BeyondOutput(sane), ll, dl, High(z, m), h) {
        StrayLater(BeyondOutput(sane), ll, dl, z, h0, h, ts, m);
      } else {
        StrayLater(BeyondWindow(wsize), ll, dl, z, h0, h, ts, m);
      }
    }
  }

  lemma {:induction false} TokensAppend(ll: seq<nat>, dl: seq<nat>, z: nat, ts: seq<Token>, m: nat, ts': seq<Token>,
                                        m': nat)
    requires TokensAt(ll, dl, z, ts, m) && TokensAt(ll, dl, High(z, m), ts', m')
    ensures TokensAt(ll, dl, z, ts + ts', m + m')
    decreases |ts'|
  {
    hide *;
    if |ts'| == 0 {
      NoTokens(ll, dl, High(z, m), ts', m');
      assert ts + ts' == ts;
    } else {
      var last := |ts'| - 1;
      var n := TokensLast(ll, dl, High(z, m), ts', m');
      TokensAppend(ll, dl, z, ts, m, ts'[..last], n);
      HighHigh(z, m, n);
      TokensSnoc(ll, dl, z, ts + ts'[..last], m + n, ts'[last], m' - n);
      assert ts + ts'[..last] + [ts'[last]] == ts + ts';
    }
  }

  lemma {:induction false} LengthAppend(ts: seq<Token>, ts': seq<Token>)
    ensures Length(ts + ts') == Length(ts) + Length(ts')
    decreases |ts'|
  {
    if |ts'| == 0 {
      assert ts + ts' == ts;
    } else {
      var last := |ts'| - 1;
      LengthAppend(ts, ts'[..last]);
      assert (ts + ts')[..|ts + ts'| - 1] == ts + ts'[..last];
    }
  }

  // ---------------------------------------------------------------- ranges

  /** Lengths are 3 to 258, with at most 5 extra bits. */
  lemma LengthRange(s: nat, x: nat)
    requires 257 <= s <= 285 && x < Pow2(ExtraLen(s))
    ensures ExtraLen(s) <= 5 && 3 <= LBASE[s - 257] + x <= 258
  {
    assert Pow2(0) == 1 && Pow2(1) == 2 && Pow2(2) == 4;
    assert Pow2(3) == 8 && Pow2(4) == 16;
    assert Pow2(5) == 32;
  }

  /** Distances are 1 to 32768, with at most 13 extra bits. */
  lemma DistanceRange(d: nat, x: nat)
    requires d < 30 && x < Pow2(ExtraDist(d))
    ensures ExtraDist(d) <= 13 && 1 <= DBASE[d] + x <= 32768
  {
    assert Pow2(0) == 1 && Pow2(1) == 2 && Pow2(2) == 4;
    assert Pow2(3) == 8 && Pow2(4) == 16;
    assert Pow2(5) == 32 && Pow2(6) == 64;
    assert Pow2(7) == 128 && Pow2(8) == 256;
    assert Pow2(9) == 512 && Pow2(10) == 1024;
    assert Pow2(11) == 2048 && Pow2(12) == 4096;
    assert Pow2(13) == 8192;
  }

  /** The decoding tables of a block and the codes they decode. */
  datatype Tables = Tables(lcode: seq<Code>, lenbits: nat, dcode: seq<Code>, distbits: nat)

  ghost predicate Ready(t: Tables, ll: seq<nat>, dl: seq<nat>)
  {
    && BlockCodes(ll, dl) && t.lenbits <= MAXBITS && t.distbits <= MAXBITS
    && Decodes(t.lcode, t.lenbits, LENS, ll) && Decodes(t.dcode, t.distbits, DISTS, dl)
  }

  /** No token of the format that a decoder could take: an invalid code, or a distance beyond far. */
  ghost predicate Invalid(ll: seq<nat>, dl: seq<nat>, z: nat, far: nat)
  {
    || ItemAt(ll, dl, z, BadLength, 0)
    || ItemAt(ll, dl, z, BadDistance, 0)
    || exists len: nat, dist: nat, k: nat :: dist > far && ItemAt(ll, dl, z, Tok(Match(len, dist)), k)
  }

  /** What a table lookup of stream z finds. */
  lemma Found(t: seq<Code>, root: nat, kind: CodeType, lens: seq<nat>, z: nat) returns (e: Code, n: nat, s: nat)
    requires |lens| <= MaxSymbols(kind) && ValidLengths(lens) && Decodes(t, root, kind, lens)
    ensures Lookup(t, root, z) == Hit(e, n) && n <= MAXBITS && Reach(t, root, z) <= MAXBITS
    ensures NoMatch(lens, z) ==> e == Code(64, 1, 0)
    ensures !NoMatch(lens, z) ==> s < |lens| && Matches(lens, s, z) && n == lens[s]
                                  && e == EntryOf(kind, s, EntryBits(lens[s], root))
  {
    s := 0;
    if NoMatch(lens, z) {
      e, n := Code(64, 1, 0), 1;
    } else {
      s :| 0 <= s < |lens| && Matches(lens, s, z);
      e, n := EntryOf(kind, s, EntryBits(lens[s], root)), lens[s];
    }
  }

  /** Bit 4 of an operation marks a length or distance base; its low four bits count the extra bits. */
  predicate IsBase(e: Code)
  {
    (e.op / 16) % 2 == 1
  }

  function ExtraBits(e: Code): nat
  {
    e.op % 16
  }

  lemma DistanceOps(d: nat, bits: nat)
    requires d < 32
    ensures IsBase(EntryOf(DISTS, d, bits)) <==> d < 30
    ensures d < 30 ==> EntryOf(DISTS, d, bits).val == DBASE[d]
                       && ExtraBits(EntryOf(DISTS, d, bits)) == ExtraDist(d) <= 13
  {
    if d < 30 { assert 16 <= DEXT[d] <= 29; }
  }

  lemma LengthOps(s: nat, bits: nat)
    requires s < 288
    ensures EntryOf(LENS, s, bits).op == 0 <==> s < 256
    ensures IsBase(EntryOf(LENS, s, bits)) <==> 257 <= s <= 285
    ensures s < 256 ==> EntryOf(LENS, s, bits).val == s
    ensures 257 <= s <= 285 ==> EntryOf(LENS, s, bits).val == LBASE[s - 257]
                                && ExtraBits(EntryOf(LENS, s, bits)) == ExtraLen(s) <= 5
    ensures s >= 256 && !IsBase(EntryOf(LENS, s, bits)) ==> ((EntryOf(LENS, s, bits).op / 32) % 2 == 1 <==> s == 256)
  {
    if 257 <= s <= 285 { assert 16 <= LEXT[s - 257] <= 21; }
  }

  /** Reading a distance entry. */
  lemma DistanceEntry(t: seq<Code>, root: nat, dl: seq<nat>, z: nat) returns (e: Code, n: nat, d: nat)
    requires |dl| <= 32 && ValidLengths(dl) && Decodes(t, root, DISTS, dl)
    ensures Lookup(t, root, z) == Hit(e, n) && n <= MAXBITS && Reach(t, root, z) <= MAXBITS
    ensures !IsBase(e) ==> Undecodable(dl, z, 30)
    ensures IsBase(e) ==> d < 30 && d < |dl| && Matches(dl, d, z) && n == dl[d]
    ensures IsBase(e) ==> e.val == DBASE[d] && ExtraBits(e) == ExtraDist(d) <= 13
  {
    hide EntryOf, Decodes, Lookup, Reach, Matches, ExtraDist;
    e, n, d := Found(t, root, DISTS, dl, z);
    if !NoMatch(dl, z) { DistanceOps(d, EntryBits(dl[d], root)); }
  }

  /** What literal/length entry e, found at the head of stream z with n bits to drop, stands for. */
  ghost predicate LengthMeans(ll: seq<nat>, z: nat, e: Code, n: nat, s: nat)
  {
    if e.op == 0 then s < 256 && s < |ll| && Matches(ll, s, z) && n == ll[s] && e.val == s
    else if IsBase(e) then
      && 257 <= s <= 285 && s < |ll| && Matches(ll, s, z) && n == ll[s]
      && e.val == LBASE[s - 257] && ExtraBits(e) == ExtraLen(s) <= 5
    else if (e.op / 32) % 2 == 1 then 256 < |ll| && Matches(ll, 256, z) && n == ll[256]
    else Undecodable(ll, z, 286)
  }

  lemma ExtraAtMost(ll: seq<nat>, z: nat, e: Code, n: nat, s: nat)
    requires LengthMeans(ll, z, e, n, s) && e.op != 0 && IsBase(e)
    ensures ExtraBits(e) <= 5
  {
  }

  /** Reading a literal/length entry. */
  lemma LengthEntry(t: seq<Code>, root: nat, ll: seq<nat>, z: nat) returns (e: Code, n: nat, s: nat)
    requires |ll| <= 288 && ValidLengths(ll) && Decodes(t, root, LENS, ll)
    ensures Lookup(t, root, z) == Hit(e, n) && n <= MAXBITS && Reach(t, root, z) <= MAXBITS
    ensures LengthMeans(ll, z, e, n, s)
  {
    hide EntryOf, Decodes, Lookup, Reach, Matches, ExtraLen;
    e, n, s := Found(t, root, LENS, ll, z);
    if !NoMatch(ll, z) { LengthOps(s, EntryBits(ll[s], root)); }
  }

  /** The item that an entry other than a length stands for. */
  function PlainItem(e: Code): Item
    requires e.op == 0 ==> e.val < 256
  {
    if e.op == 0 then Tok(Literal(e.val)) else if (e.op / 32) % 2 == 1 then EndOfBlock else BadLength
  }

  lemma PlainItemAt(ll: seq<nat>, dl: seq<nat>, z: nat, e: Code, n: nat, s: nat)
    requires LengthMeans(ll, z, e, n, s) && (e.op == 0 || !IsBase(e))
    ensures e.op == 0 ==> e.val < 256
    ensures ItemAt(ll, dl, z, PlainItem(e), if PlainItem(e) == BadLength then 0 else n)
    ensures PlainItem(e).Tok? ==> PlainItem(e).t.Literal?
  {
  }

  /** A length entry and its extra bits. */
  lemma LengthFound(ll: seq<nat>, z: nat, e: Code, n: nat, s: nat, x: nat)
    requires LengthMeans(ll, z, e, n, s) && e.op != 0 && IsBase(e) && x == Low(High(z, n), ExtraBits(e))
    ensures LengthAt(ll, z, s, e.val + x, n + ExtraBits(e)) && 3 <= e.val + x <= 258
  {
    LengthRange(s, x);
  }

  // ---------------------------------------------------------------- how many bits an item needs

  /** No token and no end of block at the head of stream z within r bits. */
  ghost predicate NoItem(ll: seq<nat>, dl: seq<nat>, z: nat, r: int)
  {
    forall item: Item, n: nat :: (item.Tok? || item == EndOfBlock) && ItemAt(ll, dl, z, item, n) ==> n > r
  }

  /** An item takes at least the bits of its first code, and of the extra bits after a length. */
  lemma ItemNeeds(ll: seq<nat>, dl: seq<nat>, z: nat, item: Item, n: nat, e: Code, k: nat, l: nat)
    requires BlockCodes(ll, dl) && ItemAt(ll, dl, z, item, n) && (item.Tok? || item == EndOfBlock)
    requires LengthMeans(ll, z, e, k, l)
    ensures n >= k
    ensures e.op != 0 && IsBase(e) ==> item.Tok? && item.t.Match? && n >= k + ExtraBits(e)
  {
    hide Kraft, ValidLengths, Matches, ExtraLen, ExtraDist, Low, High;
    var s := ItemBegins(ll, dl, z, item, n);
    if e.op == 0 || IsBase(e) {
      PrefixFree(ll, s, l, z);
      if IsBase(e) && e.op != 0 { PairBits(ll, dl, z, item, n, l); }
    } else if (e.op / 32) % 2 == 1 {
      PrefixFree(ll, s, 256, z);
    } else if exists i :: 286 <= i < |ll| && Matches(ll, i, z) {
      var i :| 286 <= i < |ll| && Matches(ll, i, z);
      PrefixFree(ll, s, i, z);
    }
  }

  lemma PairBits(ll: seq<nat>, dl: seq<nat>, z: nat, item: Item, n: nat, l: nat)
    requires BlockCodes(ll, dl) && ItemAt(ll, dl, z, item, n) && item.Tok? && item.t.Match?
    requires 257 <= l <= 285 && l < |ll| && Matches(ll, l, z)
    ensures n >= ll[l] + ExtraLen(l)
  {
    hide Kraft, ValidLengths, Matches, ExtraLen, ExtraDist, Low, High;
    var s, len, a, d, dist, c := PairParts(ll, dl, z, item, n);
    PrefixFree(ll, s, l, z);
  }

  /** A match takes at least the bits of its distance code, which is one of those that stand for distances. */
  lemma PairNeeds(ll: seq<nat>, dl: seq<nat>, z: nat, item: Item, n: nat, l: nat, len: nat, a: nat, d: nat)
    requires BlockCodes(ll, dl) && ItemAt(ll, dl, z, item, n) && (item.Tok? || item == EndOfBlock)
    requires LengthAt(ll, z, l, len, a)
    ensures !Undecodable(dl, High(z, a), 30)
    ensures d < |dl| && Matches(dl, d, High(z, a)) ==> d < 30 && n >= a + dl[d] + ExtraDist(d)
  {
    hide Kraft, ValidLengths, Matches, ExtraLen, ExtraDist, Low, High;
    var s := ItemBegins(ll, dl, z, item, n);
    PrefixFree(ll, s, l, z);
    var s', len', a', d', dist', c' := PairParts(ll, dl, z, item, n);
    PrefixFree(ll, s', l, z);
    PartsClash(dl, High(z, a), d', dist', c');
    if d < |dl| && Matches(dl, d, High(z, a)) { PrefixFree(dl, d, d', High(z, a)); }
  }
}
