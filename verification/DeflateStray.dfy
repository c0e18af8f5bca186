/** Streams on which a decoder and the format may part: a match reaches beyond the output, or beyond the window, or a
    table does not fit. All others a decoder reads exactly as the format does. */
module DeflateStray {
  import opened Common
  import opened Bits
  import opened Huffman
  import opened DecodeTable
  import opened Lz77
  import opened BlockData
  import opened DeflateFormat
  import opened InflateTable
  import opened DeflateUnique
  import opened DeflateRefusal
  import opened DeflateReading

  /** A valid header after which a match goes too far. */
  ghost predicate StrayDynamic(x: Excess, z: nat, h: seq<byte>)
  {
    exists ll: seq<nat>, dl: seq<nat>, q: nat :: HeaderAt(z, ll, dl, q) && StrayMatch(x, ll, dl, High(z, q), h)
  }

  ghost predicate StrayBlock(x: Excess, z: nat, p: nat, h: seq<byte>)
  {
    var kind := Low(High(z, p + 1), 2);
    || (kind == 1 && StrayMatch(x, FixedLengths(), FixedDistances(), High(z, p + 3), h))
    || (kind == 2 && StrayDynamic(x, High(z, p + 3), h))
  }

  /** The stream is one of the format up to a match that goes too far. */
  ghost predicate StrayStream(x: Excess, z: nat)
  {
    exists k: nat, h: seq<byte>, p: nat :: BlocksAt(z, k, h, p, false) && StrayBlock(x, z, p, h)
  }

  /** Up to a match beyond the output; if distances are checked, beyond it by no more than there is. */
  ghost predicate TooFar(z: nat, sane: bool)
  {
    StrayStream(BeyondOutput(sane), z)
  }

  ghost predicate BigBlock(z: nat, p: nat)
  {
    Low(High(z, p + 1), 2) == 2 && BigHeader(High(z, p + 3))
  }

  /** Some dynamic block of the stream has a code whose table does not fit. */
  ghost predicate BigStream(z: nat)
  {
    exists k: nat, h: seq<byte>, p: nat :: BlocksAt(z, k, h, p, false) && BigBlock(z, p)
  }

  /** What a decoder with such a window may not read though it is of the format. */
  ghost predicate HardStream(z: nat, wsize: nat)
  {
    StrayStream(BeyondWindow(wsize), z) || BigStream(z)
  }

  /** The stream is not one of the format, at least none that ends within r bits. */
  ghost predicate NoStream(z: nat, bad: bool, r: int)
  {
    forall h: seq<byte>, p: nat :: Inflates(z, h, p) ==> Past(bad, p, r)
  }

  /** The first r bits of the stream begin with a complete deflate stream. */
  ghost predicate Decodable(z: nat, r: int)
  {
    exists h: seq<byte>, p: nat :: Inflates(z, h, p) && p <= r
  }

  lemma DecodableIf(z: nat, h: seq<byte>, p: nat, r: int, bad: bool)
    ensures Inflates(z, h, p) && p <= r ==> Decodable(z, r)
    ensures NoStream(z, bad, r) ==> !Decodable(z, r)
  {
    hide Inflates;
  }

  // ---------------------------------------------------------------- the format as a reading

  /** Every match of expanding tokens stays within the output. */
  lemma {:induction false} MatchWithin(h: seq<byte>, ts: seq<Token>, k: nat)
    requires Expand(h, ts).Some? && k < |ts|
    ensures Expand(h, ts[..k]).Some? && Apply(Expand(h, ts[..k]).value, ts[k]).Some?
    decreases |ts|
  {
    hide Apply;
    var last := |ts| - 1;
    if k < last {
      MatchWithin(h, ts[..last], k);
      assert ts[..last][..k] == ts[..k];
    }
  }

  /** A match among expanding tokens stays within the output, and if it is longer than wsize, it is a match that goes
      too far. */
  lemma MatchReach(ll: seq<nat>, dl: seq<nat>, z: nat, h: seq<byte>, ts: seq<Token>, m: nat, k: nat, m': nat,
                   wsize: nat)
    requires BlockCodes(ll, dl) && TokensAt(ll, dl, z, ts, m) && Expand(h, ts).Some?
    requires k < |ts| && TokensAt(ll, dl, z, ts[..k], m') && ts[k].Match?
    ensures ts[k].dist <= |h| + Length(ts[..k])
    ensures ts[k].dist > wsize ==> StrayMatch(BeyondWindow(wsize), ll, dl, z, h)
  {
    hide BlockCodes, TokensAt, ItemAt, Expand, Length, High;
    var m'', n := TokensPrefix(ll, dl, z, ts, m, k);
    TokensUnique(ll, dl, z, ts[..k], m', ts[..k], m'');
    MatchWithin(h, ts, k);
    ExpandLength(h, ts[..k]);
    if ts[k].dist > wsize {
      assert StrayAfter(BeyondWindow(wsize), ll, dl, z, h, ts[..k], m', Expand(h, ts[..k]).value, ts[k].len, ts[k].dist,
                        n);
    }
  }

  lemma MatchesAllowed(c: Policy, ll: seq<nat>, dl: seq<nat>, z: nat, p: nat, h: seq<byte>, ts: seq<Token>, m: nat)
    requires BlockCodes(ll, dl) && TokensAt(ll, dl, High(z, p), ts, m) && Expand(h, ts).Some?
    requires c.Sure? ==> !StrayMatch(BeyondWindow(c.d.wsize), ll, dl, High(z, p), h)
    ensures Allowed(c, ll, dl, z, p, |h|, ts)
  {
    hide BlockCodes, TokensAt, ItemAt, Expand, Length, High, Align, StrayMatch;
    forall k: nat, m': nat | k < |ts| && TokensAt(ll, dl, High(z, p), ts[..k], m') && ts[k].Match?
      ensures Allows(c, |h|, |h| + Length(ts[..k]), p + m', ts[k].dist)
    {
      MatchReach(ll, dl, High(z, p), h, ts, m, k, m', if c.Sure? then c.d.wsize else 0);
    }
  }

  lemma CodedReading(c: Policy, ll: seq<nat>, dl: seq<nat>, z: nat, p: nat, h: seq<byte>, h': seq<byte>, p': nat)
    requires BlockCodes(ll, dl) && p <= p' && CodedAt(ll, dl, High(z, p), h, h', p' - p)
    requires c.Sure? ==> !StrayMatch(BeyondWindow(c.d.wsize), ll, dl, High(z, p), h)
    ensures CodedReads(c, ll, dl, z, p, |h|, |h'|, p')
  {
    hide BlockCodes, CodedAt, TokensAt, ItemAt, Expand, Length, High, Allowed, StrayMatch;
    var ts, m := CodedParts(ll, dl, High(z, p), h, h', p' - p);
    ExpandLength(h, ts);
    HighHigh(z, p, m);
    assert p' - p - m == p' - (p + m);
    MatchesAllowed(c, ll, dl, z, p, h, ts, m);
    assert ReadsBy(c, ll, dl, z, p, |h|, ts, m, p');
  }

  lemma BlockReading(c: Policy, z: nat, p: nat, h: seq<byte>, h': seq<byte>, p': nat, last: bool)
    requires BlockAt(z, p, h, h', p', last)
    requires c.Sure? ==> !StrayBlock(BeyondWindow(c.d.wsize), z, p, h) && !BigBlock(z, p)
    ensures BlockReads(c, z, p, |h|, |h'|, p', last)
  {
    hide BlockCodes, CodedAt, CodedReads, HeaderAt, StrayMatch, Low, High, DoesNotFit, FixedLengths, FixedDistances,
      Align;
    var kind := Low(High(z, p + 1), 2);
    if kind == 1 {
      FixedBlockCodes();
      CodedReading(c, FixedLengths(), FixedDistances(), z, p + 3, h, h', p');
    } else if kind == 2 {
      var ll: seq<nat>, dl: seq<nat>, q: nat :| DynamicAt(z, p, ll, dl, q, h, h', p');
      HeaderUnique(High(z, p + 3), ll, dl, q, ll, dl, q);
      HighHigh(z, p + 3, q);
      CodedReading(c, ll, dl, z, p + 3 + q, h, h', p');
      assert DynamicReads(c, z, p, ll, dl, q, |h|, |h'|, p');
    }
  }

  lemma {:induction false} BlocksReading(c: Policy, z: nat, k: nat, h: seq<byte>, p: nat, last: bool)
    requires BlocksAt(z, k, h, p, last) && (c.Sure? ==> !HardStream(z, c.d.wsize))
    ensures BlocksRead(c, z, k, |h|, p, last)
    decreases k
  {
    hide BlockAt, BlocksRead, BlockReads, StrayBlock, BigBlock, BlocksAt;
    if k == 0 {
      DeflateUnique.BlocksNone(z, h, p, last);
      DeflateReading.BlocksNone(c, z, |h|, p, last);
    } else {
      var h0, p0 := BlocksPrev(z, k, h, p, last);
      BlocksReading(c, z, k - 1, h0, p0, false);
      BlockReading(c, z, p0, h0, h, p, last);
      BlocksMore(c, z, k - 1, |h0|, p0, |h|, p, last);
    }
  }

  /** A deflate stream is read as such under every policy, unless it is one of the hard ones. */
  lemma InflatesReading(c: Policy, z: nat, h: seq<byte>, p: nat)
    requires Inflates(z, h, p) && (c.Sure? ==> !HardStream(z, c.d.wsize))
    ensures StreamReads(c, z, |h|, p)
  {
    hide BlocksAt, BlocksRead, HardStream;
    var k: nat :| BlocksAt(z, k, h, p, true);
    BlocksReading(c, z, k, h, p, true);
  }

  /** So what the decoder cannot read is no deflate stream. */
  lemma NoReadingNoStream(c: Policy, z: nat, bad: bool, r: int)
    requires NoReading(c, z, bad, r)
    ensures NoStream(z, bad, r) || (c.Sure? && HardStream(z, c.d.wsize))
  {
    hide Inflates, StreamReads, HardStream;
    if !(c.Sure? && HardStream(z, c.d.wsize)) {
      forall h: seq<byte>, p: nat | Inflates(z, h, p) ensures Past(bad, p, r) { InflatesReading(c, z, h, p); }
    }
  }

  // ---------------------------------------------------------------- matches beyond the output

  lemma StrayCodedFails(sane: bool, ll: seq<nat>, dl: seq<nat>, z: nat, p: nat, h: seq<byte>)
    requires BlockCodes(ll, dl) && StrayMatch(BeyondOutput(sane), ll, dl, High(z, p), h)
    ensures NoCoded(Strict, ll, dl, z, p, |h|, true, 0)
  {
    hide BlockCodes, TokensAt, ItemAt, Expand, Length, High, NoCoded;
    var ts: seq<Token>, m: nat, g: seq<byte>, len: nat, dist: nat, k: nat :|
      StrayAfter(BeyondOutput(sane), ll, dl, High(z, p), h, ts, m, g, len, dist, k);
    ExpandLength(h, ts);
    HighHigh(z, p, m);
    RefusedCoded(Strict, ll, dl, z, p, |h|, ts, m, 0);
  }

  lemma StrayBlockFails(sane: bool, z: nat, p: nat, h: seq<byte>)
    requires StrayBlock(BeyondOutput(sane), z, p, h)
    ensures NoBlock(Strict, z, p, |h|, true, 0)
  {
    hide BlockCodes, StrayMatch, HeaderAt, High, Low, NoCoded, NoBlock, FixedLengths, FixedDistances;
    if Low(High(z, p + 1), 2) == 1 {
      FixedBlockCodes();
      StrayCodedFails(sane, FixedLengths(), FixedDistances(), z, p + 3, h);
      FixedFails(Strict, z, p, |h|, true, 0);
    } else {
      var ll: seq<nat>, dl: seq<nat>, q: nat :|
        HeaderAt(High(z, p + 3), ll, dl, q) && StrayMatch(BeyondOutput(sane), ll, dl, High(High(z, p + 3), q), h);
      HeaderUnique(High(z, p + 3), ll, dl, q, ll, dl, q);
      HighHigh(z, p + 3, q);
      StrayCodedFails(sane, ll, dl, z, p + 3 + q, h);
      DynamicFails(Strict, z, p, ll, dl, q, |h|, true, 0);
    }
  }

  /** A stream with a match beyond its output is no deflate stream. */
  lemma TooFarFails(z: nat, sane: bool, r: int)
    requires TooFar(z, sane)
    ensures !Decodable(z, r)
  {
    hide BlocksAt, StrayBlock, NoBlock, NoReading, Inflates;
    var k: nat, h: seq<byte>, p: nat :| BlocksAt(z, k, h, p, false) && StrayBlock(BeyondOutput(sane), z, p, h);
    BlocksReading(Any, z, k, h, p, false);
    StrayBlockFails(sane, z, p, h);
    StreamFails(Strict, z, k, |h|, p, true, 0);
    NoReadingNoStream(Strict, z, true, 0);
  }

  // ---------------------------------------------------------------- matches beyond the window

  /** With a window of 32K no match that stays within the output is out of reach. */
  lemma NoneFar(ll: seq<nat>, dl: seq<nat>, z: nat, h: seq<byte>, wsize: nat)
    requires 32768 <= wsize
    ensures !StrayMatch(BeyondWindow(wsize), ll, dl, z, h)
  {
    hide TokensAt, LengthAt, Matches, Low, High, Expand, ExtraDist;
    if StrayMatch(BeyondWindow(wsize), ll, dl, z, h) {
      var ts: seq<Token>, m: nat, g: seq<byte>, len: nat, dist: nat, k: nat :|
        StrayAfter(BeyondWindow(wsize), ll, dl, z, h, ts, m, g, len, dist, k);
      var s, len', a, d, dist', c := PairParts(ll, dl, High(z, m), Tok(Match(len, dist)), k);
      DistanceRange(d, Low(High(High(High(z, m), a), dl[d]), ExtraDist(d)));
    }
  }

  /** With a window of 32K, want of table space is all that is hard. */
  lemma OnlyBig(z: nat, wsize: nat)
    requires 32768 <= wsize
    ensures !StrayStream(BeyondWindow(wsize), z)
    ensures HardStream(z, wsize) <==> BigStream(z)
  {
    hide BlocksAt, BigBlock, StrayMatch, HeaderAt, Low, High, FixedLengths, FixedDistances;
    forall ll: seq<nat>, dl: seq<nat>, y: nat, h: seq<byte> ensures !StrayMatch(BeyondWindow(wsize), ll, dl, y, h) {
      NoneFar(ll, dl, y, h, wsize);
    }
  }
}
