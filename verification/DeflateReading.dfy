/** Streams as a decoder reads them: blocks, headers, codes and tokens of the format, with the length of the output
    only, and with a policy for the distances. How far a decoder gets depends on nothing else. */
module DeflateReading {
  import opened Bits
  import opened Huffman
  import opened DecodeTable
  import opened Lz77
  import opened BlockData
  import opened DeflateFormat
  import opened InflateTable
  import opened DeflateUnique
  import opened DeflateRefusal

  /** What a decoder's answers depend on besides the bits: its window, whether all input came in one piece, and how many
      bits there are. */
  datatype Decoder = Decoder(wsize: nat, whole: bool, size: nat)

  /** The distances that the decoder takes whatever happens, at bit p, with n bytes of output, in a block that began
      with n0: those within output and window; and, if all input is at hand and both input and window have room for any
      match, those that reach beyond the output by no more than n0. */
  predicate Admits(d: Decoder, n0: nat, n: nat, p: nat, dist: nat)
  {
    || (dist <= n && dist <= d.wsize)
    || (d.whole && n + 258 <= d.wsize && Align(p) + 48 <= d.size && dist <= n + n0)
  }

  /** Which distances a reading may have: any, those of the format, or those that a decoder surely takes. Only in the
      last case must the tables fit. */
  datatype Policy = Any | Strict | Sure(d: Decoder)

  predicate Allows(c: Policy, n0: nat, n: nat, p: nat, dist: nat)
  {
    match c
    case Any => true
    case Strict => dist <= n
    case Sure(d) => Admits(d, n0, n, p, dist)
  }

  // ---------------------------------------------------------------- coded data

  ghost predicate Allowed(c: Policy, ll: seq<nat>, dl: seq<nat>, z: nat, p: nat, n0: nat, ts: seq<Token>)
  {
    forall k: nat, m: nat :: k < |ts| && TokensAt(ll, dl, High(z, p), ts[..k], m) && ts[k].Match? ==>
                               Allows(c, n0, n0 + Length(ts[..k]), p + m, ts[k].dist)
  }

  ghost predicate ReadsBy(c: Policy, ll: seq<nat>, dl: seq<nat>, z: nat, p: nat, n0: nat, ts: seq<Token>, m: nat,
                          p': nat)
  {
    && p + m <= p' && TokensAt(ll, dl, High(z, p), ts, m) && Allowed(c, ll, dl, z, p, n0, ts)
    && ItemAt(ll, dl, High(z, p + m), EndOfBlock, p' - (p + m))
  }

  /** Coded data from bit p to p' takes the length of the output from n0 to n. */
  ghost predicate CodedReads(c: Policy, ll: seq<nat>, dl: seq<nat>, z: nat, p: nat, n0: nat, n: nat, p': nat)
  {
    exists ts: seq<Token>, m: nat :: ReadsBy(c, ll, dl, z, p, n0, ts, m, p') && n == n0 + Length(ts)
  }

  ghost predicate NoCoded(c: Policy, ll: seq<nat>, dl: seq<nat>, z: nat, p: nat, n0: nat, bad: bool, r: int)
  {
    forall n: nat, p': nat :: CodedReads(c, ll, dl, z, p, n0, n, p') ==> Past(bad, p', r)
  }

  /** A reading goes on after any tokens that the stream begins with. */
  lemma CodedNext(c: Policy, ll: seq<nat>, dl: seq<nat>, z: nat, p: nat, n0: nat, n: nat, p': nat, ts: seq<Token>,
                  m: nat)
    returns (item: Item, k: nat)
    requires BlockCodes(ll, dl) && CodedReads(c, ll, dl, z, p, n0, n, p') && TokensAt(ll, dl, High(z, p), ts, m)
    ensures (item.Tok? || item == EndOfBlock) && ItemAt(ll, dl, High(z, p + m), item, k) && p + m + k <= p'
    ensures item.Tok? && item.t.Match? ==> Allows(c, n0, n0 + Length(ts), p + m, item.t.dist)
  {
    hide BlockCodes, TokensAt, ItemAt, Length, High, Allows;
    HighHigh(z, p, m);
    var ts': seq<Token>, m': nat :| ReadsBy(c, ll, dl, z, p, n0, ts', m', p') && n == n0 + Length(ts');
    HighHigh(z, p, m');
    NotShorter(ll, dl, High(z, p), ts', m', p' - (p + m'), ts, m);
    if |ts| == |ts'| {
      TokensUnique(ll, dl, High(z, p), ts, m, ts', m');
      item, k := EndOfBlock, p' - (p + m);
    } else {
      var m'', k' := TokensPrefix(ll, dl, High(z, p), ts', m', |ts|);
      TokensUnique(ll, dl, High(z, p), ts, m, ts'[..|ts|], m'');
      item, k := Tok(ts'[|ts|]), k';
    }
  }

  /** Why no reading goes on after tokens of m bits: an invalid code, or a distance that is not allowed. */
  ghost predicate Refuses(c: Policy, ll: seq<nat>, dl: seq<nat>, z: nat, p: nat, n0: nat, n: nat)
  {
    || ItemAt(ll, dl, High(z, p), BadLength, 0)
    || ItemAt(ll, dl, High(z, p), BadDistance, 0)
    || exists len: nat, dist: nat, k: nat ::
         !Allows(c, n0, n, p, dist) && ItemAt(ll, dl, High(z, p), Tok(Match(len, dist)), k)
  }

  lemma RefusedCoded(c: Policy, ll: seq<nat>, dl: seq<nat>, z: nat, p: nat, n0: nat, ts: seq<Token>, m: nat, r: int)
    requires BlockCodes(ll, dl) && TokensAt(ll, dl, High(z, p), ts, m)
    requires Refuses(c, ll, dl, z, p + m, n0, n0 + Length(ts))
    ensures NoCoded(c, ll, dl, z, p, n0, true, r)
  {
    hide BlockCodes, TokensAt, ItemAt, Length, High, Allows, CodedReads;
    forall n: nat, p': nat ensures !CodedReads(c, ll, dl, z, p, n0, n, p') {
      if CodedReads(c, ll, dl, z, p, n0, n, p') {
        var item, k := CodedNext(c, ll, dl, z, p, n0, n, p', ts, m);
        var y := High(z, p + m);
        if ItemAt(ll, dl, y, BadLength, 0) {
          ItemUnique(ll, dl, y, BadLength, 0, item, k);
        } else if ItemAt(ll, dl, y, BadDistance, 0) {
          ItemUnique(ll, dl, y, BadDistance, 0, item, k);
        } else {
          var len: nat, dist: nat, k': nat :| !Allows(c, n0, n0 + Length(ts), p + m, dist)
            && ItemAt(ll, dl, y, Tok(Match(len, dist)), k');
          ItemUnique(ll, dl, y, Tok(Match(len, dist)), k', item, k);
        }
      }
    }
  }

  /** Not enough bits for another item. */
  lemma StarvedCoded(c: Policy, ll: seq<nat>, dl: seq<nat>, z: nat, p: nat, n0: nat, ts: seq<Token>, m: nat, r: int)
    requires BlockCodes(ll, dl) && TokensAt(ll, dl, High(z, p), ts, m) && NoItem(ll, dl, High(z, p + m), r - (p + m))
    ensures NoCoded(c, ll, dl, z, p, n0, false, r)
  {
    hide BlockCodes, TokensAt, ItemAt, Length, High, Allows, CodedReads;
    forall n: nat, p': nat | CodedReads(c, ll, dl, z, p, n0, n, p') ensures p' > r {
      var item, k := CodedNext(c, ll, dl, z, p, n0, n, p', ts, m);
    }
  }

  /** Any reading is one without conditions on distances. */
  lemma CodedAny(c: Policy, ll: seq<nat>, dl: seq<nat>, z: nat, p: nat, n0: nat, n: nat, p': nat)
    requires CodedReads(c, ll, dl, z, p, n0, n, p')
    ensures CodedReads(Any, ll, dl, z, p, n0, n, p')
  {
    hide TokensAt, ItemAt, Length, High;
    var ts: seq<Token>, m: nat :| ReadsBy(c, ll, dl, z, p, n0, ts, m, p') && n == n0 + Length(ts);
    assert ReadsBy(Any, ll, dl, z, p, n0, ts, m, p');
  }

  /** The bits fix where coded data ends, and how long the output is. */
  lemma CodedEnd(ll: seq<nat>, dl: seq<nat>, z: nat, p: nat, n0: nat, n: nat, p': nat, n2: nat, p2: nat)
    requires BlockCodes(ll, dl)
    requires CodedReads(Any, ll, dl, z, p, n0, n, p') && CodedReads(Any, ll, dl, z, p, n0, n2, p2)
    ensures n == n2 && p' == p2
  {
    hide BlockCodes, TokensAt, ItemAt, Length, High, Allowed;
    var ts: seq<Token>, m: nat :| ReadsBy(Any, ll, dl, z, p, n0, ts, m, p') && n == n0 + Length(ts);
    var ts': seq<Token>, m': nat :| ReadsBy(Any, ll, dl, z, p, n0, ts', m', p2) && n2 == n0 + Length(ts');
    HighHigh(z, p, m);
    HighHigh(z, p, m');
    NotShorter(ll, dl, High(z, p), ts, m, p' - (p + m), ts', m');
    NotShorter(ll, dl, High(z, p), ts', m', p2 - (p + m'), ts, m);
    TokensUnique(ll, dl, High(z, p), ts, m, ts', m');
    ItemUnique(ll, dl, High(z, p + m), EndOfBlock, p' - (p + m), EndOfBlock, p2 - (p + m));
  }

  // ---------------------------------------------------------------- blocks

  /** A stored block from its type bits on. */
  ghost predicate StoredReads(z: nat, p: nat, n0: nat, n: nat, p': nat)
  {
    var y := High(z, Align(p));
    Low(High(y, 16), 16) == 0xFFFF - Low(y, 16) && n == n0 + Low(y, 16) && p' == Align(p) + 32 + 8 * Low(y, 16)
  }

  ghost predicate NoStored(z: nat, p: nat, n0: nat, bad: bool, r: int)
  {
    forall n: nat, p': nat :: StoredReads(z, p, n0, n, p') ==> Past(bad, p', r)
  }

  /** A dynamic block: three type bits, a header of q bits, then data in its codes. */
  ghost predicate DynamicReads(c: Policy, z: nat, p: nat, ll: seq<nat>, dl: seq<nat>, q: nat, n0: nat, n: nat, p': nat)
  {
    && HeaderAt(High(z, p + 3), ll, dl, q) && (c.Sure? ==> !DoesNotFit(ll, dl))
    && CodedReads(c, ll, dl, z, p + 3 + q, n0, n, p')
  }

  ghost predicate BlockReads(c: Policy, z: nat, p: nat, n0: nat, n: nat, p': nat, last: bool)
  {
    && (last <==> Low(High(z, p), 1) == 1)
    && var kind := Low(High(z, p + 1), 2);
       if kind == 0 then StoredReads(z, p + 3, n0, n, p')
       else if kind == 1 then CodedReads(c, FixedLengths(), FixedDistances(), z, p + 3, n0, n, p')
       else kind == 2 && exists ll: seq<nat>, dl: seq<nat>, q: nat :: DynamicReads(c, z, p, ll, dl, q, n0, n, p')
  }

  ghost predicate NoBlock(c: Policy, z: nat, p: nat, n0: nat, bad: bool, r: int)
  {
    forall n: nat, p': nat, last: bool :: BlockReads(c, z, p, n0, n, p', last) ==> Past(bad, p', r)
  }

  lemma FixedFails(c: Policy, z: nat, p: nat, n0: nat, bad: bool, r: int)
    requires Low(High(z, p + 1), 2) == 1 && NoCoded(c, FixedLengths(), FixedDistances(), z, p + 3, n0, bad, r)
    ensures NoBlock(c, z, p, n0, bad, r)
  {
    hide Low, High, CodedReads, FixedLengths, FixedDistances;
  }

  lemma StoredFails(c: Policy, z: nat, p: nat, n0: nat, bad: bool, r: int)
    requires Low(High(z, p + 1), 2) == 0 && NoStored(z, p + 3, n0, bad, r)
    ensures NoBlock(c, z, p, n0, bad, r)
  {
    hide Low, High, StoredReads;
  }

  lemma CodedGrows(c: Policy, ll: seq<nat>, dl: seq<nat>, z: nat, p: nat, n0: nat, n: nat, p': nat)
    requires CodedReads(c, ll, dl, z, p, n0, n, p')
    ensures p <= p'
  {
    hide TokensAt, ItemAt, Length, High, Allowed;
  }

  lemma HeaderFails(c: Policy, z: nat, p: nat, n0: nat, bad: bool, r: int)
    requires Low(High(z, p + 1), 2) == 2 && NoHeader(High(z, p + 3), bad, r - (p + 3))
    ensures NoBlock(c, z, p, n0, bad, r)
  {
    hide Low, High, HeaderAt, CodedReads, DoesNotFit;
    forall n: nat, p': nat, last: bool | BlockReads(c, z, p, n0, n, p', last) ensures Past(bad, p', r) {
      var ll: seq<nat>, dl: seq<nat>, q: nat :| DynamicReads(c, z, p, ll, dl, q, n0, n, p');
      CodedGrows(c, ll, dl, z, p + 3 + q, n0, n, p');
    }
  }

  /** A table that does not fit. */
  lemma BigFails(d: Decoder, z: nat, p: nat, n0: nat, bad: bool, r: int)
    requires Low(High(z, p + 1), 2) == 2 && BigHeader(High(z, p + 3))
    ensures NoBlock(Sure(d), z, p, n0, bad, r)
  {
    hide Low, High, HeaderAt, CodedReads, DoesNotFit, BlockCodes;
    forall n: nat, p': nat, last: bool ensures !BlockReads(Sure(d), z, p, n0, n, p', last) {
      if BlockReads(Sure(d), z, p, n0, n, p', last) {
        var ll: seq<nat>, dl: seq<nat>, q: nat :| DynamicReads(Sure(d), z, p, ll, dl, q, n0, n, p');
        var ll': seq<nat>, dl': seq<nat>, q': nat :| HeaderAt(High(z, p + 3), ll', dl', q') && DoesNotFit(ll', dl');
        HeaderUnique(High(z, p + 3), ll, dl, q, ll', dl', q');
      }
    }
  }

  lemma DynamicFails(c: Policy, z: nat, p: nat, ll: seq<nat>, dl: seq<nat>, q: nat, n0: nat, bad: bool, r: int)
    requires Low(High(z, p + 1), 2) == 2 && HeaderAt(High(z, p + 3), ll, dl, q)
    requires NoCoded(c, ll, dl, z, p + 3 + q, n0, bad, r)
    ensures NoBlock(c, z, p, n0, bad, r)
  {
    hide Low, High, HeaderAt, CodedReads, DoesNotFit, BlockCodes;
    forall n: nat, p': nat, last: bool | BlockReads(c, z, p, n0, n, p', last) ensures Past(bad, p', r) {
      var ll': seq<nat>, dl': seq<nat>, q': nat :| DynamicReads(c, z, p, ll', dl', q', n0, n, p');
      HeaderUnique(High(z, p + 3), ll, dl, q, ll', dl', q');
    }
  }

  /** The fourth block type. */
  lemma TypeFails(c: Policy, z: nat, p: nat, n0: nat, r: int)
    requires Low(High(z, p + 1), 2) == 3
    ensures NoBlock(c, z, p, n0, true, r)
  {
    hide Low, High, StoredReads, CodedReads, DynamicReads, FixedLengths, FixedDistances;
  }

  lemma BlockGrows(c: Policy, z: nat, p: nat, n0: nat, n: nat, p': nat, last: bool)
    requires BlockReads(c, z, p, n0, n, p', last)
    ensures p + 3 <= p'
  {
    hide Low, High, CodedReads, HeaderAt, FixedLengths, FixedDistances, DoesNotFit;
    var kind := Low(High(z, p + 1), 2);
    if kind == 1 {
      CodedGrows(c, FixedLengths(), FixedDistances(), z, p + 3, n0, n, p');
    } else if kind == 2 {
      var ll: seq<nat>, dl: seq<nat>, q: nat :| DynamicReads(c, z, p, ll, dl, q, n0, n, p');
      CodedGrows(c, ll, dl, z, p + 3 + q, n0, n, p');
    }
  }

  /** Too few bits for the head of a block. */
  lemma HeadFails(c: Policy, z: nat, p: nat, n0: nat, r: int)
    requires p + 3 > r
    ensures NoBlock(c, z, p, n0, false, r)
  {
    hide BlockReads;
    forall n: nat, p': nat, last: bool | BlockReads(c, z, p, n0, n, p', last)
      ensures p' > r
    {
      BlockGrows(c, z, p, n0, n, p', last);
    }
  }

  lemma BlockAny(c: Policy, z: nat, p: nat, n0: nat, n: nat, p': nat, last: bool)
    requires BlockReads(c, z, p, n0, n, p', last)
    ensures BlockReads(Any, z, p, n0, n, p', last)
  {
    hide Low, High, CodedReads, HeaderAt, FixedLengths, FixedDistances, DoesNotFit, StoredReads;
    var kind := Low(High(z, p + 1), 2);
    if kind == 1 {
      CodedAny(c, FixedLengths(), FixedDistances(), z, p + 3, n0, n, p');
    } else if kind == 2 {
      var ll: seq<nat>, dl: seq<nat>, q: nat :| DynamicReads(c, z, p, ll, dl, q, n0, n, p');
      CodedAny(c, ll, dl, z, p + 3 + q, n0, n, p');
      assert DynamicReads(Any, z, p, ll, dl, q, n0, n, p');
    }
  }

  lemma BlockEnd(z: nat, p: nat, n0: nat, n: nat, p': nat, last: bool, n2: nat, p2: nat, last2: bool)
    requires BlockReads(Any, z, p, n0, n, p', last) && BlockReads(Any, z, p, n0, n2, p2, last2)
    ensures n == n2 && p' == p2 && last == last2
  {
    hide Low, High, CodedReads, HeaderAt, FixedLengths, FixedDistances, DoesNotFit, BlockCodes, Align;
    var kind := Low(High(z, p + 1), 2);
    if kind == 1 {
      FixedBlockCodes();
      CodedEnd(FixedLengths(), FixedDistances(), z, p + 3, n0, n, p', n2, p2);
    } else if kind == 2 {
      var ll: seq<nat>, dl: seq<nat>, q: nat :| DynamicReads(Any, z, p, ll, dl, q, n0, n, p');
      var ll': seq<nat>, dl': seq<nat>, q': nat :| DynamicReads(Any, z, p, ll', dl', q', n0, n2, p2);
      HeaderUnique(High(z, p + 3), ll, dl, q, ll', dl', q');
      CodedEnd(ll, dl, z, p + 3 + q, n0, n, p', n2, p2);
    }
  }

  // ---------------------------------------------------------------- streams

  /** The first k blocks give n bytes and end at bit p; only the last may be marked so. */
  ghost predicate BlocksRead(c: Policy, z: nat, k: nat, n: nat, p: nat, last: bool)
    decreases k
  {
    if k == 0 then n == 0 && p == 0 && !last
    else exists n0: nat, p0: nat :: BlocksRead(c, z, k - 1, n0, p0, false) && BlockReads(c, z, p0, n0, n, p, last)
  }

  ghost predicate StreamReads(c: Policy, z: nat, n: nat, p: nat)
  {
    exists k: nat :: BlocksRead(c, z, k, n, p, true)
  }

  ghost predicate NoReading(c: Policy, z: nat, bad: bool, r: int)
  {
    forall n: nat, p: nat :: StreamReads(c, z, n, p) ==> Past(bad, p, r)
  }

  lemma BlocksNone(c: Policy, z: nat, n: nat, p: nat, last: bool)
    ensures BlocksRead(c, z, 0, n, p, last) <==> n == 0 && p == 0 && !last
  {
  }

  lemma BlocksMore(c: Policy, z: nat, k: nat, n0: nat, p0: nat, n: nat, p: nat, last: bool)
    requires BlocksRead(c, z, k, n0, p0, false) && BlockReads(c, z, p0, n0, n, p, last)
    ensures BlocksRead(c, z, k + 1, n, p, last)
  {
    hide BlockReads;
  }

  lemma BlocksLast(c: Policy, z: nat, k: nat, n: nat, p: nat, last: bool) returns (n0: nat, p0: nat)
    requires k > 0 && BlocksRead(c, z, k, n, p, last)
    ensures BlocksRead(c, z, k - 1, n0, p0, false) && BlockReads(c, z, p0, n0, n, p, last)
  {
    hide BlockReads;
    n0, p0 :| BlocksRead(c, z, k - 1, n0, p0, false) && BlockReads(c, z, p0, n0, n, p, last);
  }

  lemma {:induction false} BlocksAny(c: Policy, z: nat, k: nat, n: nat, p: nat, last: bool)
    requires BlocksRead(c, z, k, n, p, last)
    ensures BlocksRead(Any, z, k, n, p, last)
    decreases k
  {
    hide *;
    if k == 0 {
      BlocksNone(c, z, n, p, last);
      BlocksNone(Any, z, n, p, last);
    } else {
      var n0, p0 := BlocksLast(c, z, k, n, p, last);
      BlocksAny(c, z, k - 1, n0, p0, false);
      BlockAny(c, z, p0, n0, n, p, last);
      BlocksMore(Any, z, k - 1, n0, p0, n, p, last);
    }
  }

  lemma {:induction false} BlocksEnd(z: nat, k: nat, n: nat, p: nat, last: bool, n2: nat, p2: nat, last2: bool)
    requires BlocksRead(Any, z, k, n, p, last) && BlocksRead(Any, z, k, n2, p2, last2)
    ensures n == n2 && p == p2 && last == last2
    decreases k
  {
    hide *;
    if k == 0 {
      BlocksNone(Any, z, n, p, last);
      BlocksNone(Any, z, n2, p2, last2);
    } else {
      var n0, p0 := BlocksLast(Any, z, k, n, p, last);
      var n0', p0' := BlocksLast(Any, z, k, n2, p2, last2);
      BlocksEnd(z, k - 1, n0, p0, false, n0', p0', false);
      BlockEnd(z, p0, n0, n, p, last, n2, p2, last2);
    }
  }

  /** The first j of k blocks. */
  lemma {:induction false} BlocksFirst(c: Policy, z: nat, j: nat, k: nat, n: nat, p: nat, last: bool)
    returns (n0: nat, p0: nat)
    requires j < k && BlocksRead(c, z, k, n, p, last)
    ensures BlocksRead(c, z, j, n0, p0, false)
    decreases k
  {
    hide *;
    n0, p0 := BlocksLast(c, z, k, n, p, last);
    if j < k - 1 { n0, p0 := BlocksFirst(c, z, j, k - 1, n0, p0, false); }
  }

  /** A reading goes on after any blocks that the stream begins with. */
  lemma {:induction false} BlocksNext(c: Policy, z: nat, j: nat, n: nat, p: nat, k: nat, n': nat, p': nat, last: bool)
    returns (n2: nat, p2: nat, l: bool)
    requires j < k && BlocksRead(Any, z, j, n, p, false) && BlocksRead(c, z, k, n', p', last)
    ensures BlockReads(c, z, p, n, n2, p2, l) && p2 <= p'
    decreases k
  {
    hide *;
    var n0, p0 := BlocksLast(c, z, k, n', p', last);
    BlockGrows(c, z, p0, n0, n', p', last);
    if j < k - 1 {
      n2, p2, l := BlocksNext(c, z, j, n, p, k - 1, n0, p0, false);
    } else {
      BlocksAny(c, z, j, n0, p0, false);
      BlocksEnd(z, j, n, p, false, n0, p0, false);
      n2, p2, l := n', p', last;
    }
  }

  /** Where a block is not marked as the last, the stream does not end. */
  lemma NotYet(z: nat, k: nat, n: nat, p: nat, j: nat, n': nat, p': nat)
    requires BlocksRead(Any, z, k, n, p, false) && BlocksRead(Any, z, j, n', p', true)
    ensures k < j
  {
    hide *;
    if j < k {
      var n0, p0 := BlocksFirst(Any, z, j, k, n, p, false);
      BlocksEnd(z, j, n0, p0, false, n', p', true);
    } else if j == k {
      BlocksEnd(z, j, n, p, false, n', p', true);
    }
  }

  /** If no block can follow the blocks read, there is no reading of the stream. */
  lemma StreamFails(c: Policy, z: nat, k: nat, n: nat, p: nat, bad: bool, r: int)
    requires BlocksRead(Any, z, k, n, p, false) && NoBlock(c, z, p, n, bad, r)
    ensures NoReading(c, z, bad, r)
  {
    hide BlocksRead, BlockReads;
    forall n': nat, p': nat | StreamReads(c, z, n', p') ensures Past(bad, p', r) {
      var j: nat :| BlocksRead(c, z, j, n', p', true);
      BlocksAny(c, z, j, n', p', true);
      NotYet(z, k, n, p, j, n', p');
      var n2, p2, l := BlocksNext(c, z, k, n, p, j, n', p', true);
    }
  }
}
