/** deflate_slow: a match is adopted only if there is no better one at the next position, so one byte may be
    held back between steps and between calls. Tokens cover the input, and obey the rules of lazy matching. */
module DeflateSlow {
  import opened Bits
  import opened Lz77
  import opened HashChain
  import opened TokenRules
  import opened DeflateState
  import opened FillWindow
  import opened LongestMatch
  import opened TokenBuffer
  import opened DeflateBlock

  /** The match found at the previous position. Its start may have left the window, even by a wrapped index;
      the distance is what counts. */
  ghost predicate Earlier(data: seq<byte>, pos: int, strstart: nat, start: nat, len: nat, far: int)
  {
    && 1 <= pos && Sub32(strstart - 1, start) <= far < 0x1_0000
    && MatchAt(data, pos - 1, Sub32(strstart - 1, start), len)
  }

  /** A byte is held back only with the best match found for it. */
  ghost predicate Lazy(s: State)
    reads s`data, s`base, s`strstart, s`matchStart, s`matchLength, s`matchAvailable
  {
    && 2 <= s.matchLength <= 258 && (s.matchAvailable ==> 1 <= s.strstart) && (!s.matchAvailable ==> s.matchLength == 2)
    && (s.matchLength >= 3 ==>
          Earlier(s.data, s.base + s.strstart, s.strstart, s.matchStart, s.matchLength, s.MaxDist()))
  }

  function Held(s: State): nat
    reads s`matchAvailable
  {
    if s.matchAvailable then 1 else 0
  }

  /** All strings before the current one are indexed, but for those that lacked bytes at a flush. */
  ghost predicate Indexed(s: State)
    reads s`data, s`ins, s`ends, s`forgotten, s`floor, s`base, s`strstart
  {
    s.Rooted() && forall p: nat :: p < s.base + s.strstart ==> Placed(s.View(), p)
  }

  /** The tokens recorded obey the rules, and a byte is held back with the best match for it. */
  ghost predicate Chosen(s: State, b: Buffer, c: Config)
    reads s`data, s`ins, s`ends, s`forgotten, s`base, s`strstart, s`matchLength, s`matchAvailable,
          b`lastLit, b`lFreq, b`dFreq, b`flushed, b.dBuf, b.lBuf
  {
    && b.Valid() && Ruled(SLOW, s.View(), c, b.All())
    && (s.matchAvailable ==>
          1 <= s.base + s.strstart && Sought(s.View(), c, s.base + s.strstart - 1, s.matchLength))
  }

  /** Between steps and between calls. */
  ghost predicate SlowReady(s: State, b: Buffer, c: Config)
    reads s, b, s.window, s.head, s.prev, b.dBuf, b.lBuf
  {
    && s.Valid() && s.HashReady() && Lazy(s) && s.window != b.lBuf && Covered(s, b, Held(s))
    && Indexed(s) && Chosen(s, b, c)
  }

  lemma SlowParts(s: State, b: Buffer, c: Config)
    requires SlowReady(s, b, c)
    ensures s.Valid() && s.HashReady() && Lazy(s) && s.window != b.lBuf && Covered(s, b, Held(s))
    ensures Indexed(s) && s.Rooted() && Chosen(s, b, c) && b.Valid()
    ensures s.matchAvailable ==> Covered(s, b, 1) && 1 <= s.strstart
    ensures !s.matchAvailable ==> Covered(s, b, 0)
  {
    hide State.Valid, State.HashReady, State.Rooted, Covered, Ruled, Sought;
  }

  lemma SlowAgain(s: State, b: Buffer, c: Config)
    requires s.Valid() && s.HashReady() && Lazy(s) && s.window != b.lBuf && Covered(s, b, Held(s))
    requires Indexed(s) && Chosen(s, b, c)
    ensures SlowReady(s, b, c)
  {
  }

  lemma ChosenIs(s: State, b: Buffer, c: Config)
    ensures Chosen(s, b, c) <==>
              && b.Valid() && Ruled(SLOW, s.View(), c, b.All())
              && (s.matchAvailable ==>
                    1 <= s.base + s.strstart && Sought(s.View(), c, s.base + s.strstart - 1, s.matchLength))
  {
    hide Ruled, Sought;
  }

  lemma IndexedIs(s: State)
    ensures Indexed(s) <==> s.Rooted() && forall p: nat :: p < s.base + s.strstart ==> Placed(s.View(), p)
  {
    hide Placed, State.Rooted;
  }

  lemma PlacedKept(v: View, v': View, top: nat, n: nat)
    requires Grows(v, v', top) && forall p: nat :: p < n ==> Placed(v, p)
    ensures forall p: nat :: p < n ==> Placed(v', p)
  {
    hide Placed, Grows;
    forall p: nat | p < n ensures Placed(v', p) { PlacedStays(v, v', top, p); }
  }

  lemma PlacedStays(v: View, v': View, top: nat, p: nat)
    requires Grows(v, v', top) && Placed(v, p)
    ensures Placed(v', p)
  {
    if p !in v.ins {
      var e :| e in v.ends && p < e < p + 3;
      assert e in v'.ends;
    }
  }

  lemma LazyParts(s: State)
    requires Lazy(s)
    ensures 2 <= s.matchLength <= 258 && (s.matchAvailable ==> 1 <= s.strstart)
    ensures !s.matchAvailable ==> s.matchLength == 2
    ensures s.matchLength >= 3 ==>
              s.matchAvailable
              && Earlier(s.data, s.base + s.strstart, s.strstart, s.matchStart, s.matchLength, s.MaxDist())
  {
  }

  /** Filling the window moves indices, not distances. */
  lemma EarlierKept(data: seq<byte>, data': seq<byte>, pos: int, strstart: nat, start: nat, strstart': nat, start': nat,
                    len: nat, far: int)
    requires Earlier(data, pos, strstart, start, len, far) && data <= data'
    requires Sub32(strstart, start) == Sub32(strstart', start')
    ensures Earlier(data', pos, strstart', start', len, far)
  {
    hide *;
    SubPred(strstart, start, strstart', start');
    EarlierIs(data, pos, strstart, start, len, far);
    EarlierIs(data', pos, strstart', start', len, far);
    MatchMore(data, data', pos - 1, Sub32(strstart - 1, start), len);
  }

  lemma SubPred(a: int, b: int, a': int, b': int)
    requires Sub32(a, b) == Sub32(a', b')
    ensures Sub32(a - 1, b) == Sub32(a' - 1, b')
  {
  }

  lemma EarlierIs(data: seq<byte>, pos: int, strstart: nat, start: nat, len: nat, far: int)
    ensures Earlier(data, pos, strstart, start, len, far) <==>
              1 <= pos && Sub32(strstart - 1, start) <= far < 0x1_0000
                && MatchAt(data, pos - 1, Sub32(strstart - 1, start), len)
  {
  }

  lemma LazyIf(s: State, len: nat)
    requires s.matchLength == len && 2 <= len <= 258 && (s.matchAvailable ==> 1 <= s.strstart)
    requires !s.matchAvailable ==> len == 2
    requires len >= 3 ==> Earlier(s.data, s.base + s.strstart, s.strstart, s.matchStart, len, s.MaxDist())
    ensures Lazy(s)
  {
  }

  /** A match at the current position is the earlier match one step on. */
  lemma BecomesEarlier(data: seq<byte>, n: nat, strstart: nat, start: nat, len: nat, far: int)
    requires 1 <= start < strstart && strstart - start <= far < 0x1_0000 && MatchAt(data, n, strstart - start, len)
    ensures Earlier(data, n + 1, strstart + 1, start, len, far)
  {
  }

  lemma FoundBySearch(s: State, c: Config, head: nat, tried: seq<nat>, len: nat)
    requires Settled(s.View(), s.base + s.strstart) && OnlyHead(s.View(), s.base + s.strstart, s.base + head, true)
    requires head in tried && 1 <= head < s.strstart && s.strstart - head <= s.MaxDist() && s.strstart < 0x1_0000_0000
    requires s.prevLength < c.lazy
    requires forall p: nat, k: nat ::
               p in tried && s.prevLength < k <= 258 && LongestMatch.Match(s, p, k) ==> k <= len
    requires len > s.prevLength ==> forall p :: p in tried && p > s.matchStart ==> !LongestMatch.Match(s, p, len)
    requires len > s.prevLength ==> s.matchStart <= head
    requires s.matchLength == (if len <= 5 && (c.filtered || (len == 3 && Sub32(s.strstart, s.matchStart) > TOO_FAR))
                               then 2 else len)
    ensures Found(s.View(), c, s.base + s.strstart, s.prevLength, s.matchLength)
  {
    hide Settled, Head, Offers, LongestMatch.Match;
    var v, n := s.View(), s.base + s.strstart;
    forall q: nat, k: nat | Head(v, n, q) && Offers(v, n, q, k) && k > s.prevLength
      ensures k <= s.matchLength || (s.matchLength == 2 && Weak(c, n, q, k))
    {
      OfferMatches(s, head, k);
      if s.matchLength != len && !c.filtered {
        assert k == 3 == len;
        assert s.matchStart == head;
      }
    }
  }

  lemma FoundWithout(s: State, c: Config, head: nat)
    requires Settled(s.View(), s.base + s.strstart) && s.matchLength == 2
    requires OnlyHead(s.View(), s.base + s.strstart, head, false) || s.prevLength >= c.lazy
    ensures Found(s.View(), c, s.base + s.strstart, s.prevLength, s.matchLength)
  {
    hide Settled, Head, Offers;
  }

  /** Search from the head of the chain; a short match may not be worth taking. */
  method SearchFrom(s: State, c: Config, hashHead: nat)
    requires Searching(s) && Candidate(s, hashHead) && 2 <= s.prevLength <= 258 && s.prevLength < c.lazy
    requires Settled(s.View(), s.base + s.strstart) && OnlyHead(s.View(), s.base + s.strstart, s.base + hashHead, true)
    requires c.chain < 0x1_0000_0000
    modifies s`matchLength, s`matchStart
    ensures 2 <= s.matchLength <= 258
    ensures s.matchLength > s.prevLength ==> LongestMatch.Match(s, s.matchStart, s.matchLength)
    ensures Found(s.View(), c, s.base + s.strstart, s.prevLength, s.matchLength)
  {
    hide *;
    SearchRange(s);
    s.MaxDistNow();
    CandidateRange(s, hashHead);
    ghost var tried;
    s.matchLength, tried := Longest(s, hashHead, c.chain, c.good, c.nice);
    ghost var len := s.matchLength;
    if s.matchLength <= 5 && (c.filtered || (s.matchLength == 3 && Sub32(s.strstart, s.matchStart) > TOO_FAR)) {
      s.matchLength := 2;
    }
    FoundBySearch(s, c, hashHead, tried, len);
  }

  /** Insert the current string and look for a better match than the one at the previous position. */
  method FindBetter(s: State, c: Config)
    requires s.Valid() && s.HashReady() && 2 <= s.matchLength <= 258 && s.strstart + 262 <= 2 * s.wsize
    requires s.Rooted() && Seen(s, s.base + s.strstart) && c.chain < 0x1_0000_0000
    modifies s`insH, s`ins, s`top, s`prevLength, s`prevMatch, s`matchLength, s`matchStart, s.head, s.prev
    ensures Stepped(s) && s.prevLength == old(s.matchLength) && s.prevMatch == old(s.matchStart)
    ensures 2 <= s.matchLength <= 258
    ensures s.matchLength > s.prevLength ==> LongestMatch.Match(s, s.matchStart, s.matchLength)
    ensures Found(s.View(), c, s.base + s.strstart, s.prevLength, s.matchLength)
    ensures Grows(old(s.View()), s.View(), old(s.top)) && s.top >= old(s.top)
  {
    hide *;
    var hashHead := InsertCurrent(s);
    SteppedParts(s);
    s.MaxDistNow();
    SeenSettled(s, s.base + s.strstart);
    s.prevLength, s.prevMatch := s.matchLength, s.matchStart;
    s.matchLength := 2;
    if hashHead != 0 && s.prevLength < c.lazy && s.strstart - hashHead <= s.MaxDist() {
      SearchFrom(s, c, hashHead);
    } else {
      FoundWithout(s, c, s.base + hashHead);
    }
  }

  /** All strings up to the current one are indexed, but for those that lacked bytes; more have been since. */
  ghost predicate Passing(s: State, n: nat, v: View, top: nat)
    reads s`data, s`ins, s`ends, s`forgotten, s`base, s`strstart, s`top
  {
    && n <= s.base + s.strstart && Grows(v, s.View(), top) && top <= s.top
    && forall p: nat :: p <= s.base + s.strstart ==> Placed(s.View(), p)
  }

  lemma PassOn(s: State, n: nat, v: View, top: nat, v': View, top': nat)
    requires 0 < s.base + s.strstart && n < s.base + s.strstart < |s.data| && s.base + s.strstart <= n + 257
    requires Seen(s, n) && (s.base + s.strstart + 3 <= |s.data| ==> s.base + s.strstart in s.ins)
    requires Grows(v, v', top) && Grows(v', s.View(), top') && top <= top' <= s.top
    requires forall p: nat :: p < s.base + s.strstart ==> Placed(v', p)
    ensures Passing(s, n, v, top)
  {
    hide Grows, Seen, Placed;
    GrowsOn(v, v', s.View(), top, top');
    PlacedKept(v', s.View(), top', s.base + s.strstart);
    SeenPlaced(s, n, s.base + s.strstart);
  }

  lemma PassingIs(s: State, n: nat, v: View, top: nat)
    ensures Passing(s, n, v, top) <==>
              && n <= s.base + s.strstart && Grows(v, s.View(), top) && top <= s.top
              && forall p: nat :: p <= s.base + s.strstart ==> Placed(s.View(), p)
  {
    hide Grows, Placed;
  }

  /** One byte of a match: insert its string if it has all its bytes. */
  method PassOne(s: State, maxInsert: int, ghost n: nat, ghost v: View, ghost top: nat)
    requires s.Holds() && s.top <= s.base + s.strstart + 1 && Passing(s, n, v, top) && Seen(s, n)
    requires s.base + maxInsert + 3 == |s.data| && s.base + s.strstart + 1 < |s.data|
    requires s.base + s.strstart + 1 <= n + 257 && (s.strstart <= maxInsert ==> s.KeyAt(s.strstart + 1))
    modifies s`insH, s`ins, s`top, s`strstart, s.head, s.prev
    ensures s.Holds() && s.strstart == old(s.strstart) + 1 && s.top <= s.base + s.strstart + 1
    ensures Passing(s, n, v, top) && (s.strstart <= maxInsert ==> s.KeyAt(s.strstart + 1))
  {
    hide *;
    ghost var v', top' := s.View(), s.top;
    s.ViewGrows([]);
    s.ViewIs();
    PassingIs(s, n, v, top);
    s.strstart := s.strstart + 1;
    if s.strstart <= maxInsert {
      var _ := s.InsertString(s.strstart);
    }
    PassOn(s, n, v, top, v', top');
  }

  /** The strings of the match at the previous position, but for the first two. */
  method PassRest(s: State, ghost n: nat, ghost v: View, ghost top: nat)
    requires s.Holds() && s.top <= s.base + s.strstart + 1 && 3 <= s.prevLength <= 258
    requires s.prevLength - 1 <= s.lookahead && |s.data| == s.base + s.strstart + s.lookahead
    requires s.lookahead >= 3 ==> s.KeyAt(s.strstart + 1)
    requires n == s.base + s.strstart && Seen(s, n) && Passing(s, n, v, top)
    modifies s`insH, s`ins, s`top, s`strstart, s`lookahead, s`prevLength, s.head, s.prev
    ensures s.Holds() && s.top <= s.base + s.strstart + 1 && Passing(s, n, v, top)
    ensures s.strstart == old(s.strstart + s.prevLength) - 2 && s.lookahead == old(s.lookahead - s.prevLength) + 1
    ensures |s.data| == s.base + s.strstart + 1 + s.lookahead
    ensures s.lookahead >= 2 ==> s.KeyAt(s.strstart + 1)
  {
    hide *;
    ghost var target := s.strstart + s.prevLength - 2;
    var maxInsert := s.strstart + s.lookahead - 3;
    s.lookahead := s.lookahead - (s.prevLength - 1);
    s.prevLength := s.prevLength - 2;
    while s.prevLength != 0
      invariant s.Holds() && s.top <= s.base + s.strstart + 1 && s.strstart + s.prevLength == target
      invariant |s.data| == s.base + target + 1 + s.lookahead
      invariant s.strstart <= maxInsert ==> s.KeyAt(s.strstart + 1)
      invariant Passing(s, n, v, top)
      decreases s.prevLength
    {
      PassOne(s, maxInsert, n, v, top);
      s.prevLength := s.prevLength - 1;
    }
  }

  /** Move past the match at the previous position, inserting the strings that have all their bytes. */
  method PassPrevious(s: State)
    requires Stepped(s) && 3 <= s.prevLength <= 258 && s.prevLength - 1 <= s.lookahead
    requires s.Rooted() && Seen(s, s.base + s.strstart)
    requires forall p: nat :: p <= s.base + s.strstart ==> Placed(s.View(), p)
    modifies s`insH, s`ins, s`top, s`strstart, s`lookahead, s`prevLength, s`matchLength, s`matchAvailable, s.head,
      s.prev
    ensures s.Valid() && s.HashReady() && !s.matchAvailable && s.matchLength == 2
    ensures s.strstart == old(s.strstart + s.prevLength) - 1 && s.lookahead == old(s.lookahead - s.prevLength) + 1
    ensures Indexed(s) && Grows(old(s.View()), s.View(), old(s.top)) && s.top >= old(s.top)
  {
    hide *;
    SteppedParts(s);
    SteppedMore(s);
    s.ViewGrows([]);
    s.ViewIs();
    ghost var n, v, t := s.base + s.strstart, s.View(), s.top;
    PassingIs(s, n, v, t);
    PassRest(s, n, v, t);
    PassingIs(s, n, v, t);
    s.matchAvailable := false;
    s.matchLength := 2;
    s.strstart := s.strstart + 1;
    Advanced(s);
    s.RootedOn();
    IndexedIs(s);
  }

  lemma SteppedMore(s: State)
    requires Stepped(s)
    ensures s.top <= s.base + s.strstart + 1 && s.insert <= s.strstart && (s.insert > 0 ==> s.lookahead + s.insert < 3)
  {
  }

  lemma EarlierRange(data: seq<byte>, pos: int, strstart: nat, start: nat, len: nat, far: int)
    requires Earlier(data, pos, strstart, start, len, far)
    ensures 1 <= pos && Sub32(strstart - 1, start) <= far < 0x1_0000 && pos - 1 + len <= |data|
    ensures MatchAt(data, pos - 1, Sub32(strstart - 1, start), len)
  {
  }

  /** In the middle of a step: the search at the current position is over, and nothing has been recorded yet. */
  ghost predicate Mid(s: State, b: Buffer, c: Config)
    reads s`data, s`ins, s`ends, s`forgotten, s`floor, s`base, s`strstart, s`prevLength, s`matchLength,
          s`matchAvailable, b`lastLit, b`lFreq, b`dFreq, b`flushed, b.dBuf, b.lBuf
  {
    && s.Rooted() && Seen(s, s.base + s.strstart) && b.Valid() && Ruled(SLOW, s.View(), c, b.All())
    && (forall p: nat :: p <= s.base + s.strstart ==> Placed(s.View(), p))
    && Found(s.View(), c, s.base + s.strstart, s.prevLength, s.matchLength) && 2 <= s.prevLength && 2 <= s.matchLength
    && (s.matchAvailable ==>
          1 <= s.base + s.strstart && Sought(s.View(), c, s.base + s.strstart - 1, s.prevLength))
  }

  lemma MidParts(s: State, b: Buffer, c: Config)
    requires Mid(s, b, c)
    ensures s.Rooted() && Seen(s, s.base + s.strstart) && b.Valid() && Ruled(SLOW, s.View(), c, b.All())
    ensures forall p: nat :: p <= s.base + s.strstart ==> Placed(s.View(), p)
    ensures Found(s.View(), c, s.base + s.strstart, s.prevLength, s.matchLength)
    ensures 2 <= s.prevLength && 2 <= s.matchLength
    ensures s.matchAvailable ==>
              1 <= s.base + s.strstart && Sought(s.View(), c, s.base + s.strstart - 1, s.prevLength)
  {
    hide State.Rooted, Seen, Ruled, Placed, Found, Sought;
  }

  lemma MidFrom(s: State, b: Buffer, c: Config, v: View, top: nat)
    requires s.Rooted() && Seen(s, s.base + s.strstart) && b.Valid() && Ruled(SLOW, v, c, b.All())
    requires forall p: nat :: p < s.base + s.strstart ==> Placed(v, p)
    requires Found(s.View(), c, s.base + s.strstart, s.prevLength, s.matchLength)
    requires 2 <= s.prevLength && 2 <= s.matchLength
    requires s.matchAvailable ==> 1 <= s.base + s.strstart && Sought(v, c, s.base + s.strstart - 1, s.prevLength)
    requires Grows(v, s.View(), top)
    ensures Mid(s, b, c)
  {
    FoundPlaced(s.View(), c, s.base + s.strstart, s.prevLength, s.matchLength);
    hide State.Rooted, Seen, Ruled, Placed, Found, Sought, Grows;
    RuledKept(SLOW, v, s.View(), top, c, b.All());
    PlacedKept(v, s.View(), top, s.base + s.strstart);
    if s.matchAvailable { SoughtKept(v, s.View(), top, c, s.base + s.strstart - 1, s.prevLength); }
  }

  lemma FoundPlaced(v: View, c: Config, x: nat, prev: nat, len: nat)
    requires Found(v, c, x, prev, len)
    ensures Placed(v, x)
  {
  }

  /** The previous match stands: record it and move past it. */
  method AdoptPrevious(s: State, b: Buffer, c: Config) returns (stop: bool)
    requires Stepped(s) && s.window != b.lBuf && 3 <= s.prevLength <= 258 && Covered(s, b, 1)
    requires Earlier(s.data, s.base + s.strstart, s.strstart, s.prevMatch, s.prevLength, s.MaxDist())
    requires Mid(s, b, c) && s.matchAvailable && s.matchLength <= s.prevLength && s.space > 0
    modifies s`insH, s`ins, s`top, s`strstart, s`lookahead, s`prevLength, s`matchLength, s`matchAvailable, s`blockStart,
             s`space, s.head, s.prev, b`lastLit, b`lFreq, b`dFreq, b`flushed, b.dBuf, b.lBuf
    ensures SlowReady(s, b, c) && s.strstart > old(s.strstart)
    ensures (stop <==> s.space == 0) && Credit(s, b) == old(Credit(s, b)) - 1
  {
    hide *;
    SteppedParts(s);
    CoveredParts(s, b, 1);
    CreditIs(s, b);
    MidParts(s, b, c);
    EarlierRange(s.data, s.base + s.strstart, s.strstart, s.prevMatch, s.prevLength, s.MaxDist());
    ghost var v, t, ts, n := s.View(), s.top, b.All(), s.base + s.strstart;
    var dist := Sub32(s.strstart - 1, s.prevMatch);
    ghost var token := Match(s.prevLength, dist);
    AdoptedRule(v, c, n - 1, s.prevLength, s.matchLength, dist);
    CoversLength(ts, s.data, n - 1, s.MaxDist());
    RuleIs(v, c, token, n - 1);
    RuledNext(SLOW, v, c, ts, token);
    var full := EmitMatch(s, b, dist, s.prevLength, n - 1);
    CreditIs(s, b);
    PassPrevious(s);
    RuledKept(SLOW, v, s.View(), t, c, b.All());
    stop := FlushFull(s, b, full);
    CoveredParts(s, b, 0);
    NoneHeld(s, b, c);
  }

  lemma RuleIs(v: View, c: Config, t: Token, x: nat)
    ensures Rule(SLOW, v, c, t, x) <==> SlowRule(v, c, t, x)
  {
    hide SlowRule;
  }

  lemma NoneHeld(s: State, b: Buffer, c: Config)
    requires s.Valid() && s.HashReady() && !s.matchAvailable && s.matchLength == 2 && s.window != b.lBuf
    requires Covered(s, b, 0) && Indexed(s) && b.Valid() && Ruled(SLOW, s.View(), c, b.All())
    ensures SlowReady(s, b, c)
  {
    hide State.Valid, State.HashReady, Covered, Ruled, Sought, Indexed, Earlier;
  }

  lemma OneHeld(s: State, b: Buffer, c: Config)
    requires s.Valid() && s.HashReady() && s.matchAvailable && 1 <= s.strstart && s.window != b.lBuf && Covered(s, b, 1)
    requires 2 <= s.matchLength <= 258
    requires s.matchLength >= 3 ==>
              Earlier(s.data, s.base + s.strstart, s.strstart, s.matchStart, s.matchLength, s.MaxDist())
    requires Indexed(s) && b.Valid() && Ruled(SLOW, s.View(), c, b.All())
    requires Sought(s.View(), c, s.base + s.strstart - 1, s.matchLength)
    ensures SlowReady(s, b, c)
  {
    hide State.Valid, State.HashReady, Covered, Earlier, Ruled, Sought, Indexed;
  }

  /** The match at the current position, if there is one, becomes the earlier one. */
  lemma ToEarlier(s: State)
    requires s.Holds() && |s.data| == s.base + s.strstart + s.lookahead
    requires LongestMatch.Match(s, s.matchStart, s.matchLength)
    ensures Earlier(s.data, s.base + s.strstart + 1, s.strstart + 1, s.matchStart, s.matchLength, s.MaxDist())
  {
    hide *;
    MatchIs(s, s.matchStart, s.matchLength);
    BecomesEarlier(s.data, s.base + s.strstart, s.strstart, s.matchStart, s.matchLength, s.MaxDist());
  }

  /** A match at the current position that is longer than len. */
  lemma MatchLonger(s: State, len: nat)
    requires s.Holds() && LongestMatch.Match(s, s.matchStart, s.matchLength) && len < s.matchLength
    ensures Longer(s.View(), s.base + s.strstart, len)
  {
    hide MatchAt, State.Holds;
    assert len < s.matchLength && 1 <= s.strstart - s.matchStart <= s.View().far
           && MatchAt(s.View().data, s.base + s.strstart, s.strstart - s.matchStart, s.matchLength);
  }

  /** Record the byte held back as a literal, and flush a full buffer. */
  method ReleaseHeld(s: State, b: Buffer, c: Config)
    requires Stepped(s) && s.window != b.lBuf && s.matchAvailable && 1 <= s.strstart && Covered(s, b, 1)
    requires s.matchLength >= 3 ==> LongestMatch.Match(s, s.matchStart, s.matchLength)
    requires Mid(s, b, c) && (s.prevLength == 2 || s.prevLength < s.matchLength) && s.space > 0
    modifies s`blockStart, s`space, b`lastLit, b`lFreq, b`dFreq, b`flushed, b.dBuf, b.lBuf
    ensures Stepped(s) && Covered(s, b, 0) && b.Valid() && Ruled(SLOW, s.View(), c, b.All())
    ensures s.blockStart <= s.strstart && Credit(s, b) == old(Credit(s, b)) - 1
  {
    hide *;
    SteppedParts(s);
    CoveredParts(s, b, 1);
    CreditIs(s, b);
    MidParts(s, b, c);
    ghost var v, ts, n := s.View(), b.All(), s.base + s.strstart;
    ghost var token := Literal(s.data[n - 1]);
    if s.prevLength != 2 { MatchLonger(s, s.prevLength); }
    ReleasedRule(v, c, n - 1, s.prevLength, s.data[n - 1]);
    CoversLength(ts, s.data, n - 1, s.MaxDist());
    RuleIs(v, c, token, n - 1);
    RuledNext(SLOW, v, c, ts, token);
    var full := EmitLiteral(s, b, s.strstart - 1);
    CreditIs(s, b);
    if full {
      FullBlock(s.space, b.lBuf.Length);
      ghost var _, _ := FlushBlock(s, b);
    } else {
      MakeCovered(s, b);
    }
    CreditIs(s, b);
    CoveredParts(s, b, 0);
  }

  /** There was no match before, or the current one is longer: the byte held back becomes a literal, and
      the current one is held back instead. */
  method ReleaseLiteral(s: State, b: Buffer, c: Config) returns (stop: bool)
    requires Stepped(s) && s.window != b.lBuf && s.matchAvailable && 1 <= s.strstart && 1 <= s.lookahead
    requires Covered(s, b, 1)
    requires 2 <= s.matchLength <= 258 && (s.matchLength >= 3 ==> LongestMatch.Match(s, s.matchStart, s.matchLength))
    requires Mid(s, b, c) && (s.prevLength == 2 || s.prevLength < s.matchLength) && s.space > 0
    modifies s`strstart, s`lookahead, s`blockStart, s`space, b`lastLit, b`lFreq, b`dFreq, b`flushed, b.dBuf, b.lBuf
    ensures SlowReady(s, b, c) && s.strstart > old(s.strstart)
    ensures (stop <==> s.space == 0) && Credit(s, b) == old(Credit(s, b)) - 1
  {
    hide *;
    SteppedParts(s);
    MidParts(s, b, c);
    FoundSought(s.View(), c, s.base + s.strstart, s.prevLength, s.matchLength);
    ReleaseHeld(s, b, c);
    CoveredParts(s, b, 0);
    if s.matchLength >= 3 { ToEarlier(s); }
    AdvanceOne(s);
    s.RootedOn();
    IndexedIs(s);
    CoveredNext(s, b);
    stop := s.space == 0;
    OneHeld(s, b, c);
  }

  lemma CoveredNext(s: State, b: Buffer)
    requires b.Valid() && b.lastLit + 1 < b.lBuf.Length && s.blockStart <= s.strstart - 1
    requires Covers(b.All(), s.data, s.base + s.strstart - 1, s.MaxDist())
    requires Covers(b.flushed, s.data, s.base + s.blockStart, s.MaxDist())
    ensures Covered(s, b, 1)
  {
  }

  /** There is no previous match to compare with: hold the current byte back. */
  method HoldBack(s: State, b: Buffer, c: Config)
    requires Stepped(s) && s.window != b.lBuf && 1 <= s.lookahead && Covered(s, b, 0)
    requires 2 <= s.matchLength <= 258 && (s.matchLength >= 3 ==> LongestMatch.Match(s, s.matchStart, s.matchLength))
    requires Mid(s, b, c) && s.prevLength == 2
    modifies s`strstart, s`lookahead, s`matchAvailable
    ensures SlowReady(s, b, c) && s.strstart > old(s.strstart)
  {
    hide *;
    SteppedParts(s);
    CoveredParts(s, b, 0);
    MidParts(s, b, c);
    FoundSought(s.View(), c, s.base + s.strstart, s.prevLength, s.matchLength);
    if s.matchLength >= 3 { ToEarlier(s); }
    s.matchAvailable := true;
    AdvanceOne(s);
    s.RootedOn();
    IndexedIs(s);
    CoveredNext(s, b);
    OneHeld(s, b, c);
  }

  /** One step. */
  method Step(s: State, b: Buffer, c: Config) returns (stop: bool)
    requires SlowReady(s, b, c) && s.strstart + 262 <= 2 * s.wsize && s.lookahead >= 1 && s.space > 0
    requires Seen(s, s.base + s.strstart) && c.chain < 0x1_0000_0000
    modifies s`insH, s`ins, s`top, s`strstart, s`lookahead, s`prevLength, s`prevMatch, s`matchLength, s`matchStart,
             s`matchAvailable, s`blockStart, s`space, s.head, s.prev, b`lastLit, b`lFreq, b`dFreq, b`flushed, b.dBuf,
             b.lBuf
    ensures SlowReady(s, b, c) && s.strstart > old(s.strstart)
    ensures (stop <==> s.space == 0) && Credit(s, b) >= old(Credit(s, b)) - 1
  {
    hide *;
    SlowParts(s, b, c);
    LazyParts(s);
    ChosenIs(s, b, c);
    IndexedIs(s);
    stop := false;
    ghost var v, t := s.View(), s.top;
    FindBetter(s, c);
    MidFrom(s, b, c, v, t);
    if s.prevLength >= 3 && s.matchLength <= s.prevLength {
      stop := AdoptPrevious(s, b, c);
    } else if s.matchAvailable {
      stop := ReleaseLiteral(s, b, c);
    } else {
      HoldBack(s, b, c);
    }
  }

  /** Make sure of enough lookahead, or else find out whether to go on. */
  method MoreInput(s: State, b: Buffer, c: Config, flush: FlushMode, ghost all: seq<byte>, ghost data: seq<byte>)
    returns (going: bool)
    requires SlowReady(s, b, c) && Continues(s, all, data) && (flush != NO_FLUSH ==> |all| in s.ends)
    modifies s`nextIn, s`strstart, s`lookahead, s`insH, s`insert, s`blockStart, s`highWater, s`matchStart,
             s`data, s`base, s`ins, s`top, s.window, s.head, s.prev
    ensures SlowReady(s, b, c) && Continues(s, all, data) && s.base + s.strstart == old(s.base + s.strstart) <= |all|
    ensures going ==> s.strstart + 262 <= 2 * s.wsize && s.lookahead >= 1 && Seen(s, s.base + s.strstart)
    ensures !going && flush != NO_FLUSH ==> s.lookahead == 0 && s.nextIn == []
    ensures !going && flush == NO_FLUSH ==> s.lookahead < 262 && s.nextIn == []
  {
    hide *;
    SlowParts(s, b, c);
    s.Sizes();
    going := true;
    if s.lookahead < 262 {
      RefillLazy(s, b, c, all, data);
      SlowParts(s, b, c);
      s.Sizes();
      going := s.lookahead >= 262 || (flush != NO_FLUSH && s.lookahead != 0);
    }
    ContinuesFrom(s, all, data);
    if going { NowSeen(s, s.base + s.strstart); }
  }

  method RefillLazy(s: State, b: Buffer, c: Config, ghost all: seq<byte>, ghost data: seq<byte>)
    requires SlowReady(s, b, c) && Continues(s, all, data) && s.lookahead < 262
    modifies s`nextIn, s`strstart, s`lookahead, s`insH, s`insert, s`blockStart, s`highWater, s`matchStart,
             s`data, s`base, s`ins, s`top, s.window, s.head, s.prev
    ensures SlowReady(s, b, c) && Continues(s, all, data) && s.base + s.strstart == old(s.base + s.strstart)
    ensures (s.lookahead >= 262 || s.nextIn == []) && s.strstart <= 2 * s.wsize - 262
  {
    hide *;
    SlowParts(s, b, c);
    LazyParts(s);
    ChosenIs(s, b, c);
    IndexedIs(s);
    ghost var d0, pos, i0, m0 := s.data, s.base + s.strstart, s.strstart, s.matchStart;
    ghost var v, t := s.View(), s.top;
    Refill(s, b, Held(s), all, data);
    if s.matchLength >= 3 {
      EarlierKept(d0, s.data, pos, i0, m0, s.strstart, s.matchStart, s.matchLength, s.MaxDist());
    }
    LazyIf(s, s.matchLength);
    RuledKept(SLOW, v, s.View(), t, c, b.All());
    PlacedKept(v, s.View(), t, pos);
    if s.matchAvailable { SoughtKept(v, s.View(), t, c, pos - 1, s.matchLength); }
    ChosenIs(s, b, c);
    IndexedIs(s);
    SlowAgain(s, b, c);
  }

  /** At the end of the data the byte held back has no match. */
  lemma NoMatchAtEnd(s: State)
    requires Lazy(s) && |s.data| == s.base + s.strstart
    ensures s.matchLength == 2
  {
    hide *;
    LazyParts(s);
    if s.matchLength >= 3 {
      EarlierRange(s.data, s.base + s.strstart, s.strstart, s.matchStart, s.matchLength, s.MaxDist());
    }
  }

  /** At the end of a call, the byte held back becomes a literal. */
  method LastLiteral(s: State, b: Buffer, c: Config)
    requires SlowReady(s, b, c) && s.lookahead == 0
    modifies s`matchAvailable, b`lastLit, b`lFreq, b`dFreq, b.dBuf, b.lBuf
    ensures s.Valid() && s.matchLength == 2 && !s.matchAvailable && s.window != b.lBuf && s.blockStart <= s.strstart
    ensures Covers(b.flushed, s.data, s.base + s.blockStart, s.MaxDist())
    ensures b.Valid() && 2 <= b.lBuf.Length && Covers(b.All(), s.data, s.base + s.strstart, s.MaxDist())
    ensures Indexed(s) && Ruled(SLOW, s.View(), c, b.All()) && old(b.lastLit) <= b.lastLit <= old(b.lastLit) + 1
  {
    hide *;
    SlowParts(s, b, c);
    s.Sizes();
    NoMatchAtEnd(s);
    ChosenIs(s, b, c);
    if s.matchAvailable {
      CoveredParts(s, b, 1);
      ghost var v, ts, n := s.View(), b.All(), s.base + s.strstart;
      ghost var token := Literal(s.data[n - 1]);
      ReleasedRule(v, c, n - 1, 2, s.data[n - 1]);
      CoversLength(ts, s.data, n - 1, s.MaxDist());
      RuleIs(v, c, token, n - 1);
      RuledNext(SLOW, v, c, ts, token);
      var _ := EmitLiteral(s, b, s.strstart - 1);
      s.matchAvailable := false;
    } else {
      CoveredParts(s, b, 0);
    }
  }

  method EndSlow(s: State, b: Buffer, c: Config, flush: FlushMode) returns (bs: BlockState)
    requires SlowReady(s, b, c) && s.lookahead == 0 && s.nextIn == [] && s.space > 0
    modifies s`insert, s`blockStart, s`space, s`matchAvailable, b`lastLit, b`lFreq, b`dFreq, b`flushed, b.dBuf, b.lBuf
    ensures SlowReady(s, b, c) && AllWritten(s, b) && !s.matchAvailable
    ensures bs == Ended(flush, s.space) && (old(Credit(s, b)) >= b.lBuf.Length ==> s.space > 0)
  {
    hide *;
    SlowParts(s, b, c);
    CoveredSize(s, b);
    CreditIs(s, b);
    LastLiteral(s, b, c);
    SetInsert(s);
    bs := EndCall(s, b, flush);
    CoveredParts(s, b, 0);
    NoneHeld(s, b, c);
  }

  lemma CoveredSize(s: State, b: Buffer)
    requires Covered(s, b, Held(s))
    ensures 2 <= b.lBuf.Length
  {
  }

  /** deflate_slow. Input, once taken, is covered by the tokens but for the byte held back, and the tokens obey the
      rules of lazy matching. A call goes on until the output space runs out, or until there is too little input
      to go on without a flush; with a flush it writes everything. */
  method Slow(s: State, b: Buffer, c: Config, flush: FlushMode, ghost all: seq<byte>, ghost data: seq<byte>)
    returns (bs: BlockState)
    requires SlowReady(s, b, c) && Continues(s, all, data) && c.chain < 0x1_0000_0000
    requires s.space > 0 && (flush != NO_FLUSH ==> |all| in s.ends)
    modifies s, b, s.window, s.head, s.prev, b.dBuf, b.lBuf
    ensures SlowReady(s, b, c) && Continues(s, all, data) && Same(s, old(s.ends), old(s.forgotten))
    ensures bs == NEED_MORE ==> s.space == 0 || (flush == NO_FLUSH && s.nextIn == [] && s.lookahead < 262)
    ensures bs != NEED_MORE ==> AllWritten(s, b) && !s.matchAvailable && bs == Ended(flush, s.space)
    ensures old(Enough(s, b)) ==> s.space > 0
    ensures flush == NO_FLUSH ==> bs == NEED_MORE
  {
    hide *;
    bs := NEED_MORE;
    var going, ending := true, false;
    SlowParts(s, b, c);
    s.Sizes();
    CoveredSize(s, b);
    ContinuesFrom(s, all, data);
    EnoughIs(s, b, all);
    ghost var sum, ends, forgotten := Credit(s, b) + s.base + s.strstart, s.ends, s.forgotten;
    while going
      invariant SlowReady(s, b, c) && Continues(s, all, data) && s.ends == ends && s.forgotten == forgotten
      invariant ending ==> !going && s.lookahead == 0 && s.nextIn == [] && flush != NO_FLUSH && s.space > 0
      invariant going ==> s.space > 0
      invariant !going && !ending ==> s.space == 0 || (flush == NO_FLUSH && s.nextIn == [] && s.lookahead < 262)
      invariant Credit(s, b) + s.base + s.strstart >= sum
      decreases going, |all| - (s.base + s.strstart)
    {
      going := MoreInput(s, b, c, flush, all, data);
      ending := !going && flush != NO_FLUSH;
      if going {
        var stop := Step(s, b, c);
        going := !stop;
      }
    }
    SlowParts(s, b, c);
    s.Sizes();
    ContinuesFrom(s, all, data);
    CreditIs(s, b);
    if ending { bs := EndSlow(s, b, c, flush); }
    SameIs(s, ends, forgotten);
    EndedIs(flush, s.space);
  }
}
