/** deflate_fast: greedy matching, with strings inserted only for literals and short matches. Tokens cover the
    input, and obey the rules of greedy matching. */
module DeflateFast {
  import opened Bits
  import opened Lz77
  import opened HashChain
  import opened TokenRules
  import opened DeflateState
  import opened FillWindow
  import opened LongestMatch
  import opened TokenBuffer
  import opened DeflateBlock

  /** The match is short: insert the strings within it. */
  method InsertWithin(s: State, len: nat)
    requires Stepped(s) && 2 <= len && len + 3 <= s.lookahead
    modifies s`insH, s`ins, s`top, s`strstart, s`lookahead, s`matchLength, s.head, s.prev
    ensures s.Valid() && s.HashReady() && s.matchLength == 0
    ensures s.strstart == old(s.strstart) + len && s.lookahead == old(s.lookahead) - len
    ensures forall p :: old(s.base + s.strstart) < p < s.base + s.strstart ==> p in s.ins
    ensures Grows(old(s.View()), s.View(), old(s.top)) && s.top >= old(s.top)
  {
    hide *;
    SteppedParts(s);
    s.ViewGrows([]);
    s.ViewIs();
    ghost var start, v, t := s.strstart, s.View(), s.top;
    s.lookahead := s.lookahead - len;
    s.matchLength := len - 1;
    while s.matchLength != 0
      invariant s.Holds() && s.KeyAt(s.strstart + 1) && s.top <= s.base + s.strstart + 1
      invariant s.strstart + s.matchLength + 1 == start + len && |s.data| == s.base + start + len + s.lookahead
      invariant forall p :: s.base + start < p <= s.base + s.strstart ==> p in s.ins
      invariant Grows(v, s.View(), t) && t <= s.top
      decreases s.matchLength
    {
      ghost var v', t' := s.View(), s.top;
      s.strstart := s.strstart + 1;
      var _ := s.InsertString(s.strstart);
      GrowsOn(v, v', s.View(), t, t');
      s.matchLength := s.matchLength - 1;
    }
    s.strstart := s.strstart + 1;
    Advanced(s);
  }

  /** The match is long or near the end: skip it and start the key afresh after it. */
  method SkipMatch(s: State, len: nat)
    requires Stepped(s) && 1 <= len <= s.lookahead && len <= 258 && s.strstart + 262 <= 2 * s.wsize
    modifies s`insH, s`strstart, s`lookahead, s`matchLength
    ensures s.Valid() && s.HashReady() && s.matchLength == 0
    ensures s.strstart == old(s.strstart) + len && s.lookahead == old(s.lookahead) - len
  {
    hide Chains, Pow2, Rolling, State.KeyAt, Update;
    s.lookahead := s.lookahead - len;
    s.strstart := s.strstart + len;
    s.matchLength := 0;
    s.insH := s.window[s.strstart];
    s.insH := Update(s.insH, s.window[s.strstart + 1], s.bits);
    if s.lookahead >= 3 {
      s.At(s.strstart);
      s.At(s.strstart + 1);
      FirstKey(s, s.strstart);
    }
  }

  lemma LongestFound(s: State, head: nat, tried: seq<nat>)
    requires OnlyHead(s.View(), s.base + s.strstart, s.base + head, true) && s.prevLength == 2
    requires head in tried && 1 <= head < s.strstart && s.strstart - head <= s.MaxDist()
    requires forall p: nat, k: nat ::
               p in tried && s.prevLength < k <= 258 && LongestMatch.Match(s, p, k) ==> k <= s.matchLength
    ensures NoneLonger(s.View(), s.base + s.strstart, BestOrTwo(s.matchLength))
  {
    hide Head, Offers, LongestMatch.Match;
    var v, n := s.View(), s.base + s.strstart;
    forall q: nat, k: nat | Head(v, n, q) && Offers(v, n, q, k) ensures k <= BestOrTwo(s.matchLength) {
      OfferMatches(s, head, k);
    }
  }

  lemma NoHeadFound(s: State, head: nat)
    requires OnlyHead(s.View(), s.base + s.strstart, head, false)
    ensures NoneLonger(s.View(), s.base + s.strstart, BestOrTwo(s.matchLength))
  {
    hide Head, Offers;
  }

  /** A match that is too short counts as two bytes. */
  function BestOrTwo(len: nat): nat
  {
    if len >= 3 then len else 2
  }

  /** Insert the current string and look for a match. */
  method FindMatch(s: State, c: Config)
    requires s.Valid() && s.HashReady() && s.strstart + 262 <= 2 * s.wsize && s.prevLength == 2 && s.matchLength < 3
    requires s.Rooted() && Seen(s, s.base + s.strstart) && c.chain < 0x1_0000_0000
    modifies s`insH, s`ins, s`top, s`matchLength, s`matchStart, s.head, s.prev
    ensures Stepped(s) && s.matchLength <= 258
    ensures s.matchLength >= 3 ==> LongestMatch.Match(s, s.matchStart, s.matchLength)
    ensures Settled(s.View(), s.base + s.strstart)
    ensures NoneLonger(s.View(), s.base + s.strstart, BestOrTwo(s.matchLength))
    ensures Grows(old(s.View()), s.View(), old(s.top)) && s.top >= old(s.top)
  {
    hide *;
    var hashHead := InsertCurrent(s);
    SteppedParts(s);
    SeenSettled(s, s.base + s.strstart);
    if hashHead != 0 && s.strstart - hashHead <= s.MaxDist() {
      CandidateRange(s, hashHead);
      ghost var tried;
      s.matchLength, tried := Longest(s, hashHead, c.chain, c.good, c.nice);
      LongestFound(s, hashHead, tried);
    } else {
      NoHeadFound(s, s.base + hashHead);
    }
  }

  /** Move past a match. */
  method PassMatch(s: State, c: Config)
    requires Stepped(s) && 3 <= s.matchLength <= 258 && s.matchLength <= s.lookahead && s.strstart + 262 <= 2 * s.wsize
    requires Seen(s, s.base + s.strstart)
    modifies s`insH, s`ins, s`top, s`strstart, s`lookahead, s`matchLength, s.head, s.prev
    ensures s.Valid() && s.HashReady() && s.matchLength == 0
    ensures s.strstart == old(s.strstart + s.matchLength) && s.lookahead == old(s.lookahead - s.matchLength)
    ensures Inner(s.View(), c, old(s.base + s.strstart), old(s.matchLength))
    ensures Grows(old(s.View()), s.View(), old(s.top)) && s.top >= old(s.top)
  {
    hide *;
    SteppedParts(s);
    s.ViewGrows([]);
    s.ViewIs();
    ghost var n, len := s.base + s.strstart, s.matchLength;
    if s.matchLength <= c.lazy && s.lookahead - s.matchLength >= 3 {
      InsertWithin(s, s.matchLength);
      InnerIndexed(s, c, n, len);
    } else {
      InnerExempt(s, c, n, len);
      SkipMatch(s, s.matchLength);
    }
  }

  lemma InnerIndexed(s: State, c: Config, n: nat, len: nat)
    requires forall p :: n < p < n + len ==> p in s.ins
    ensures Inner(s.View(), c, n, len)
  {
  }

  lemma InnerExempt(s: State, c: Config, n: nat, len: nat)
    requires Seen(s, n) && len <= 258 && (len > c.lazy || n + len + 3 > |s.data|)
    ensures Inner(s.View(), c, n, len)
  {
    if len <= c.lazy { assert n < |s.data| < n + len + 3 && |s.data| in s.View().ends; }
  }

  /** What a token says is the best that was found. */
  lemma FastRuleIs(v: View, c: Config, t: Token, x: nat, len: nat)
    requires Settled(v, x) && NoneLonger(v, x, BestOrTwo(len))
    requires if len >= 3 then t.Match? && t.len == len && Inner(v, c, x, len) else t.Literal?
    ensures Rule(FAST, v, c, t, x)
  {
    hide Settled, NoneLonger, Inner;
  }

  /** One step: a match or a literal. */
  method Step(s: State, b: Buffer, c: Config) returns (full: bool)
    requires s.Valid() && s.HashReady() && s.strstart + 262 <= 2 * s.wsize && s.prevLength == 2 && s.matchLength < 3
    requires s.lookahead >= 1 && s.window != b.lBuf && b.Valid() && b.lastLit + 1 < b.lBuf.Length
    requires Covers(b.All(), s.data, s.base + s.strstart, s.MaxDist())
    requires s.Rooted() && Seen(s, s.base + s.strstart) && c.chain < 0x1_0000_0000
    requires Ruled(FAST, s.View(), c, b.All())
    modifies s`insH, s`ins, s`top, s`strstart, s`lookahead, s`matchLength, s`matchStart, s.head, s.prev,
             b`lastLit, b`lFreq, b`dFreq, b.dBuf, b.lBuf
    ensures s.Valid() && s.HashReady() && s.matchLength < 3
    ensures b.Valid() && (full <==> b.lastLit == b.lBuf.Length - 1) && b.lastLit == old(b.lastLit) + 1
    ensures Covers(b.All(), s.data, s.base + s.strstart, s.MaxDist())
    ensures s.lookahead < old(s.lookahead) && s.strstart > old(s.strstart)
    ensures s.Rooted() && Ruled(FAST, s.View(), c, b.All())
  {
    hide *;
    s.Sizes();
    ghost var v, t, ts, n := s.View(), s.top, b.All(), s.base + s.strstart;
    CoversLength(ts, s.data, n, s.MaxDist());
    FindMatch(s, c);
    SteppedParts(s);
    RuledKept(FAST, v, s.View(), t, c, ts);
    if s.matchLength >= 3 {
      MatchIs(s, s.matchStart, s.matchLength);
      full := RecordMatch(s, b, c, ts);
    } else {
      ghost var token := Literal(s.data[n]);
      FastRuleIs(s.View(), c, token, n, s.matchLength);
      RuledNext(FAST, s.View(), c, ts, token);
      full := EmitLiteral(s, b, s.strstart);
      AdvanceOne(s);
    }
    s.RootedOn();
  }

  /** Record the match found and move past it. */
  method RecordMatch(s: State, b: Buffer, c: Config, ghost ts: seq<Token>) returns (full: bool)
    requires Stepped(s) && 3 <= s.matchLength <= 258 && s.matchLength <= s.lookahead && s.strstart + 262 <= 2 * s.wsize
    requires s.window != b.lBuf && b.Valid() && b.lastLit + 1 < b.lBuf.Length && b.All() == ts
    requires LongestMatch.Match(s, s.matchStart, s.matchLength) && Covers(ts, s.data, s.base + s.strstart, s.MaxDist())
    requires Seen(s, s.base + s.strstart) && Settled(s.View(), s.base + s.strstart)
    requires NoneLonger(s.View(), s.base + s.strstart, BestOrTwo(s.matchLength)) && Ruled(FAST, s.View(), c, ts)
    modifies s`insH, s`ins, s`top, s`strstart, s`lookahead, s`matchLength, s.head, s.prev,
             b`lastLit, b`lFreq, b`dFreq, b.dBuf, b.lBuf
    ensures s.Valid() && s.HashReady() && s.matchLength == 0
    ensures s.strstart == old(s.strstart + s.matchLength) && s.lookahead == old(s.lookahead - s.matchLength)
    ensures b.Valid() && (full <==> b.lastLit == b.lBuf.Length - 1) && b.lastLit == old(b.lastLit) + 1
    ensures Covers(b.All(), s.data, s.base + s.strstart, s.MaxDist()) && Ruled(FAST, s.View(), c, b.All())
  {
    hide *;
    SteppedParts(s);
    MatchIs(s, s.matchStart, s.matchLength);
    ghost var v, t, n, len := s.View(), s.top, s.base + s.strstart, s.matchLength;
    ghost var token := Match(len, s.strstart - s.matchStart);
    CoversLength(ts, s.data, n, s.MaxDist());
    full := EmitMatch(s, b, s.strstart - s.matchStart, s.matchLength, n);
    PassMatch(s, c);
    RuledKept(FAST, v, s.View(), t, c, ts);
    SettledKept(v, s.View(), t, n);
    NoneLongerKept(v, s.View(), t, n, BestOrTwo(len));
    FastRuleIs(s.View(), c, token, n, len);
    RuledNext(FAST, s.View(), c, ts, token);
  }

  /** The state between calls. */
  ghost predicate FastReady(s: State, b: Buffer, c: Config)
    reads s, b, s.window, s.head, s.prev, b.dBuf, b.lBuf
  {
    && s.Valid() && s.HashReady() && s.prevLength == 2 && s.matchLength < 3 && s.window != b.lBuf && Covered(s, b, 0)
    && s.Rooted() && b.Valid() && Ruled(FAST, s.View(), c, b.All())
  }

  /** One step, and the flush of a full buffer. */
  method Round(s: State, b: Buffer, c: Config) returns (stop: bool)
    requires FastReady(s, b, c) && s.strstart + 262 <= 2 * s.wsize && s.lookahead >= 1 && s.space > 0
    requires Seen(s, s.base + s.strstart) && c.chain < 0x1_0000_0000
    modifies s`insH, s`ins, s`top, s`strstart, s`lookahead, s`matchLength, s`matchStart, s`blockStart, s`space, s.head,
             s.prev, b`lastLit, b`lFreq, b`dFreq, b`flushed, b.dBuf, b.lBuf
    ensures FastReady(s, b, c) && s.strstart > old(s.strstart)
    ensures (stop <==> s.space == 0) && Credit(s, b) >= old(Credit(s, b)) - 1
  {
    hide *;
    FastParts(s, b, c);
    s.Sizes();
    CoveredParts(s, b, 0);
    CreditIs(s, b);
    var full := Step(s, b, c);
    CreditIs(s, b);
    stop := FlushFull(s, b, full);
    CoveredParts(s, b, 0);
    FastAgain(s, b, c);
  }

  /** Make sure of enough lookahead, or else find out whether to go on. */
  method MoreInput(s: State, b: Buffer, c: Config, flush: FlushMode, ghost all: seq<byte>, ghost data: seq<byte>)
    returns (going: bool)
    requires FastReady(s, b, c) && Continues(s, all, data) && (flush != NO_FLUSH ==> |all| in s.ends)
    modifies s`nextIn, s`strstart, s`lookahead, s`insH, s`insert, s`blockStart, s`highWater, s`matchStart,
             s`data, s`base, s`ins, s`top, s.window, s.head, s.prev
    ensures FastReady(s, b, c) && Continues(s, all, data) && s.base + s.strstart == old(s.base + s.strstart) <= |all|
    ensures going ==> s.strstart + 262 <= 2 * s.wsize && s.lookahead >= 1 && Seen(s, s.base + s.strstart)
    ensures !going && flush != NO_FLUSH ==> s.lookahead == 0 && s.nextIn == []
    ensures !going && flush == NO_FLUSH ==> s.lookahead < 262 && s.nextIn == []
  {
    hide *;
    FastParts(s, b, c);
    s.Sizes();
    going := true;
    if s.lookahead < 262 {
      ghost var v, t := s.View(), s.top;
      Refill(s, b, 0, all, data);
      s.Sizes();
      RuledKept(FAST, v, s.View(), t, c, b.All());
      FastAgain(s, b, c);
      going := s.lookahead >= 262 || (flush != NO_FLUSH && s.lookahead != 0);
    }
    ContinuesFrom(s, all, data);
    if going { NowSeen(s, s.base + s.strstart); }
  }

  /** deflate_fast. Input, once taken, is covered by the tokens, and they obey the rules of greedy matching. A call
      goes on until the output space runs out, or until there is too little input to go on without a flush; with
      a flush it writes everything. */
  method Fast(s: State, b: Buffer, c: Config, flush: FlushMode, ghost all: seq<byte>, ghost data: seq<byte>)
    returns (bs: BlockState)
    requires FastReady(s, b, c) && Continues(s, all, data) && c.chain < 0x1_0000_0000
    requires s.space > 0 && (flush != NO_FLUSH ==> |all| in s.ends)
    modifies s, b, s.window, s.head, s.prev, b.dBuf, b.lBuf
    ensures FastReady(s, b, c) && Continues(s, all, data) && Same(s, old(s.ends), old(s.forgotten))
    ensures bs == NEED_MORE ==> s.space == 0 || (flush == NO_FLUSH && s.nextIn == [] && s.lookahead < 262)
    ensures bs != NEED_MORE ==> AllWritten(s, b) && bs == Ended(flush, s.space)
    ensures old(Enough(s, b)) ==> s.space > 0
    ensures flush == NO_FLUSH ==> bs == NEED_MORE
  {
    hide *;
    bs := NEED_MORE;
    var going, ending := true, false;
    FastParts(s, b, c);
    s.Sizes();
    CoveredParts(s, b, 0);
    ContinuesFrom(s, all, data);
    EnoughIs(s, b, all);
    ghost var sum, ends, forgotten := Credit(s, b) + s.base + s.strstart, s.ends, s.forgotten;
    while going
      invariant FastReady(s, b, c) && Continues(s, all, data) && s.ends == ends && s.forgotten == forgotten
      invariant ending ==> !going && s.lookahead == 0 && s.nextIn == [] && flush != NO_FLUSH && s.space > 0
      invariant going ==> s.space > 0
      invariant !going && !ending ==> s.space == 0 || (flush == NO_FLUSH && s.nextIn == [] && s.lookahead < 262)
      invariant Credit(s, b) + s.base + s.strstart >= sum
      decreases going, |all| - (s.base + s.strstart)
    {
      going := MoreInput(s, b, c, flush, all, data);
      ending := !going && flush != NO_FLUSH;
      if going {
        var stop := Round(s, b, c);
        going := !stop;
      }
    }
    FastParts(s, b, c);
    s.Sizes();
    ContinuesFrom(s, all, data);
    CreditIs(s, b);
    if ending { bs := EndFast(s, b, c, flush); }
    SameIs(s, ends, forgotten);
    EndedIs(flush, s.space);
  }

  method EndFast(s: State, b: Buffer, c: Config, flush: FlushMode) returns (bs: BlockState)
    requires FastReady(s, b, c) && s.lookahead == 0 && s.nextIn == [] && s.space > 0
    modifies s`insert, s`blockStart, s`space, b`lastLit, b`lFreq, b`dFreq, b`flushed
    ensures FastReady(s, b, c) && AllWritten(s, b)
    ensures bs == Ended(flush, s.space) && (old(Credit(s, b)) >= b.lBuf.Length ==> s.space > 0)
  {
    hide *;
    FastParts(s, b, c);
    SetInsert(s);
    s.Sizes();
    CoveredParts(s, b, 0);
    CreditIs(s, b);
    bs := EndCall(s, b, flush);
    CoveredParts(s, b, 0);
    FastAgain(s, b, c);
  }

  lemma FastParts(s: State, b: Buffer, c: Config)
    requires FastReady(s, b, c)
    ensures s.Valid() && s.HashReady() && s.prevLength == 2 && s.matchLength < 3 && s.window != b.lBuf
    ensures Covered(s, b, 0) && s.Rooted() && b.Valid() && Ruled(FAST, s.View(), c, b.All())
  {
    hide State.Valid, State.HashReady, State.Rooted, Covered, Ruled;
  }

  lemma FastAgain(s: State, b: Buffer, c: Config)
    requires s.Valid() && s.HashReady() && s.prevLength == 2 && s.matchLength < 3 && s.window != b.lBuf
    requires Covered(s, b, 0) && s.Rooted() && b.Valid() && Ruled(FAST, s.View(), c, b.All())
    ensures FastReady(s, b, c)
  {
  }
}
