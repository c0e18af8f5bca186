/** What the compression functions share: refilling the window and flushing a block, with the recorded tokens
    always expanding to the input consumed. */
module DeflateBlock {
  import opened Common
  import opened Bits
  import opened Lz77
  import opened HashChain
  import opened TokenRules
  import opened DeflateState
  import opened FillWindow
  import opened LongestMatch
  import opened TokenBuffer

  datatype FlushMode = NO_FLUSH | PARTIAL_FLUSH | SYNC_FLUSH | FULL_FLUSH | FINISH | BLOCK
  datatype BlockState = NEED_MORE | BLOCK_DONE | FINISH_STARTED | FINISH_DONE

  /** How many more tokens the output has space for, all blocks but the last being full ones. */
  ghost function Credit(s: State, b: Buffer): int
    reads s`space, b`lastLit
  {
    s.space * (b.lBuf.Length - 1) - b.lastLit
  }

  /** There is space for a token for each byte to come, and for a block to end with. */
  ghost predicate Enough(s: State, b: Buffer)
    reads s`space, s`data, s`nextIn, s`base, s`strstart, b`lastLit
  {
    Credit(s, b) > |s.data| + |s.nextIn| - (s.base + s.strstart) + b.lBuf.Length
  }

  lemma EnoughIs(s: State, b: Buffer, all: seq<byte>)
    requires |s.data| + |s.nextIn| == |all|
    ensures Enough(s, b) <==> Credit(s, b) > |all| - (s.base + s.strstart) + b.lBuf.Length
  {
    hide Credit;
  }

  /** What a call does not change. */
  ghost predicate Same(s: State, ends: set<nat>, forgotten: set<nat>)
    reads s`ends, s`forgotten
  {
    s.ends == ends && s.forgotten == forgotten
  }

  lemma SameIs(s: State, ends: set<nat>, forgotten: set<nat>)
    ensures Same(s, ends, forgotten) <==> s.ends == ends && s.forgotten == forgotten
  {
  }

  lemma CreditIs(s: State, b: Buffer)
    requires 2 <= b.lBuf.Length
    ensures Credit(s, b) == s.space * (b.lBuf.Length - 1) - b.lastLit
    ensures s.space == 0 ==> Credit(s, b) <= 0
    ensures s.space <= 1 ==> Credit(s, b) < b.lBuf.Length
  {
  }

  /** A full block takes the space for its tokens. */
  lemma FullBlock(space: nat, length: nat)
    requires space > 0 && length > 0
    ensures space * (length - 1) - (length - 1) == (space - 1) * (length - 1)
  {
  }

  /** The tokens recorded cover the data up to the current position less the bytes held back, and those of
      finished blocks cover the data up to the start of the current block. */
  ghost predicate Covered(s: State, b: Buffer, held: nat)
    reads s`data, s`base, s`strstart, s`blockStart, b`lastLit, b`lFreq, b`dFreq, b`flushed, b.dBuf, b.lBuf
  {
    && b.Valid() && b.lastLit + 1 < b.lBuf.Length && s.blockStart <= s.strstart
    && Covers(b.All(), s.data, s.base + s.strstart - held, s.MaxDist())
    && Covers(b.flushed, s.data, s.base + s.blockStart, s.MaxDist())
  }

  lemma CoveredGrows(s: State, b: Buffer, held: nat, data: seq<byte>, pos: int, block: int)
    requires b.Valid() && b.lastLit + 1 < b.lBuf.Length && block <= pos && data <= s.data
    requires Covers(b.All(), data, pos - held, s.MaxDist()) && Covers(b.flushed, data, block, s.MaxDist())
    requires s.base + s.strstart == pos && s.base + s.blockStart == block
    ensures Covered(s, b, held)
  {
    hide Covers;
    CoversIn(b.All(), data, pos - held, s.MaxDist());
    CoversIn(b.flushed, data, block, s.MaxDist());
    CoversMore(b.All(), data, s.data, pos - held, s.MaxDist());
    CoversMore(b.flushed, data, s.data, block, s.MaxDist());
  }

  lemma CoversIn(ts: seq<Token>, data: seq<byte>, n: int, far: int)
    requires Covers(ts, data, n, far)
    ensures 0 <= n <= |data|
  {
  }

  lemma CoveredParts(s: State, b: Buffer, held: nat)
    requires Covered(s, b, held)
    ensures b.Valid() && b.lastLit + 1 < b.lBuf.Length && s.blockStart <= s.strstart
    ensures Covers(b.All(), s.data, s.base + s.strstart - held, s.MaxDist())
    ensures Covers(b.flushed, s.data, s.base + s.blockStart, s.MaxDist())
    ensures 0 <= s.base + s.blockStart && held <= s.base + s.strstart
  {
  }

  /** A call goes on with the input where the last one stopped. */
  ghost predicate Continues(s: State, all: seq<byte>, data: seq<byte>)
    reads s`data, s`nextIn
  {
    s.data + s.nextIn == all && data <= s.data
  }

  lemma ContinuesTo(s: State, all: seq<byte>, data: seq<byte>, data': seq<byte>)
    requires s.data + s.nextIn == all && data <= data' <= s.data
    ensures Continues(s, all, data)
  {
  }

  lemma ContinuesFrom(s: State, all: seq<byte>, data: seq<byte>)
    requires Continues(s, all, data)
    ensures s.data + s.nextIn == all && data <= s.data && |s.data| + |s.nextIn| == |all|
  {
  }

  /** fill_window, with everything recorded still in place. */
  method Refill(s: State, b: Buffer, ghost held: nat, ghost all: seq<byte>, ghost data0: seq<byte>)
    requires s.Valid() && s.lookahead < 262 && s.window != b.lBuf && Covered(s, b, held) && Continues(s, all, data0)
    modifies s`nextIn, s`strstart, s`lookahead, s`insH, s`insert, s`blockStart, s`highWater, s`matchStart,
             s`data, s`base, s`ins, s`top, s.window, s.head, s.prev
    ensures s.Valid() && (old(s.HashReady()) ==> s.HashReady()) && Covered(s, b, held)
    ensures Continues(s, all, data0) && old(s.data) <= s.data
    ensures s.base + s.strstart == old(s.base + s.strstart)
    ensures Sub32(s.strstart, s.matchStart) == old(Sub32(s.strstart, s.matchStart))
    ensures s.lookahead >= 262 || s.nextIn == []
    ensures s.strstart <= 2 * s.wsize - 262 && (s.strstart == 0 <==> old(s.strstart) == 0)
    ensures Grows(old(s.View()), s.View(), old(s.top)) && s.top >= old(s.top) && (old(s.Rooted()) ==> s.Rooted())
  {
    hide *;
    CoveredParts(s, b, held);
    ContinuesFrom(s, all, data0);
    ghost var pos, data, block, dist := s.base + s.strstart, s.data, s.base + s.blockStart,
      Sub32(s.strstart, s.matchStart);
    StillPlace(s, pos, all, data, data, block, dist);
    Fill(s, pos, all, data, block, dist);
    InPlace(s, pos, all, data, block, dist);
    CoveredGrows(s, b, held, data, pos, block);
    ContinuesTo(s, all, data0, data);
  }

  /** FLUSH_BLOCK_ONLY, which takes one of the blocks that the output has space for. raw is the buffer offered for a
      stored block, if all of it is still in the window; it is exactly what the tokens of the block stand for, and the
      frequencies handed on are theirs. */
  method FlushBlock(s: State, b: Buffer) returns (ghost raw: Option<seq<byte>>, ghost block: seq<Token>)
    requires s.Holds() && s.window != b.lBuf && s.base + s.strstart <= |s.data| && s.blockStart <= s.strstart
    requires b.Valid() && 2 <= b.lBuf.Length && Covers(b.All(), s.data, s.base + s.strstart, s.MaxDist())
    requires Covers(b.flushed, s.data, s.base + s.blockStart, s.MaxDist()) && s.space > 0
    modifies s`blockStart, s`space, b`lastLit, b`lFreq, b`dFreq, b`flushed
    ensures s.space == old(s.space) - 1 && b.Valid() && b.All() == old(b.All())
    ensures Covered(s, b, 0) && b.lastLit == 0 && s.blockStart == s.strstart && b.flushed == old(b.All())
    ensures b.flushed == old(b.flushed) + block && Counts(old(b.lFreq), old(b.dFreq), block)
    ensures raw.Some? <==> old(s.blockStart) >= 0
    ensures raw.Some? ==> Expand([], old(b.flushed)) == Some(s.data[..s.base + old(s.blockStart)])
                          && Expand([], b.flushed) == Some(s.data[..s.base + old(s.blockStart)] + raw.value)
  {
    hide Expand, Chains, Pow2, Counts;
    block := b.Pending();
    raw := None;
    if s.blockStart >= 0 {
      var buf := s.window[s.blockStart..s.strstart];
      raw := Some(buf);
      WindowSlice(s, s.blockStart, s.strstart);
      assert s.data[..s.base + s.strstart] == s.data[..s.base + s.blockStart] + buf;
    }
    b.Flush();
    s.blockStart := s.strstart;
    s.space := s.space - 1;
  }

  lemma WindowSlice(s: State, i: nat, j: nat)
    requires s.Holds() && i <= j && s.base + j <= |s.data|
    ensures j <= s.window.Length && s.window[i..j] == s.data[s.base + i..s.base + j]
  {
    hide Chains, Pow2;
    assert s.window[..|s.data| - s.base] == s.data[s.base..];
    SliceOfPrefix(s.window[..], s.data, s.base, |s.data| - s.base, i, j);
  }

  lemma SliceOfPrefix(w: seq<byte>, data: seq<byte>, base: nat, n: nat, i: nat, j: nat)
    requires n <= |w| && |data| == base + n && w[..n] == data[base..] && i <= j <= n
    ensures w[i..j] == data[base + i..base + j]
  {
    assert w[i..j] == w[..n][i..j];
    assert data[base + i..base + j] == data[base..][i..j];
  }

  // ---------------------------------------------------------------- steps

  /** The current string has been inserted, if it is long enough, and the state has not moved on yet. */
  ghost predicate Stepped(s: State)
    reads s`data, s`base, s`ins, s`top, s`strstart, s`lookahead, s`insert, s`insH, s.window, s.head, s.prev
  {
    && s.Holds() && |s.data| == s.base + s.strstart + s.lookahead && s.top <= s.base + s.strstart + 1
    && s.insert <= s.strstart && (s.insert > 0 ==> s.lookahead + s.insert < 3)
    && (s.lookahead >= 3 ==> s.KeyAt(s.strstart + 1))
    && (s.lookahead < 3 ==> s.top <= s.base + s.strstart)
  }

  lemma SteppedParts(s: State)
    requires Stepped(s)
    ensures s.Holds() && |s.data| == s.base + s.strstart + s.lookahead && s.strstart + s.lookahead <= 2 * s.wsize
    ensures s.window.Length == 2 * s.wsize && 8 <= s.bits <= 16
    ensures s.lookahead >= 3 ==> s.KeyAt(s.strstart + 1) && s.insert == 0 && s.top <= s.base + s.strstart + 1
  {
  }

  /** Insert the current string; the head of its chain is a candidate if it is near enough. */
  method InsertCurrent(s: State) returns (hashHead: nat)
    requires s.Valid() && s.HashReady() && s.strstart + 262 <= 2 * s.wsize
    modifies s`insH, s`ins, s`top, s.head, s.prev
    ensures Stepped(s) && (hashHead != 0 ==> Searching(s) && hashHead < s.strstart)
    ensures hashHead != 0 && s.strstart - hashHead <= s.MaxDist() ==> Candidate(s, hashHead)
    ensures Grows(old(s.View()), s.View(), old(s.top)) && s.top >= old(s.top)
    ensures s.lookahead >= 3 ==> s.base + s.strstart in s.ins
    ensures s.Rooted() ==> OnlyHead(s.View(), s.base + s.strstart, s.base + hashHead,
                                    hashHead != 0 && s.strstart - hashHead <= s.MaxDist())
  {
    hide Chains, Pow2, HashAt, Rolling, Grows, Leads, NonePassed, Head;
    hashHead := 0;
    s.ViewGrows([]);
    s.ViewIs();
    ghost var n := s.base + s.strstart;
    if s.lookahead >= MIN_MATCH {
      hashHead := s.InsertString(s.strstart);
      if s.Rooted() {
        forall q: nat | Head(s.View(), n, q) ensures hashHead != 0 && q == s.base + hashHead && n - q <= s.MaxDist() {
          HeadIs(s, hashHead, q);
        }
      }
    } else {
      forall q: nat | Head(s.View(), n, q) ensures false { HeadThree(s.View(), n, q); }
    }
    assert s.Rooted() ==> OnlyHead(s.View(), n, s.base + hashHead,
                                   hashHead != 0 && s.strstart - hashHead <= s.MaxDist());
  }

  lemma HeadThree(v: View, x: nat, q: nat)
    requires Head(v, x, q)
    ensures x + 3 <= |v.data|
  {
  }

  /** What is found at the head of the chain is the last string with the key. */
  lemma HeadIs(s: State, v: nat, q: nat)
    requires s.base + s.strstart + 3 <= |s.data| && s.Rooted() && Head(s.View(), s.base + s.strstart, q)
    requires var h := HashAt(s.data, s.base + s.strstart, s.bits);
             && Leads(v, s.data, s.base, s.ins, s.bits, h) && (v == 0 || v < s.strstart)
             && NonePassed(v, s.data, s.base, s.ins, s.bits, h, s.base + s.strstart)
    ensures v != 0 && q == s.base + v && s.strstart - v <= s.MaxDist()
  {
    hide HashAt;
    assert s.floor in s.forgotten;
    assert s.base < q;
  }

  // ---------------------------------------------------------------- what is seen

  /** As many bytes as a match can have are ahead, or the input ends here with a flush. */
  ghost predicate Seen(s: State, n: nat)
    reads s`data, s`ends
  {
    n < |s.data| && (n + 262 <= |s.data| || |s.data| in s.ends)
  }

  lemma SeenPlaced(s: State, n: nat, p: nat)
    requires Seen(s, n) && n <= p < |s.data| && p <= n + 257 && (p + 3 <= |s.data| ==> p in s.ins)
    ensures Placed(s.View(), p)
  {
    if p + 3 > |s.data| { assert |s.data| in s.ends && p < |s.data| < p + 3; }
  }

  lemma SeenSettled(s: State, n: nat)
    requires Seen(s, n) && (n + 3 <= |s.data| ==> n in s.ins)
    ensures Settled(s.View(), n)
  {
    SeenPlaced(s, n, n);
  }

  /** The tokens recorded are as long as the data they cover. */
  lemma CoversLength(ts: seq<Token>, data: seq<byte>, n: int, far: int)
    requires Covers(ts, data, n, far)
    ensures 0 <= n && Length(ts) == n
  {
    ExpandLength([], ts);
  }

  lemma NowSeen(s: State, n: nat)
    requires n < |s.data| && (n + 262 <= |s.data| || |s.data| in s.ends)
    ensures Seen(s, n)
  {
  }

  /** What the head of the chain offers in the data, it offers the search. */
  lemma OfferMatches(s: State, head: nat, k: nat)
    requires 1 <= head < s.strstart && s.strstart - head <= s.MaxDist()
    requires Offers(s.View(), s.base + s.strstart, s.base + head, k)
    ensures LongestMatch.Match(s, head, k) && 3 <= k <= 258
  {
  }

  /** One byte on. */
  lemma Advanced(s: State)
    requires s.Holds() && |s.data| == s.base + s.strstart + s.lookahead && s.top <= s.base + s.strstart
    requires s.insert <= s.strstart && (s.insert > 0 ==> s.lookahead + s.insert < 3)
    requires s.lookahead >= 3 ==> s.KeyAt(s.strstart)
    ensures s.Valid() && s.HashReady()
  {
  }

  method AdvanceOne(s: State)
    requires Stepped(s) && s.lookahead >= 1
    modifies s`strstart, s`lookahead
    ensures s.Valid() && s.HashReady() && s.strstart == old(s.strstart) + 1 && s.lookahead == old(s.lookahead) - 1
  {
    hide State.Holds, State.KeyAt;
    s.strstart := s.strstart + 1;
    s.lookahead := s.lookahead - 1;
    Advanced(s);
  }

  lemma MatchIs(s: State, start: nat, len: nat)
    requires LongestMatch.Match(s, start, len) && s.Holds() && |s.data| == s.base + s.strstart + s.lookahead
    ensures 1 <= start < s.strstart && s.strstart - start <= s.MaxDist() < 0x1_0000 && len <= s.lookahead
    ensures MatchAt(s.data, s.base + s.strstart, s.strstart - start, len)
  {
  }

  /** Record the byte at a window index as a literal. */
  method EmitLiteral(s: State, b: Buffer, at: nat) returns (full: bool)
    requires s.Holds() && s.window != b.lBuf && b.Valid() && b.lastLit + 1 < b.lBuf.Length
    requires Covers(b.All(), s.data, s.base + at, s.MaxDist()) && s.base + at < |s.data|
    modifies b`lastLit, b`lFreq, b`dFreq, b.dBuf, b.lBuf
    ensures s.Holds() && b.Valid() && (full <==> b.lastLit == b.lBuf.Length - 1)
    ensures Covers(b.All(), s.data, s.base + at + 1, s.MaxDist())
    ensures b.All() == old(b.All()) + [Literal(s.data[s.base + at])] && b.lastLit == old(b.lastLit) + 1
  {
    hide *;
    s.At(at);
    CoversLiteral(b.All(), s.data, s.base + at, s.MaxDist());
    full := b.TallyLit(s.window[at]);
  }

  /** Record a match. */
  method EmitMatch(s: State, b: Buffer, dist: nat, len: nat, ghost n: nat) returns (full: bool)
    requires s.Holds() && s.window != b.lBuf && b.Valid() && b.lastLit + 1 < b.lBuf.Length
    requires Covers(b.All(), s.data, n, s.MaxDist()) && MatchAt(s.data, n, dist, len) && 3 <= len <= 258
    requires dist <= s.MaxDist() && dist < 0x1_0000
    modifies b`lastLit, b`lFreq, b`dFreq, b.dBuf, b.lBuf
    ensures s.Holds() && b.Valid() && (full <==> b.lastLit == b.lBuf.Length - 1)
    ensures Covers(b.All(), s.data, n + len, s.MaxDist())
    ensures b.All() == old(b.All()) + [Match(len, dist)] && b.lastLit == old(b.lastLit) + 1
  {
    hide *;
    MatchDistance(s.data, n, dist, len);
    FarLimit(s);
    CoversMatch(b.All(), s.data, n, dist, len, s.MaxDist());
    full := b.TallyDist(dist, len - 3);
  }

  lemma FarLimit(s: State)
    requires s.Holds()
    ensures s.MaxDist() < 32768
  {
  }

  lemma MatchDistance(data: seq<byte>, n: nat, d: nat, len: nat)
    requires MatchAt(data, n, d, len)
    ensures 1 <= d <= n && n + len <= |data|
  {
  }

  // ---------------------------------------------------------------- calls

  /** Everything taken in is in finished blocks. */
  ghost predicate AllWritten(s: State, b: Buffer)
    reads s`data, s`nextIn, s`lookahead, b`lastLit, b`flushed
  {
    s.nextIn == [] && s.lookahead == 0 && b.lastLit == 0 && Covers(b.flushed, s.data, |s.data|, s.MaxDist())
  }

  /** FLUSH_BLOCK for a full buffer: stop if there is no more output space. */
  method FlushFull(s: State, b: Buffer, full: bool) returns (stop: bool)
    requires s.Valid() && s.window != b.lBuf && s.blockStart <= s.strstart
    requires Covers(b.flushed, s.data, s.base + s.blockStart, s.MaxDist())
    requires b.Valid() && 2 <= b.lBuf.Length && Covers(b.All(), s.data, s.base + s.strstart, s.MaxDist())
    requires (full <==> b.lastLit == b.lBuf.Length - 1) && s.space > 0
    modifies s`blockStart, s`space, b`lastLit, b`lFreq, b`dFreq, b`flushed
    ensures Covered(s, b, 0) && b.All() == old(b.All()) && (stop <==> s.space == 0)
    ensures Credit(s, b) == old(Credit(s, b))
  {
    hide *;
    s.Sizes();
    CreditIs(s, b);
    stop := false;
    if full {
      FullBlock(s.space, b.lBuf.Length);
      ghost var _, _ := FlushBlock(s, b);
      CreditIs(s, b);
      if s.space == 0 { stop := true; }
    } else {
      MakeCovered(s, b);
    }
  }

  lemma MakeCovered(s: State, b: Buffer)
    requires b.Valid() && b.lastLit != b.lBuf.Length - 1 && s.blockStart <= s.strstart
    requires Covers(b.All(), s.data, s.base + s.strstart, s.MaxDist())
    requires Covers(b.flushed, s.data, s.base + s.blockStart, s.MaxDist())
    ensures Covered(s, b, 0)
  {
  }

  /** The end of a call, when all input is used up: write the last block. Whether it is done depends on the
      output space. */
  method EndCall(s: State, b: Buffer, flush: FlushMode) returns (bs: BlockState)
    requires s.Valid() && s.window != b.lBuf && s.blockStart <= s.strstart
    requires Covers(b.flushed, s.data, s.base + s.blockStart, s.MaxDist())
    requires b.Valid() && 2 <= b.lBuf.Length && Covers(b.All(), s.data, s.base + s.strstart, s.MaxDist())
    requires s.lookahead == 0 && s.nextIn == [] && s.space > 0
    modifies s`blockStart, s`space, b`lastLit, b`lFreq, b`dFreq, b`flushed
    ensures Covered(s, b, 0) && AllWritten(s, b) && b.All() == old(b.All()) && s.space >= old(s.space) - 1
    ensures bs == Ended(flush, s.space)
  {
    hide *;
    s.Sizes();
    EndedIs(flush, s.space);
    if flush == FINISH || b.lastLit != 0 {
      ghost var _, _ := FlushBlock(s, b);
      bs := if flush == FINISH then (if s.space == 0 then FINISH_STARTED else FINISH_DONE)
            else (if s.space == 0 then NEED_MORE else BLOCK_DONE);
      EndedIs(flush, s.space);
    } else {
      MakeCovered(s, b);
      bs := BLOCK_DONE;
      NothingPending(b);
    }
    Written(s, b);
  }

  /** The answer of a call that has written everything, by the output space that is left. */
  function Ended(flush: FlushMode, space: nat): BlockState
  {
    if space == 0 then (if flush == FINISH then FINISH_STARTED else NEED_MORE)
    else if flush == FINISH then FINISH_DONE else BLOCK_DONE
  }

  lemma EndedIs(flush: FlushMode, space: nat)
    ensures space == 0 && flush == FINISH ==> Ended(flush, space) == FINISH_STARTED
    ensures space == 0 && flush != FINISH ==> Ended(flush, space) == NEED_MORE
    ensures space > 0 && flush == FINISH ==> Ended(flush, space) == FINISH_DONE
    ensures space > 0 && flush != FINISH ==> Ended(flush, space) == BLOCK_DONE
  {
  }

  lemma NothingPending(b: Buffer)
    requires b.Valid() && b.lastLit == 0
    ensures b.All() == b.flushed
  {
  }

  lemma Written(s: State, b: Buffer)
    requires s.nextIn == [] && s.lookahead == 0 && b.lastLit == 0 && Covers(b.flushed, s.data, |s.data|, s.MaxDist())
    ensures AllWritten(s, b)
  {
  }

  /** The strings at the end of the data that lack bytes are inserted when more arrives. */
  method SetInsert(s: State)
    requires s.Valid() && s.lookahead == 0
    modifies s`insert
    ensures s.Valid() && s.HashReady()
  {
    hide Chains, Pow2;
    s.insert := if s.strstart < MIN_MATCH - 1 then s.strstart else MIN_MATCH - 1;
  }
}
