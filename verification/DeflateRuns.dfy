/** deflate_rle and deflate_huff: runs of one byte as matches of distance one, or literals only. Tokens cover the
    input, and obey the rules of run-length matching, or are all literals. */
module DeflateRuns {
  import opened Bits
  import opened Lz77
  import opened TokenRules
  import opened DeflateState
  import opened LongestMatch
  import opened TokenBuffer
  import opened DeflateBlock

  /** The method: runs, or literals only. */
  function Kind(runs: bool): Method
  {
    if runs then RLE else HUFFMAN_ONLY
  }

  /** Between steps and between calls. */
  ghost predicate RunsReady(s: State, b: Buffer, m: Method, c: Config)
    reads s, b, s.window, s.head, s.prev, b.dBuf, b.lBuf
  {
    && s.Valid() && s.window != b.lBuf && Covered(s, b, 0)
    && s.Rooted() && b.Valid() && Ruled(m, s.View(), c, b.All())
  }

  lemma RunsParts(s: State, b: Buffer, m: Method, c: Config)
    ensures RunsReady(s, b, m, c) <==>
              && s.Valid() && s.window != b.lBuf && Covered(s, b, 0)
              && s.Rooted() && b.Valid() && Ruled(m, s.View(), c, b.All())
  {
    hide State.Valid, State.Rooted, Covered, Ruled;
  }

  /** All of w from a to b is the byte c. */
  ghost predicate AllAre(w: seq<byte>, a: nat, b: nat, c: byte)
  {
    a <= b <= |w| && forall k :: a <= k < b ==> w[k] == c
  }

  /** Up to eight comparisons, before the next check for the end. */
  method RunRound(window: array<byte>, scan: nat, c: byte, len0: nat) returns (len: nat, same: bool)
    requires AllAre(window[..], scan, scan + len0 + 1, c) && scan + len0 + 8 < window.Length
    ensures len0 < len <= len0 + 8 && (same ==> len == len0 + 8)
    ensures AllAre(window[..], scan, scan + len + (if same then 1 else 0), c) && (!same ==> window[scan + len] != c)
  {
    len, same := len0, true;
    while same && len < len0 + 8
      invariant len0 <= len <= len0 + 8 && (len == len0 ==> same) && (!same ==> window[scan + len] != c)
      invariant AllAre(window[..], scan, scan + len + (if same then 1 else 0), c)
      decreases same, len0 + 8 - len
    {
      len := len + 1;
      same := window[scan + len] == c;
    }
  }

  /** How often the byte before scan repeats, up to MAX_MATCH; 0 if fewer than three times. */
  method RunLength(window: array<byte>, scan: nat) returns (len: nat)
    requires 1 <= scan && scan + MAX_MATCH < window.Length
    ensures len == 0 || 3 <= len <= MAX_MATCH
    ensures len > 0 ==> AllAre(window[..], scan - 1, scan + len, window[scan - 1])
    ensures 0 < len < MAX_MATCH ==> window[scan + len] != window[scan - 1]
    ensures len == 0 ==> !AllAre(window[..], scan - 1, scan + 3, window[scan - 1])
  {
    var c := window[scan - 1];
    len := 0;
    if c == window[scan] && c == window[scan + 1] && c == window[scan + 2] {
      len := 2;
      var same := true;
      while same && len < MAX_MATCH
        invariant 2 <= len <= MAX_MATCH && (same ==> len % 8 == 2) && (!same ==> 3 <= len && window[scan + len] != c)
        invariant AllAre(window[..], scan, scan + len + (if same then 1 else 0), c)
        decreases same, MAX_MATCH - len
      {
        hide AllAre;
        len, same := RunRound(window, scan, c, len);
      }
    }
  }

  /** A run is a match of distance one. */
  lemma RunMatch(s: State, run: nat, len: nat)
    requires s.Valid() && 1 <= s.strstart && len <= run && len <= s.lookahead && s.strstart + run <= s.window.Length
    requires AllAre(s.window[..], s.strstart - 1, s.strstart + run, s.window[s.strstart - 1])
    ensures MatchAt(s.data, s.base + s.strstart, 1, len)
  {
    s.Sizes();
    hide State.Valid, State.Holds, Pow2;
    var n := s.base + s.strstart;
    forall k | n <= k < n + len ensures s.data[k] == s.data[k - 1] {
      s.At(k - s.base);
      s.At(k - s.base - 1);
      assert s.window[..][k - s.base] == s.window[..][k - s.base - 1];
    }
  }

  method Advance(s: State, n: nat)
    requires s.Valid() && n <= s.lookahead
    modifies s`strstart, s`lookahead
    ensures s.Valid() && s.strstart == old(s.strstart) + n && s.lookahead == old(s.lookahead) - n
  {
    hide State.Holds;
    s.strstart := s.strstart + n;
    s.lookahead := s.lookahead - n;
  }

  /** Record a literal and move on. */
  method LiteralStep(s: State, b: Buffer, m: Method, c: Config) returns (full: bool)
    requires RunsReady(s, b, m, c) && s.lookahead >= 1
    requires Rule(m, s.View(), c, Literal(s.data[s.base + s.strstart]), s.base + s.strstart)
    modifies s`strstart, s`lookahead, b`lastLit, b`lFreq, b`dFreq, b.dBuf, b.lBuf
    ensures s.Valid() && b.Valid() && (full <==> b.lastLit == b.lBuf.Length - 1) && s.blockStart <= s.strstart
    ensures Covers(b.All(), s.data, s.base + s.strstart, s.MaxDist())
    ensures Covers(b.flushed, s.data, s.base + s.blockStart, s.MaxDist())
    ensures s.strstart == old(s.strstart) + 1 && b.lastLit == old(b.lastLit) + 1
    ensures s.Rooted() && Ruled(m, s.View(), c, b.All())
  {
    hide *;
    RunsParts(s, b, m, c);
    s.Sizes();
    CoveredParts(s, b, 0);
    CoversLength(b.All(), s.data, s.base + s.strstart, s.MaxDist());
    RuledNext(m, s.View(), c, b.All(), Literal(s.data[s.base + s.strstart]));
    full := EmitLiteral(s, b, s.strstart);
    Advance(s, 1);
    s.RootedOn();
  }

  /** Record a run and move past it. */
  method RunStep(s: State, b: Buffer, c: Config, len: nat) returns (full: bool)
    requires RunsReady(s, b, RLE, c) && 3 <= len <= 258 && MatchAt(s.data, s.base + s.strstart, 1, len)
    requires Rule(RLE, s.View(), c, Match(len, 1), s.base + s.strstart)
    modifies s`strstart, s`lookahead, b`lastLit, b`lFreq, b`dFreq, b.dBuf, b.lBuf
    ensures s.Valid() && b.Valid() && (full <==> b.lastLit == b.lBuf.Length - 1) && s.blockStart <= s.strstart
    ensures Covers(b.All(), s.data, s.base + s.strstart, s.MaxDist())
    ensures Covers(b.flushed, s.data, s.base + s.blockStart, s.MaxDist())
    ensures s.strstart == old(s.strstart) + len && b.lastLit == old(b.lastLit) + 1
    ensures s.Rooted() && Ruled(RLE, s.View(), c, b.All())
  {
    hide *;
    RunsParts(s, b, RLE, c);
    s.Sizes();
    CoveredParts(s, b, 0);
    MatchDistance(s.data, s.base + s.strstart, 1, len);
    s.MaxDistIs();
    CoversLength(b.All(), s.data, s.base + s.strstart, s.MaxDist());
    RuledNext(RLE, s.View(), c, b.All(), Match(len, 1));
    full := EmitMatch(s, b, 1, len, s.base + s.strstart);
    Advance(s, len);
    s.RootedOn();
  }

  /** A run in the data is one in the window. */
  lemma RepeatsInWindow(s: State, k: nat)
    requires s.Valid() && 1 <= s.strstart <= s.window.Length
    ensures Repeats(s.data, s.base + s.strstart, k) ==>
              s.strstart + k <= s.window.Length
              && AllAre(s.window[..], s.strstart - 1, s.strstart + k, s.window[s.strstart - 1])
  {
    if Repeats(s.data, s.base + s.strstart, k) {
      s.Sizes();
      hide State.Valid, State.Holds, Pow2;
      var x := s.base + s.strstart;
      s.At(s.strstart - 1);
      forall i | s.strstart <= i < s.strstart + k ensures s.window[..][i] == s.window[s.strstart - 1] {
        s.At(i);
        assert s.data[s.base + i] == s.data[x - 1];
      }
    }
  }

  /** At the start of the window there is nothing before to repeat. */
  lemma FirstForgotten(s: State)
    requires s.Rooted() && s.Shape() && s.strstart == 0
    ensures s.base in s.forgotten
  {
  }

  lemma CutShort(s: State, x: nat)
    requires Bounded(s.View(), x) && x + 3 > |s.data|
    ensures !Known(s.ends, x, 3)
  {
  }

  /** The run at the current position, no longer than the lookahead: none of three bytes is missed, and none is
      left too short. */
  method FindRun(s: State, c: Config) returns (len: nat)
    requires s.Valid() && s.strstart + 258 < 2 * s.wsize && s.lookahead >= 1
    requires s.Rooted() && Bounded(s.View(), s.base + s.strstart)
    ensures len <= 258 && (len >= 3 ==> MatchAt(s.data, s.base + s.strstart, 1, len))
    ensures Rule(RLE, s.View(), c, if len >= 3 then Match(len, 1) else Literal(s.data[s.base + s.strstart]),
                 s.base + s.strstart)
  {
    hide *;
    s.Sizes();
    s.MaxDistIs();
    MaxMatch();
    ghost var x := s.base + s.strstart;
    len := 0;
    if s.lookahead >= 3 && s.strstart > 0 {
      var run := RunLength(s.window, s.strstart);
      len := if run > s.lookahead then s.lookahead else run;
      if len >= 3 { RunMatch(s, run, len); }
      FoundRun(s, c, run, len);
    } else if s.lookahead >= 3 {
      FirstForgotten(s);
      NoRunRule(s, c, x);
    } else {
      CutShort(s, x);
      NoRunRule(s, c, x);
    }
  }

  lemma NoRunRule(s: State, c: Config, x: nat)
    requires x < |s.data| && Bounded(s.View(), x) && (x in s.forgotten || !Known(s.ends, x, 3))
    ensures Rule(RLE, s.View(), c, Literal(s.data[x]), x)
  {
    hide Bounded, Known, Repeats;
  }

  lemma FoundRun(s: State, c: Config, run: nat, len: nat)
    requires s.Valid() && 1 <= s.strstart && s.strstart + 258 < s.window.Length && s.lookahead >= 3
    requires Bounded(s.View(), s.base + s.strstart) && (run == 0 || 3 <= run <= 258)
    requires len == if run > s.lookahead then s.lookahead else run
    requires 0 < run < 258 ==> s.window[s.strstart + run] != s.window[s.strstart - 1]
    requires run == 0 ==> !AllAre(s.window[..], s.strstart - 1, s.strstart + 3, s.window[s.strstart - 1])
    ensures s.base + s.strstart < |s.data|
    ensures Rule(RLE, s.View(), c, if len >= 3 then Match(len, 1) else Literal(s.data[s.base + s.strstart]),
                 s.base + s.strstart)
  {
    hide *;
    s.Sizes();
    s.ViewIs();
    var x := s.base + s.strstart;
    var k := if len >= 3 then len + 1 else 3;
    RepeatsInWindow(s, k);
    RepeatsFits(s.data, x, k);
    if 3 <= len < 258 && len < s.lookahead { RunBreaks(s.window[..], s.strstart - 1, s.strstart + len); }
    RleRuleIf(s.View(), c, x, len);
  }

  lemma RepeatsFits(data: seq<byte>, x: nat, k: nat)
    ensures Repeats(data, x, k) ==> x + k <= |data|
  {
  }

  /** A byte that differs is not in a run. */
  lemma RunBreaks(w: seq<byte>, a: nat, b: nat)
    requires a < b < |w| && w[b] != w[a]
    ensures !AllAre(w, a, b + 1, w[a])
  {
  }

  lemma RleRuleIf(v: View, c: Config, x: nat, len: nat)
    requires x < |v.data| && Bounded(v, x) && len <= 258
    requires len != 258 ==> !Repeats(v.data, x, if len >= 3 then len + 1 else 3)
    ensures Rule(RLE, v, c, if len >= 3 then Match(len, 1) else Literal(v.data[x]), x)
  {
    hide Bounded, Known, Repeats;
  }

  /** One step of deflate_rle. */
  method RleStep(s: State, b: Buffer, c: Config) returns (stop: bool)
    requires RunsReady(s, b, RLE, c) && s.lookahead >= 1 && s.strstart + 258 < 2 * s.wsize && s.space > 0
    requires Bounded(s.View(), s.base + s.strstart)
    modifies s`strstart, s`lookahead, s`matchLength, s`blockStart, s`space, b`lastLit, b`lFreq, b`dFreq, b`flushed,
             b.dBuf, b.lBuf
    ensures RunsReady(s, b, RLE, c) && s.strstart > old(s.strstart)
    ensures (stop <==> s.space == 0) && Credit(s, b) >= old(Credit(s, b)) - 1
  {
    hide *;
    RunsParts(s, b, RLE, c);
    s.Sizes();
    CoveredParts(s, b, 0);
    CreditIs(s, b);
    var len := FindRun(s, c);
    s.matchLength := 0;
    RunsParts(s, b, RLE, c);
    var full;
    if len >= 3 {
      full := RunStep(s, b, c, len);
    } else {
      full := LiteralStep(s, b, RLE, c);
    }
    CreditIs(s, b);
    stop := FlushFull(s, b, full);
    CoveredParts(s, b, 0);
    RunsParts(s, b, RLE, c);
  }

  lemma LiteralRule(v: View, c: Config, x: nat, a: byte)
    ensures Rule(HUFFMAN_ONLY, v, c, Literal(a), x)
  {
  }

  /** One step of deflate_huff. */
  method HuffStep(s: State, b: Buffer, c: Config) returns (stop: bool)
    requires RunsReady(s, b, HUFFMAN_ONLY, c) && s.lookahead >= 1 && s.space > 0
    modifies s`strstart, s`lookahead, s`matchLength, s`blockStart, s`space, b`lastLit, b`lFreq, b`dFreq, b`flushed,
             b.dBuf, b.lBuf
    ensures RunsReady(s, b, HUFFMAN_ONLY, c) && s.strstart > old(s.strstart)
    ensures (stop <==> s.space == 0) && Credit(s, b) >= old(Credit(s, b)) - 1
  {
    hide *;
    RunsParts(s, b, HUFFMAN_ONLY, c);
    s.Sizes();
    CoveredParts(s, b, 0);
    CreditIs(s, b);
    s.matchLength := 0;
    RunsParts(s, b, HUFFMAN_ONLY, c);
    LiteralRule(s.View(), c, s.base + s.strstart, s.data[s.base + s.strstart]);
    var full := LiteralStep(s, b, HUFFMAN_ONLY, c);
    CreditIs(s, b);
    stop := FlushFull(s, b, full);
    CoveredParts(s, b, 0);
    RunsParts(s, b, HUFFMAN_ONLY, c);
  }

  /** Refill when the lookahead is at or below a threshold, and find out whether to go on. */
  method MoreInput(s: State, b: Buffer, m: Method, c: Config, low: nat, flush: FlushMode, ghost all: seq<byte>,
                   ghost data: seq<byte>)
    returns (going: bool)
    requires RunsReady(s, b, m, c) && Continues(s, all, data) && low <= 258 && (flush != NO_FLUSH ==> |all| in s.ends)
    modifies s`nextIn, s`strstart, s`lookahead, s`insH, s`insert, s`blockStart, s`highWater, s`matchStart,
             s`data, s`base, s`ins, s`top, s.window, s.head, s.prev
    ensures RunsReady(s, b, m, c) && Continues(s, all, data) && s.base + s.strstart == old(s.base + s.strstart) <= |all|
    ensures going ==> s.lookahead >= 1
    ensures going && low == 258 ==> s.strstart + 258 < 2 * s.wsize && Bounded(s.View(), s.base + s.strstart)
    ensures !going && flush != NO_FLUSH ==> s.lookahead == 0 && s.nextIn == []
    ensures !going && flush == NO_FLUSH ==> s.lookahead <= low && s.nextIn == []
  {
    hide *;
    RunsParts(s, b, m, c);
    s.Sizes();
    going := true;
    if s.lookahead <= low {
      ghost var v, t := s.View(), s.top;
      Refill(s, b, 0, all, data);
      s.Sizes();
      RuledKept(m, v, s.View(), t, c, b.All());
      going := s.lookahead > low || (flush != NO_FLUSH && s.lookahead != 0);
    }
    ContinuesFrom(s, all, data);
    RunsParts(s, b, m, c);
    if going && low == 258 { NowBounded(s, s.base + s.strstart); }
  }

  lemma NowBounded(s: State, n: nat)
    requires n < |s.data| && (n + 259 <= |s.data| || |s.data| in s.ends)
    ensures Bounded(s.View(), n)
  {
  }

  method EndRuns(s: State, b: Buffer, m: Method, c: Config, flush: FlushMode) returns (bs: BlockState)
    requires RunsReady(s, b, m, c) && s.lookahead == 0 && s.nextIn == [] && s.space > 0
    modifies s`insert, s`blockStart, s`space, b`lastLit, b`lFreq, b`dFreq, b`flushed
    ensures RunsReady(s, b, m, c) && AllWritten(s, b)
    ensures bs == Ended(flush, s.space) && (old(Credit(s, b)) >= b.lBuf.Length ==> s.space > 0)
  {
    hide *;
    RunsParts(s, b, m, c);
    CoveredParts(s, b, 0);
    CreditIs(s, b);
    ClearInsert(s);
    bs := EndCall(s, b, flush);
    CoveredParts(s, b, 0);
    RunsParts(s, b, m, c);
  }

  method ClearInsert(s: State)
    requires s.Valid()
    modifies s`insert
    ensures s.Valid()
  {
    hide State.Holds;
    s.insert := 0;
  }

  /** How much lookahead each method wants, less one. */
  function Low(runs: bool): nat
  {
    if runs then 258 else 0
  }

  lemma KindIs()
    ensures Kind(true) == RLE && Kind(false) == HUFFMAN_ONLY && Low(true) == 258 && Low(false) == 0
  {
  }

  /** deflate_rle (runs) or deflate_huff. Input, once taken, is covered by the tokens, and they obey their rules. A
      call goes on until the output space runs out, or until there is too little input to go on without a flush;
      with a flush it writes everything. */
  method Runs(s: State, b: Buffer, runs: bool, c: Config, flush: FlushMode, ghost all: seq<byte>,
              ghost data: seq<byte>)
    returns (bs: BlockState)
    requires RunsReady(s, b, Kind(runs), c) && Continues(s, all, data)
    requires s.space > 0 && (flush != NO_FLUSH ==> |all| in s.ends)
    modifies s, b, s.window, s.head, s.prev, b.dBuf, b.lBuf
    ensures RunsReady(s, b, Kind(runs), c) && Continues(s, all, data) && Same(s, old(s.ends), old(s.forgotten))
    ensures bs == NEED_MORE ==> s.space == 0 || (flush == NO_FLUSH && s.nextIn == [] && s.lookahead <= Low(runs))
    ensures bs != NEED_MORE ==> AllWritten(s, b) && bs == Ended(flush, s.space)
    ensures old(Enough(s, b)) ==> s.space > 0
    ensures flush == NO_FLUSH ==> bs == NEED_MORE
  {
    hide *;
    KindIs();
    bs := NEED_MORE;
    var going, ending := true, false;
    var m, low := Kind(runs), Low(runs);
    RunsParts(s, b, m, c);
    s.Sizes();
    CoveredParts(s, b, 0);
    ContinuesFrom(s, all, data);
    EnoughIs(s, b, all);
    ghost var sum, ends, forgotten := Credit(s, b) + s.base + s.strstart, s.ends, s.forgotten;
    while going
      invariant RunsReady(s, b, m, c) && Continues(s, all, data) && s.ends == ends && s.forgotten == forgotten
      invariant ending ==> !going && s.lookahead == 0 && s.nextIn == [] && flush != NO_FLUSH && s.space > 0
      invariant going ==> s.space > 0
      invariant !going && !ending ==> s.space == 0 || (flush == NO_FLUSH && s.nextIn == [] && s.lookahead <= low)
      invariant Credit(s, b) + s.base + s.strstart >= sum
      decreases going, |all| - (s.base + s.strstart)
    {
      going := MoreInput(s, b, m, c, low, flush, all, data);
      ending := !going && flush != NO_FLUSH;
      if going {
        var stop;
        if runs {
          stop := RleStep(s, b, c);
        } else {
          stop := HuffStep(s, b, c);
        }
        going := !stop;
      }
    }
    RunsParts(s, b, m, c);
    s.Sizes();
    ContinuesFrom(s, all, data);
    CreditIs(s, b);
    if ending { bs := EndRuns(s, b, m, c, flush); }
    SameIs(s, ends, forgotten);
    EndedIs(flush, s.space);
  }
}
