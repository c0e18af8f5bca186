/** Whole runs of the compressor: any number of calls, with the input cut in any way, any flush modes, and
    output space running out at any point. */
module Deflate {
  import opened Common
  import opened Bits
  import opened Lz77
  import opened HashChain
  import opened TokenRules
  import opened DeflateState
  import opened TokenBuffer
  import opened DeflateBlock
  import opened DeflateFast
  import opened DeflateSlow
  import opened DeflateRuns

  /** One call: more input, a flush mode, and for how many blocks there is output space; none if what earlier calls
      left to write fills it. */
  datatype Call = Call(input: seq<byte>, flush: FlushMode, space: nat)

  ghost predicate Ready(s: State, b: Buffer, m: Method, c: Config)
    reads s, b, s.window, s.head, s.prev, b.dBuf, b.lBuf
  {
    match m
    case FAST => FastReady(s, b, c)
    case SLOW => SlowReady(s, b, c)
    case RLE => RunsReady(s, b, RLE, c)
    case HUFFMAN_ONLY => RunsReady(s, b, HUFFMAN_ONLY, c)
  }

  method Compress(s: State, b: Buffer, m: Method, c: Config, flush: FlushMode, ghost all: seq<byte>,
                  ghost data: seq<byte>)
    returns (bs: BlockState)
    requires Ready(s, b, m, c) && Continues(s, all, data) && c.chain < 0x1_0000_0000
    requires s.space > 0 && (flush != NO_FLUSH ==> |all| in s.ends)
    modifies s, b, s.window, s.head, s.prev, b.dBuf, b.lBuf
    ensures Ready(s, b, m, c) && Continues(s, all, data) && Same(s, old(s.ends), old(s.forgotten))
    ensures bs == NEED_MORE ==> s.space == 0 || (flush == NO_FLUSH && s.nextIn == [] && s.lookahead < 262)
    ensures bs != NEED_MORE ==> AllWritten(s, b) && (m == SLOW ==> !s.matchAvailable) && bs == Ended(flush, s.space)
    ensures old(Enough(s, b)) ==> s.space > 0
    ensures flush == NO_FLUSH ==> bs == NEED_MORE
  {
    hide FastReady, SlowReady, RunsReady, Continues, AllWritten, Enough, Same, Ended;
    match m
    case FAST => bs := Fast(s, b, c, flush, all, data);
    case SLOW => bs := Slow(s, b, c, flush, all, data);
    case RLE => bs := Runs(s, b, true, c, flush, all, data);
    case HUFFMAN_ONLY => bs := Runs(s, b, false, c, flush, all, data);
  }

  // ---------------------------------------------------------------- between calls

  /** What a method needs of the state apart from the rules for tokens. */
  ghost predicate Sound(s: State, b: Buffer, m: Method)
    reads s`data, s`base, s`ins, s`top, s`strstart, s`lookahead, s`insert, s`insH, s`blockStart, s`prevLength,
          s`matchLength, s`matchStart, s`matchAvailable, s`floor, s`forgotten, s.window, s.head, s.prev,
          b`lastLit, b`lFreq, b`dFreq, b`flushed, b.dBuf, b.lBuf
  {
    && s.Valid() && s.window != b.lBuf && s.Rooted() && b.Valid()
    && Covered(s, b, if m == SLOW then Held(s) else 0) && (m == FAST || m == SLOW ==> s.HashReady())
    && (m == FAST ==> s.prevLength == 2 && s.matchLength < 3) && (m == SLOW ==> Lazy(s))
  }

  /** The rules for tokens, with a view of the data: tokens up to pos, and a byte held back or not. */
  ghost predicate Obeyed(v: View, m: Method, c: Config, ts: seq<Token>, pos: int, held: bool, len: nat)
  {
    && Ruled(m, v, c, ts)
    && (m == SLOW ==>
          && (forall p: nat :: p < pos ==> Placed(v, p))
          && (held ==> 1 <= pos && Sought(v, c, pos - 1, len)))
  }

  lemma ReadyIs(s: State, b: Buffer, m: Method, c: Config)
    ensures Ready(s, b, m, c) <==>
              && Sound(s, b, m)
              && Obeyed(s.View(), m, c, b.All(), s.base + s.strstart, s.matchAvailable, s.matchLength)
  {
    hide State.Valid, State.HashReady, State.Rooted, Covered, Lazy, Ruled, Placed, Sought;
  }

  lemma ObeyedOn(v: View, v': View, top: nat, m: Method, c: Config, ts: seq<Token>, pos: int, held: bool, len: nat)
    requires Obeyed(v, m, c, ts, pos, held, len) && Grows(v, v', top) && (held ==> 1 <= pos)
    ensures Obeyed(v', m, c, ts, pos, held, len)
  {
    hide Ruled, Placed, Sought, Grows;
    RuledKept(m, v, v', top, c, ts);
    if m == SLOW {
      if 0 <= pos { PlacedKept(v, v', top, pos); }
      if held { SoughtKept(v, v', top, c, pos - 1, len); }
    }
  }

  /** CLEAR_HASH. */
  method ClearHash(head: array<nat>)
    modifies head
    ensures forall i :: 0 <= i < head.Length ==> head[i] == 0
  {
    for i := 0 to head.Length
      invariant forall j :: 0 <= j < i ==> head[j] == 0
    {
      head[i] := 0;
    }
  }

  /** What a full flush does once everything is written: forget the history. */
  method Forget(s: State)
    requires s.Valid() && s.lookahead == 0
    modifies s`strstart, s`blockStart, s`insert, s`base, s`floor, s`forgotten, s.head
    ensures s.Valid() && s.strstart == 0 && s.blockStart == 0 && s.base == |s.data|
    ensures s.HashReady() && s.Rooted() && s.forgotten == old(s.forgotten) + {|s.data|}
    ensures Grows(old(s.View()), s.View(), s.top)
  {
    hide Pow2, Chains, HashAt;
    s.Sizes();
    ForgetChains(s);
    ClearHash(s.head);
    s.strstart, s.blockStart, s.insert := 0, 0, 0;
    s.base, s.floor, s.forgotten := |s.data|, |s.data|, s.forgotten + {|s.data|};
    ClearChains(s.head[..], s.prev[..], s.data, s.base, s.ins, s.top, s.bits);
    assert s.window[..0] == s.data[|s.data|..];
  }

  lemma ForgetChains(s: State)
    requires s.Holds()
    ensures forall p :: p in s.ins ==> p < s.top && p + 3 <= |s.data|
    ensures |s.head[..]| == Pow2(s.bits) && 0 < |s.prev[..]|
  {
    hide HashAt, Pow2;
  }

  lemma ReadyParts(s: State, b: Buffer, m: Method)
    requires Sound(s, b, m) && AllWritten(s, b) && (m == SLOW ==> !s.matchAvailable)
    ensures s.Valid() && s.lookahead == 0 && s.window != b.lBuf && b.Valid() && b.lastLit + 1 < b.lBuf.Length
    ensures b.All() == b.flushed && Covers(b.flushed, s.data, |s.data|, s.MaxDist())
    ensures m == FAST ==> s.prevLength == 2 && s.matchLength < 3
    ensures m == SLOW ==> s.matchLength == 2
    ensures s.base + s.strstart == |s.data|
  {
    hide State.HashReady, State.Rooted, State.Holds, Covers;
    NothingPending(b);
  }

  lemma SoundAgain(s: State, b: Buffer, m: Method)
    requires s.Valid() && s.HashReady() && s.strstart == 0 && s.blockStart == 0 && s.base == |s.data|
    requires s.window != b.lBuf && s.Rooted()
    requires b.Valid() && b.lastLit + 1 < b.lBuf.Length && b.All() == b.flushed
    requires Covers(b.flushed, s.data, |s.data|, s.MaxDist())
    requires m == FAST ==> s.prevLength == 2 && s.matchLength < 3
    requires m == SLOW ==> s.matchLength == 2 && !s.matchAvailable
    ensures Sound(s, b, m)
  {
    hide State.Valid, State.HashReady, State.Rooted, Covers;
  }

  method FullFlush(s: State, b: Buffer, m: Method, c: Config)
    requires Ready(s, b, m, c) && AllWritten(s, b) && (m == SLOW ==> !s.matchAvailable)
    modifies s`strstart, s`blockStart, s`insert, s`base, s`floor, s`forgotten, s.head
    ensures Ready(s, b, m, c) && AllWritten(s, b) && s.forgotten == old(s.forgotten) + {|s.data|}
    ensures s.base + s.strstart == |s.data|
  {
    hide *;
    ReadyIs(s, b, m, c);
    ReadyParts(s, b, m);
    ghost var v, pos := s.View(), s.base + s.strstart;
    HeldSound(s, b, m);
    Forget(s);
    SoundAgain(s, b, m);
    if m == SLOW {
      ObeyedOn(v, s.View(), s.top, m, c, b.All(), pos, s.matchAvailable, s.matchLength);
    } else {
      ObeyedFree(v, s.View(), s.top, m, c, b.All(), pos, s.matchAvailable, s.matchLength);
    }
    ReadyIs(s, b, m, c);
  }

  lemma HeldSound(s: State, b: Buffer, m: Method)
    requires Sound(s, b, m)
    ensures m == SLOW && s.matchAvailable ==> 1 <= s.base + s.strstart
  {
    hide State.Valid, State.HashReady, State.Rooted, Covered;
  }

  /** Without lazy matching only the tokens matter. */
  lemma ObeyedFree(v: View, v': View, top: nat, m: Method, c: Config, ts: seq<Token>, pos: int, held: bool, len: nat)
    requires Obeyed(v, m, c, ts, pos, held, len) && Grows(v, v', top) && m != SLOW
    ensures Obeyed(v', m, c, ts, pos, held, len)
  {
    hide Ruled, Placed, Sought, Grows;
    RuledKept(m, v, v', top, c, ts);
  }

  /** deflate() as far as compression goes, before the stream is finished. With no space it takes nothing; with enough
      of it, it takes all input, and writes everything if there is a flush. */
  method DeflateCall(s: State, b: Buffer, m: Method, c: Config, flush: FlushMode, ghost all: seq<byte>)
    returns (finished: bool)
    requires Ready(s, b, m, c) && Continues(s, all, []) && c.chain < 0x1_0000_0000
    requires s.space > 0 && flush != NO_FLUSH ==> |all| in s.ends
    modifies s, b, s.window, s.head, s.prev, b.dBuf, b.lBuf
    ensures Ready(s, b, m, c) && Continues(s, all, []) && s.ends == old(s.ends)
    ensures forall f :: f in s.forgotten ==>
                          f in old(s.forgotten) || (old(s.space) > 0 && flush == FULL_FLUSH && f == |all|)
    ensures finished ==> flush == FINISH && AllWritten(s, b)
    ensures old(s.space) == 0 ==> !finished && s.data == old(s.data) && s.nextIn == old(s.nextIn)
    ensures old(Enough(s, b)) ==>
              && s.nextIn == [] && (flush == FINISH ==> finished)
              && (flush != NO_FLUSH ==> AllWritten(s, b) && (m == SLOW ==> !s.matchAvailable))
  {
    hide *;
    finished := false;
    EnoughSpace(s, b, m, c);
    if s.space != 0 && (s.nextIn != [] || s.lookahead != 0 || flush != NO_FLUSH) {
      ghost var ends, forgotten := s.ends, s.forgotten;
      var bs := Compress(s, b, m, c, flush, all, []);
      SameIs(s, ends, forgotten);
      EndedIs(flush, s.space);
      finished := bs == FINISH_STARTED || bs == FINISH_DONE;
      AllIs(s, b, all);
      if bs == BLOCK_DONE && flush == FULL_FLUSH {
        FullFlush(s, b, m, c);
      }
    }
  }

  lemma EnoughSpace(s: State, b: Buffer, m: Method, c: Config)
    requires Ready(s, b, m, c)
    ensures Enough(s, b) ==> s.space > 0
  {
    hide *;
    ReadyIs(s, b, m, c);
    SoundSize(s, b, m);
    CreditIs(s, b);
    EnoughIs(s, b, s.data + s.nextIn);
  }

  lemma SoundSize(s: State, b: Buffer, m: Method)
    requires Sound(s, b, m)
    ensures 2 <= b.lBuf.Length && b.lastLit + 1 < b.lBuf.Length && s.base + s.strstart <= |s.data|
  {
    hide State.HashReady, State.Rooted, State.Holds, Covers, Lazy;
  }

  lemma AllIs(s: State, b: Buffer, all: seq<byte>)
    requires Continues(s, all, [])
    ensures AllWritten(s, b) ==> |s.data| == |all| && s.nextIn == []
  {
  }

  function Inputs(calls: seq<Call>): (r: seq<seq<byte>>)
    ensures |r| == |calls|
  {
    seq(|calls|, i requires 0 <= i < |calls| => calls[i].input)
  }

  /** The caller hands over more input, after what was not taken before, and output space. */
  method Supply(s: State, b: Buffer, m: Method, c: Config, call: Call, ghost all: seq<byte>)
    requires Ready(s, b, m, c) && Continues(s, all, [])
    modifies s`nextIn, s`space, s`ends
    ensures Ready(s, b, m, c) && Continues(s, all + call.input, []) && s.space == call.space
    ensures s.ends == old(s.ends) + if call.space > 0 && call.flush != NO_FLUSH then {|all| + |call.input|} else {}
  {
    hide *;
    ReadyIs(s, b, m, c);
    HeldSound(s, b, m);
    s.ViewIs();
    ContinuesFrom(s, all, []);
    ghost var v, ends, before := s.View(), s.ends, s.nextIn;
    s.nextIn := s.nextIn + call.input;
    s.space := call.space;
    s.ends := s.ends + if call.space > 0 && call.flush != NO_FLUSH then {|all| + |call.input|} else {};
    s.ViewIs();
    SoundHolds(s, b, m);
    EndsGrow(s, v, ends);
    if m == SLOW {
      ObeyedOn(v, s.View(), s.top, m, c, b.All(), s.base + s.strstart, s.matchAvailable, s.matchLength);
    } else {
      ObeyedFree(v, s.View(), s.top, m, c, b.All(), s.base + s.strstart, s.matchAvailable, s.matchLength);
    }
    ReadyIs(s, b, m, c);
    MoreContinues(s, before, all, call.input);
  }

  lemma SoundHolds(s: State, b: Buffer, m: Method)
    requires Sound(s, b, m)
    ensures s.Holds() && b.Valid()
  {
    hide State.HashReady, State.Rooted, State.Holds, Covers, Lazy;
  }

  lemma EndsGrow(s: State, v: View, ends: set<nat>)
    requires s.Holds() && v == View(s.data, s.ins, ends, s.forgotten, s.bits, s.MaxDist()) && ends <= s.ends
    ensures Grows(v, s.View(), s.top)
  {
    s.ViewGrows([]);
    s.ViewIs();
    hide HashAt, Pow2, Chains;
  }

  lemma MoreContinues(s: State, before: seq<byte>, all: seq<byte>, more: seq<byte>)
    requires s.nextIn == before + more && s.data + before == all
    ensures Continues(s, all + more, [])
  {
    assert s.data + (before + more) == s.data + before + more;
  }

  lemma StartReady(s: State, b: Buffer, m: Method, c: Config)
    requires s.Valid() && s.HashReady() && s.window != b.lBuf && b.Valid() && b.lastLit + 1 < b.lBuf.Length
    requires s.data == [] && s.nextIn == [] && s.base == 0 && s.strstart == 0 && s.blockStart == 0 && s.Rooted()
    requires s.matchLength == 2 && s.prevLength == 2 && !s.matchAvailable && b.flushed == [] && b.All() == []
    ensures Ready(s, b, m, c) && Continues(s, [], [])
  {
    hide State.Valid, State.HashReady, State.Rooted;
    CoversNone(s.data, s.MaxDist());
  }

  /** How far the tokens reach: up to the current position, less the byte held back. */
  lemma ReadyCovers(s: State, b: Buffer, m: Method, c: Config, all: seq<byte>) returns (n: nat)
    requires Ready(s, b, m, c) && Continues(s, all, [])
    ensures b.Valid() && Covers(b.All(), all, n, s.MaxDist()) && s.Valid()
    ensures n == s.base + s.strstart - (if m == SLOW && s.matchAvailable then 1 else 0)
  {
    hide State.Valid, State.HashReady, State.Rooted, Covers, Ruled, Indexed, Chosen;
    ReadyIs(s, b, m, c);
    n := s.base + s.strstart - (if m == SLOW && s.matchAvailable then 1 else 0);
    CoversMore(b.All(), s.data, all, n, s.MaxDist());
  }

  // ---------------------------------------------------------------- runs

  /** The input ended at e with call j, which had a flush and space to do something. */
  predicate EndOf(calls: seq<Call>, j: nat, e: nat)
  {
    j < |calls| && calls[j].flush != NO_FLUSH && calls[j].space > 0 && e == |Concat(Inputs(calls)[..j + 1])|
  }

  /** Where flushes ended the input, among the first k calls, and where full flushes did. */
  ghost predicate EndsOf(calls: seq<Call>, k: nat, ends: set<nat>, forgotten: set<nat>)
  {
    && (forall e :: e in ends ==> exists j :: 0 <= j < k && EndOf(calls, j, e))
    && (forall f :: f in forgotten ==> f == 0 || exists j :: 0 <= j < k && EndOf(calls, j, f)
                                                             && calls[j].flush == FULL_FLUSH)
  }

  lemma EndsNext(calls: seq<Call>, k: nat, ends: set<nat>, forgotten: set<nat>, ends': set<nat>, forgotten': set<nat>)
    requires EndsOf(calls, k, ends, forgotten) && k < |calls|
    requires forall e :: e in ends' ==> e in ends || EndOf(calls, k, e)
    requires forall f :: f in forgotten' ==> f in forgotten || (calls[k].flush == FULL_FLUSH && EndOf(calls, k, f))
    ensures EndsOf(calls, k + 1, ends', forgotten')
  {
    hide EndOf;
  }

  /** The space of call j is enough for everything up to then, in blocks of at most size less one tokens. */
  predicate Spacious(calls: seq<Call>, j: nat, size: nat)
  {
    j < |calls| && calls[j].space * (size - 1) > |Concat(Inputs(calls)[..j + 1])| + 2 * size
  }

  /** A run of calls, up to the one that finishes the stream. The tokens recorded expand to exactly the input
      consumed, but for the byte that lazy matching may hold back, and they obey the rules of their method. A call
      with enough space takes all input, and with a flush has tokens for all of it; FINISH finishes the stream. */
  method Run(calls: seq<Call>, m: Method, c: Config, windowBits: nat, memLevel: nat)
    returns (k: nat, finished: bool, s: State, ghost ts: seq<Token>, ghost n: nat)
    requires 8 <= windowBits <= 15 && 1 <= memLevel <= 9 && c.chain < 0x1_0000_0000
    ensures k <= |calls| && (!finished ==> k == |calls|)
    ensures n == s.base + s.strstart - (if m == SLOW && s.matchAvailable then 1 else 0)
    ensures s.data + s.nextIn == Concat(Inputs(calls)[..k]) && |s.data| == s.base + s.strstart + s.lookahead
    ensures n <= |Concat(Inputs(calls)[..k])| && Expand([], ts) == Some(Concat(Inputs(calls)[..k])[..n])
    ensures Within(ts, s.wsize - 262) && s.wsize == Pow2(if windowBits == 8 then 9 else windowBits)
    ensures finished ==> n == |Concat(Inputs(calls)[..k])| && k > 0 && calls[k - 1].flush == FINISH
    ensures Ruled(m, View(s.data, s.ins, s.ends, s.forgotten, memLevel + 7, s.wsize - 262), c, ts)
    ensures EndsOf(calls, k, s.ends, s.forgotten)
    ensures m == SLOW ==> forall p: nat :: p <= n - 1 ==> p in s.ins || NearEnd(s.ends, p)
    ensures forall j :: 0 <= j < k && calls[j].flush == FINISH && Spacious(calls, j, LitBufsize(memLevel)) ==>
                          finished && j == k - 1
    ensures k > 0 && Spacious(calls, k - 1, LitBufsize(memLevel)) ==>
              s.nextIn == [] && (calls[k - 1].flush != NO_FLUSH ==> n == |Concat(Inputs(calls)[..k])|)
  {
    hide *;
    s := new State(windowBits, memLevel);
    var size := LitBufsize(memLevel);
    var b := new Buffer(size);
    StartReady(s, b, m, c);
    k, finished := 0, false;
    ghost var all := [];
    ghost var written := false;
    ConcatNone(Inputs(calls));
    StartEnds(calls, s.ends, s.forgotten);
    while k < |calls| && !finished
      invariant k <= |calls| && Ready(s, b, m, c) && Continues(s, all, []) && all == Concat(Inputs(calls)[..k])
      invariant finished ==> AllWritten(s, b) && k > 0 && calls[k - 1].flush == FINISH
      invariant fresh(s) && fresh(b) && fresh(s.window) && fresh(s.head) && fresh(s.prev) && fresh(b.dBuf)
      invariant fresh(b.lBuf)
      invariant s.wsize == Pow2(if windowBits == 8 then 9 else windowBits) && s.bits == memLevel + 7
      invariant b.lBuf.Length == size && EndsOf(calls, k, s.ends, s.forgotten)
      invariant !finished ==> forall j :: 0 <= j < k ==> !(calls[j].flush == FINISH && Spacious(calls, j, size))
      invariant finished ==> forall j :: 0 <= j < k - 1 ==> !(calls[j].flush == FINISH && Spacious(calls, j, size))
      invariant k > 0 && Spacious(calls, k - 1, size) ==> s.nextIn == [] && (calls[k - 1].flush != NO_FLUSH ==> written)
      invariant written ==> AllWritten(s, b)
      decreases |calls| - k
    {
      ConcatNext(Inputs(calls), k);
      InputIs(calls, k);
      ghost var ends, forgotten := s.ends, s.forgotten;
      Supply(s, b, m, c, calls[k], all);
      all := all + calls[k].input;
      ReadyIs(s, b, m, c);
      SoundSize(s, b, m);
      ContinuesFrom(s, all, []);
      SpaciousEnough(s, b, calls, k, all);
      EndHere(calls, k, |all|);
      ghost var spacious := Enough(s, b);
      finished := DeflateCall(s, b, m, c, calls[k].flush, all);
      written := spacious && calls[k].flush != NO_FLUSH;
      EndsNext(calls, k, ends, forgotten, s.ends, s.forgotten);
      k := k + 1;
    }
    n := ReadyCovers(s, b, m, c, all);
    s.Sizes();
    s.MaxDistIs();
    ContinuesFrom(s, all, []);
    ts := b.All();
    CoversIs(ts, all, n, s.MaxDist());
    RulesAre(s, b, m, c, n);
    if finished || written { FinishedAll(s, b, all, n); }
  }

  lemma StartEnds(calls: seq<Call>, ends: set<nat>, forgotten: set<nat>)
    requires ends == {} && forgotten == {0}
    ensures EndsOf(calls, 0, ends, forgotten)
  {
  }

  lemma EndHere(calls: seq<Call>, k: nat, e: nat)
    requires k < |calls| && e == |Concat(Inputs(calls)[..k + 1])|
    ensures calls[k].flush != NO_FLUSH && calls[k].space > 0 ==> EndOf(calls, k, e)
  {
  }

  lemma SpaciousEnough(s: State, b: Buffer, calls: seq<Call>, k: nat, all: seq<byte>)
    requires k < |calls| && s.space == calls[k].space && all == Concat(Inputs(calls)[..k + 1])
    requires b.lastLit + 1 < b.lBuf.Length && |s.data| + |s.nextIn| == |all|
    ensures Spacious(calls, k, b.lBuf.Length) ==> Enough(s, b)
  {
    hide Concat, Inputs;
  }

  /** The rules that the tokens obey, in terms of the fields. */
  lemma RulesAre(s: State, b: Buffer, m: Method, c: Config, n: nat)
    requires Ready(s, b, m, c) && b.Valid()
    requires n == s.base + s.strstart - (if m == SLOW && s.matchAvailable then 1 else 0)
    ensures Ruled(m, View(s.data, s.ins, s.ends, s.forgotten, s.bits, s.MaxDist()), c, b.All())
    ensures m == SLOW ==> forall p: nat :: p <= n - 1 ==> p in s.ins || NearEnd(s.ends, p)
  {
    ReadyIs(s, b, m, c);
    hide Ready, Sound, Ruled, NearEnd, Sought;
    if m == SLOW {
      forall p: nat | p <= n - 1 ensures p in s.ins || NearEnd(s.ends, p) {
        assert Placed(s.View(), p);
      }
    }
  }

  function LitBufsize(memLevel: nat): (r: nat)
    ensures 2 <= r
  {
    assert Pow2(memLevel + 6) == 2 * Pow2(memLevel + 5);
    Pow2(memLevel + 6)
  }

  lemma InputIs(calls: seq<Call>, k: nat)
    requires k < |calls|
    ensures Inputs(calls)[k] == calls[k].input
  {
  }

  lemma CoversIs(ts: seq<Token>, data: seq<byte>, n: nat, far: int)
    requires Covers(ts, data, n, far)
    ensures n <= |data| && Expand([], ts) == Some(data[..n]) && Within(ts, far)
  {
  }

  lemma AllWrittenIs(s: State, b: Buffer, all: seq<byte>)
    requires AllWritten(s, b) && Continues(s, all, [])
    ensures b.lastLit == 0 && s.data == all && Covers(b.flushed, s.data, |s.data|, s.MaxDist())
  {
    hide Covers;
  }

  lemma CoversSame(ts: seq<Token>, data: seq<byte>, all: seq<byte>, n: nat, far: int)
    requires data == all && Covers(ts, data, |data|, far) && Covers(ts, all, n, far)
    ensures n == |all|
  {
    hide Within;
    assert |data[..n]| == n && |data[..|data|]| == |data|;
  }

  lemma FinishedAll(s: State, b: Buffer, all: seq<byte>, n: nat)
    requires AllWritten(s, b) && Continues(s, all, [])
    requires b.Valid() && Covers(b.All(), all, n, s.MaxDist())
    ensures n == |all|
  {
    hide *;
    AllWrittenIs(s, b, all);
    NothingPending(b);
    CoversSame(b.flushed, s.data, all, n, s.MaxDist());
  }
}
