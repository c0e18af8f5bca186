/** longest_match: walk a hash chain and keep the longest match. The third byte of a candidate is never
    compared; the index guarantees it. */
module LongestMatch {
  import opened Bits
  import opened Lz77
  import opened HashChain
  import opened DeflateState

  /** The bytes at a and b of the window agree for len bytes. */
  ghost predicate Agree(w: seq<byte>, a: nat, b: nat, len: nat)
  {
    && a < b && b + len <= |w|
    && forall k :: b <= k < b + len ==> w[k] == w[k - (b - a)]
  }

  /** All bytes before index len agree, and byte len too as long as no difference was found. */
  ghost predicate Compared(w: seq<byte>, a: nat, b: nat, len: nat, same: bool)
  {
    && a < b && b + len < |w| && Agree(w, a, b, len) && Agree(w, a, b, 3)
    && same == (w[b + len] == w[a + len])
  }

  lemma CompareNext(w: seq<byte>, a: nat, b: nat, len: nat)
    requires Compared(w, a, b, len, true) && b + len + 1 < |w|
    ensures Compared(w, a, b, len + 1, w[b + len + 1] == w[a + len + 1])
  {
  }

  /** Up to eight comparisons, before the next check for the end. */
  method Round(window: array<byte>, scan: nat, cur: nat, len0: nat) returns (len: nat, same: bool)
    requires Compared(window[..], cur, scan, len0, true) && scan + len0 + 8 < window.Length
    ensures Compared(window[..], cur, scan, len, same)
    ensures len0 < len <= len0 + 8 && (same ==> len == len0 + 8)
  {
    hide Compared;
    len, same := len0, true;
    assert cur < scan by { Comparing(window[..], cur, scan, len0, true); }
    while same && len < len0 + 8
      invariant len0 <= len <= len0 + 8 && (len == len0 ==> same)
      invariant Compared(window[..], cur, scan, len, same)
      decreases same, len0 + 8 - len
    {
      CompareNext(window[..], cur, scan, len);
      len := len + 1;
      same := window[scan + len] == window[cur + len];
    }
  }

  lemma Comparing(w: seq<byte>, a: nat, b: nat, len: nat, same: bool)
    requires Compared(w, a, b, len, same)
    ensures a < b && b + len < |w| && Agree(w, a, b, len) && same == (w[b + len] == w[a + len])
    ensures !same ==> len != 2
  {
    if len == 2 { assert w[b + 2] == w[b + 2 - (b - a)]; }
  }

  /** The scan from the third byte on, eight bytes to a round, up to MAX_MATCH. */
  method Scan(window: array<byte>, scan: nat, cur: nat) returns (len: nat)
    requires cur < scan && scan + MAX_MATCH < window.Length && Agree(window[..], cur, scan, 3)
    ensures 3 <= len <= MAX_MATCH && Agree(window[..], cur, scan, len)
    ensures len < MAX_MATCH ==> window[scan + len] != window[cur + len]
  {
    len := 2;
    var same := true;
    assert window[..][scan + 2] == window[..][scan + 2 - (scan - cur)];
    assert Compared(window[..], cur, scan, 2, true);
    hide Compared, Agree;
    while same && len < MAX_MATCH
      invariant 2 <= len <= MAX_MATCH && (same ==> len % 8 == 2)
      invariant Compared(window[..], cur, scan, len, same)
      decreases same, MAX_MATCH - len
    {
      len, same := Round(window, scan, cur, len);
    }
    Comparing(window[..], cur, scan, len, same);
  }

  /** The current string has just been inserted, and the window has room to read ahead of it. */
  ghost predicate Searching(s: State)
    reads s`data, s`base, s`ins, s`top, s`strstart, s`lookahead, s.window, s.head, s.prev
  {
    && s.Holds() && |s.data| == s.base + s.strstart + s.lookahead && 3 <= s.lookahead
    && s.strstart + MIN_LOOKAHEAD <= 2 * s.wsize && s.top == s.base + s.strstart + 1
  }

  /** An earlier string with the key of the current one, within reach. */
  ghost predicate Candidate(s: State, cur: nat)
    requires Searching(s)
    reads s`data, s`base, s`ins, s`top, s`strstart, s`lookahead, s.window, s.head, s.prev
  {
    && 1 <= cur < s.strstart && s.strstart - cur <= s.MaxDist()
    && Leads(cur, s.data, s.base, s.ins, s.bits, HashAt(s.data, s.base + s.strstart, s.bits))
  }

  lemma SearchRange(s: State)
    requires Searching(s)
    ensures s.strstart + 262 <= 2 * s.wsize == s.window.Length && s.prev.Length == s.wsize
    ensures s.MaxDist() == s.wsize - 262
    ensures s.Holds() && |s.data| == s.base + s.strstart + s.lookahead && 3 <= s.lookahead
  {
  }

  lemma CandidateRange(s: State, cur: nat)
    requires Searching(s) && Candidate(s, cur)
    ensures 1 <= cur < s.strstart && s.strstart - cur <= s.MaxDist()
  {
  }

  /** Two equal bytes and equal keys make three equal bytes. */
  lemma ThreeBytes(s: State, cur: nat)
    requires Searching(s) && Candidate(s, cur)
    requires s.window[cur] == s.window[s.strstart] && s.window[cur + 1] == s.window[s.strstart + 1]
    ensures Agree(s.window[..], cur, s.strstart, 3)
  {
    hide Chains, Hash3;
    var n := s.strstart;
    s.At(n);
    s.At(n + 1);
    s.At(n + 2);
    s.At(cur);
    s.At(cur + 1);
    s.At(cur + 2);
    ThirdByte(s.window[n], s.window[n + 1], s.window[n + 2], s.window[cur + 2], s.bits);
  }

  /** The window positions the search tries: from cur along the links while they stay above limit, at most n. */
  ghost function Followed(prev: seq<nat>, cur: nat, limit: nat, n: nat): seq<nat>
    requires |prev| > 0
    decreases n
  {
    if n == 0 then []
    else
      var next := prev[cur % |prev|];
      [cur] + (if next > limit then Followed(prev, next, limit, n - 1) else [])
  }

  /** How many are left to try when the counter is chain: the counter of 32 bits wraps around from zero. */
  function Left(chain: nat): (n: nat)
    ensures n > 0
  {
    if chain == 0 then 0x1_0000_0000 else chain
  }

  /** At most maxChain, and a quarter of them if the match before is good already. */
  function Tries(maxChain: nat, goodMatch: nat, prevLength: nat): (n: nat)
    ensures n > 0
  {
    Left(if prevLength >= goodMatch then maxChain / 4 else maxChain)
  }

  /** The index from which on strings are within reach, less one; 0 stands for no string. */
  ghost function Limit(s: State): nat
    reads s`strstart
  {
    if s.strstart > s.MaxDist() then s.strstart - s.MaxDist() else 0
  }

  /** The strings tried so far are the first of the whole, and cur and what follows it are the rest. */
  ghost predicate Remain(whole: seq<nat>, tried: seq<nat>, prev: seq<nat>, cur: nat, limit: nat, chain: nat)
  {
    |prev| > 0 && whole == tried + Followed(prev, cur, limit, Left(chain))
  }

  lemma RemainNext(whole: seq<nat>, tried: seq<nat>, prev: seq<nat>, cur: nat, limit: nat, chain: nat)
    requires Remain(whole, tried, prev, cur, limit, chain) && chain < 0x1_0000_0000
    ensures |prev| > 0 && tried + [cur] <= whole
    ensures var next := prev[cur % |prev|];
            if next > limit && Sub32(chain, 1) != 0
            then Remain(whole, tried + [cur], prev, next, limit, Sub32(chain, 1)) else tried + [cur] == whole
  {
    assert Left(chain) - 1 == Sub32(chain, 1);
    var next := prev[cur % |prev|];
    var rest := if next > limit then Followed(prev, next, limit, Left(chain) - 1) else [];
    assert Followed(prev, cur, limit, Left(chain)) == [cur] + rest;
    hide Followed;
    assert tried + ([cur] + rest) == tried + [cur] + rest;
    FollowedNone(prev, next, limit);
  }

  lemma FollowedNone(prev: seq<nat>, cur: nat, limit: nat)
    requires |prev| > 0
    ensures Followed(prev, cur, limit, 0) == []
  {
  }

  /** The strings with key h from position p on, before position q. */
  ghost function KeyFrom(data: seq<byte>, ins: set<nat>, bits: nat, h: nat, p: nat, q: nat): set<nat>
  {
    set i | i in ins && p <= i < q && i + 3 <= |data| && HashAt(data, i, bits) == h
  }

  /** The links leave nothing out: the search tries every indexed string within reach that has the current key,
      if fewer than n such strings are nearer. */
  lemma {:induction false} FollowedHas(s: State, cur: nat, p: nat, n: nat)
    requires Searching(s) && Candidate(s, cur)
    requires var h := HashAt(s.data, s.base + s.strstart, s.bits);
             && p in s.ins && s.base + Limit(s) < p <= s.base + cur && p + 3 <= |s.data|
             && HashAt(s.data, p, s.bits) == h
             && |KeyFrom(s.data, s.ins, s.bits, h, p, s.base + cur)| < n
    ensures |s.prev[..]| > 0 && p - s.base in Followed(s.prev[..], cur, Limit(s), n)
    decreases n
  {
    hide *;
    SearchRange(s);
    FollowedIn(s.prev[..], cur, Limit(s), n);
    if p < s.base + cur {
      var next := OnwardTo(s, cur, p);
      FollowedHas(s, next, p, n - 1);
    }
  }

  lemma FollowedIn(prev: seq<nat>, cur: nat, limit: nat, n: nat)
    requires |prev| > 0 && n > 0
    ensures cur in Followed(prev, cur, limit, n)
    ensures var next := prev[cur % |prev|];
            next > limit ==> forall p :: p in Followed(prev, next, limit, n - 1) ==> p in Followed(prev, cur, limit, n)
  {
  }

  /** The link from a candidate leads on to any string with the key before it. */
  lemma OnwardTo(s: State, cur: nat, p: nat) returns (next: nat)
    requires Searching(s) && Candidate(s, cur)
    requires var h := HashAt(s.data, s.base + s.strstart, s.bits);
             && p in s.ins && s.base + Limit(s) < p < s.base + cur && p + 3 <= |s.data|
             && HashAt(s.data, p, s.bits) == h
    ensures |s.prev[..]| > 0 && next == s.prev[..][cur % |s.prev[..]|] && Limit(s) < next && p <= s.base + next
    ensures Candidate(s, next)
    ensures var h := HashAt(s.data, s.base + s.strstart, s.bits);
            |KeyFrom(s.data, s.ins, s.bits, h, p, s.base + next)| < |KeyFrom(s.data, s.ins, s.bits, h, p, s.base + cur)|
  {
    hide Chains, HashAt, Pow2, KeyFrom, NonePassed;
    SearchRange(s);
    var h := HashAt(s.data, s.base + s.strstart, s.bits);
    next := s.prev[..][cur % s.wsize];
    Follow(s.head[..], s.prev[..], s.data, s.base, s.ins, s.top, s.bits, cur);
    LastBefore(s, next, h, p, s.base + cur);
    NextCandidate(s, cur);
    Nearer(s.data, s.ins, s.bits, h, p, s.base + next, s.base + cur);
  }

  lemma LastBefore(s: State, v: nat, h: nat, p: nat, q: nat)
    requires NonePassed(v, s.data, s.base, s.ins, s.bits, h, q)
    requires p in s.ins && p < q && p + 3 <= |s.data| && HashAt(s.data, p, s.bits) == h
    ensures p <= s.base + v
  {
    hide HashAt;
  }

  lemma Nearer(data: seq<byte>, ins: set<nat>, bits: nat, h: nat, p: nat, q: nat, q': nat)
    requires p <= q < q' && q in ins && q + 3 <= |data| && HashAt(data, q, bits) == h
    ensures |KeyFrom(data, ins, bits, h, p, q)| < |KeyFrom(data, ins, bits, h, p, q')|
  {
    hide HashAt;
    var a, b := KeyFrom(data, ins, bits, h, p, q), KeyFrom(data, ins, bits, h, p, q');
    assert q !in a && q in b && a <= b;
    Fewer(a, b);
  }

  lemma Fewer(a: set<nat>, b: set<nat>)
    requires a < b
    ensures |a| < |b|
  {
    assert b == a + (b - a);
    assert |b| == |a| + |b - a|;
  }

  /** The next string of the chain is a candidate, if it is within reach. */
  lemma NextCandidate(s: State, cur: nat)
    requires Searching(s) && Candidate(s, cur)
    ensures cur % s.wsize < s.prev.Length
    ensures s.prev[cur % s.wsize] > 0 && s.strstart - s.prev[cur % s.wsize] <= s.MaxDist() ==>
              s.prev[cur % s.wsize] < cur && Candidate(s, s.prev[cur % s.wsize])
  {
    hide Chains, HashAt, Pow2;
    Follow(s.head[..], s.prev[..], s.data, s.base, s.ins, s.top, s.bits, cur);
  }

  /** Agreement in the window, up to the end of the data, is a match in the data. */
  lemma AgreeData(s: State, cur: nat, best: nat, len: nat)
    requires Searching(s) && Candidate(s, cur) && Agree(s.window[..], cur, s.strstart, best)
    requires len <= best && len <= s.lookahead
    ensures MatchAt(s.data, s.base + s.strstart, s.strstart - cur, len)
  {
    hide Chains, Pow2, HashAt;
    var n, d := s.base + s.strstart, s.strstart - cur;
    forall k | n <= k < n + len ensures s.data[k] == s.data[k - d] {
      s.At(k - s.base);
      s.At(k - s.base - d);
      assert s.window[..][k - s.base] == s.window[..][k - s.base - d];
    }
  }

  /** The bytes that a better match must have at its end. */
  predicate AtEnd(s: State, best: nat, scanEnd1: byte, scanEnd: byte)
    reads s`strstart, s.window
  {
    && 1 <= best && s.strstart + best < s.window.Length
    && scanEnd1 == s.window[s.strstart + best - 1] && scanEnd == s.window[s.strstart + best]
  }

  lemma AtEndIs(s: State, best: nat, scanEnd1: byte, scanEnd: byte)
    requires 1 <= best && s.strstart + best < s.window.Length
    ensures AtEnd(s, best, scanEnd1, scanEnd) <==>
              scanEnd1 == s.window[s.strstart + best - 1] && scanEnd == s.window[s.strstart + best]
  {
  }

  /** The tests on a candidate, cheapest first, and the scan if it passes them. */
  method Try(s: State, cur: nat, best: nat, scanEnd1: byte, scanEnd: byte) returns (len: nat)
    requires Searching(s) && Candidate(s, cur) && 1 <= best <= 258 && AtEnd(s, best, scanEnd1, scanEnd)
    ensures len <= MAX_MATCH && (len > 0 ==> Agree(s.window[..], cur, s.strstart, len))
    ensures forall k :: best < k <= MAX_MATCH && Agree(s.window[..], cur, s.strstart, k) ==> k <= len
  {
    hide *;
    SearchRange(s);
    CandidateRange(s, cur);
    MaxMatch();
    AtEndIs(s, best, scanEnd1, scanEnd);
    if s.window[cur + best] != scanEnd || s.window[cur + best - 1] != scanEnd1
       || s.window[cur] != s.window[s.strstart] || s.window[cur + 1] != s.window[s.strstart + 1]
    {
      len := 0;
    } else {
      ThreeBytes(s, cur);
      len := Scan(s.window, s.strstart, cur);
    }
    forall k | best < k <= MAX_MATCH && Agree(s.window[..], cur, s.strstart, k) ensures k <= len {
      AgreeEnds(s.window[..], cur, s.strstart, k, best, len);
    }
  }

  /** Agreement for k bytes shows at the bytes that are tested. */
  lemma AgreeEnds(w: seq<byte>, a: nat, b: nat, k: nat, best: nat, len: nat)
    requires Agree(w, a, b, k) && 1 <= best < k
    ensures w[a] == w[b] && w[a + 1] == w[b + 1] && w[a + best - 1] == w[b + best - 1] && w[a + best] == w[b + best]
    ensures len < k ==> w[a + len] == w[b + len]
  {
    assert w[b] == w[b - (b - a)] && w[b + 1] == w[b + 1 - (b - a)];
    assert w[b + best] == w[b + best - (b - a)] && w[b + best - 1] == w[b + best - 1 - (b - a)];
    if len < k { assert w[b + len] == w[b + len - (b - a)]; }
  }

  lemma MaxMatch()
    ensures MAX_MATCH == 258
  {
  }

  /** The string at window index start matches the current one for len bytes, within reach. */
  ghost predicate Match(s: State, start: nat, len: nat)
    reads s`data, s`base, s`strstart
  {
    && 1 <= start < s.strstart && s.strstart - start <= s.MaxDist()
    && MatchAt(s.data, s.base + s.strstart, s.strstart - start, len)
  }

  /** What the search knows: anything longer than it began with is an agreement with a candidate. */
  ghost predicate Best(s: State, best: nat, start: nat)
    reads s`data, s`base, s`ins, s`top, s`strstart, s`lookahead, s`prevLength, s.window, s.head, s.prev
  {
    && Searching(s) && s.prevLength <= best <= 258
    && (best > s.prevLength ==> Candidate(s, start) && Agree(s.window[..], start, s.strstart, best))
  }

  lemma BestMatch(s: State, best: nat, start: nat, len: nat)
    requires Best(s, best, start) && len == (if best <= s.lookahead then best else s.lookahead) && len > s.prevLength
    ensures Match(s, start, len)
  {
    hide Searching, Agree, MatchAt;
    AgreeData(s, start, best, len);
  }

  lemma BestSoFar(s: State, best: nat, start: nat)
    requires Searching(s) && s.prevLength <= best <= 258
    requires best > s.prevLength ==> Candidate(s, start) && Agree(s.window[..], start, s.strstart, best)
    ensures Best(s, best, start)
  {
    hide Searching, Agree, Candidate;
  }

  /** The search has found at least what the candidate at window index start offers. */
  ghost predicate AtLeast(s: State, start: nat, best: nat)
    reads s`strstart, s`prevLength, s.window
  {
    forall k :: s.prevLength < k <= 258 && Agree(s.window[..], start, s.strstart, k) ==> k <= best
  }

  /** What the search knows of the strings tried: none offers more, and those nearer than the best offer less. */
  ghost predicate Tried(s: State, tried: seq<nat>, best: nat, start: nat)
    reads s`strstart, s`lookahead, s`prevLength, s.window
  {
    && (forall p :: p in tried ==> AtLeast(s, p, best))
    && (Capped(s, best) > s.prevLength ==>
          forall p :: p in tried && p > start ==> !Agree(s.window[..], p, s.strstart, Capped(s, best)))
  }

  function Capped(s: State, best: nat): nat
    reads s`lookahead
  {
    if best <= s.lookahead then best else s.lookahead
  }

  lemma NoneTried(s: State, best: nat, start: nat)
    ensures Tried(s, [], best, start)
  {
  }

  /** One more string tried. */
  lemma TriedNext(s: State, tried: seq<nat>, best: nat, start: nat, cur: nat, len: nat)
    requires Tried(s, tried, best, start) && s.prevLength <= best && len <= 258
    requires forall k :: best < k <= MAX_MATCH && Agree(s.window[..], cur, s.strstart, k) ==> k <= len
    requires best > s.prevLength ==> best < s.lookahead && cur < start
    ensures if len > best then Tried(s, tried + [cur], len, cur) else Tried(s, tried + [cur], best, start)
  {
    hide Agree;
    if len > best {
      forall p | p in tried + [cur] ensures AtLeast(s, p, len) {
        if p in tried { assert AtLeast(s, p, best); }
      }
      if Capped(s, len) > s.prevLength {
        forall p | p in tried + [cur] && p > cur ensures !Agree(s.window[..], p, s.strstart, Capped(s, len)) {
          assert p in tried && AtLeast(s, p, best);
        }
      }
    }
  }

  lemma DataAgrees(s: State, start: nat, k: nat)
    requires Searching(s) && Match(s, start, k) && k <= 258
    ensures Agree(s.window[..], start, s.strstart, k) && k <= s.lookahead
  {
    hide Chains, Pow2, HashAt;
    var n, d := s.strstart, s.strstart - start;
    forall i | n <= i < n + k ensures s.window[..][i] == s.window[..][i - d] {
      s.At(i);
      s.At(i - d);
      assert s.data[s.base + i] == s.data[s.base + i - d];
    }
  }

  lemma TriedCounts(s: State, tried: seq<nat>, best: nat, start: nat, len: nat)
    requires Searching(s) && Tried(s, tried, best, start) && len == if best <= s.lookahead then best else s.lookahead
    ensures forall p: nat, k: nat :: p in tried && s.prevLength < k <= 258 && Match(s, p, k) ==> k <= len
    ensures len > s.prevLength && len <= 258 ==> forall p :: p in tried && p > start ==> !Match(s, p, len)
  {
    hide Agree, Match, Searching;
    forall p: nat, k: nat | p in tried && s.prevLength < k <= 258 && Match(s, p, k) ensures k <= len {
      assert AtLeast(s, p, best);
      DataAgrees(s, p, k);
    }
    if s.prevLength < len <= 258 {
      forall p | p in tried && p > start ensures !Match(s, p, len) {
        if Match(s, p, len) { DataAgrees(s, p, len); }
      }
    }
  }

  /** What the search has to show for the strings tried, of all that are to be tried from first on. */
  ghost predicate Searched(s: State, whole: seq<nat>, tried: seq<nat>, first: nat, best: nat, start: nat)
    reads s`strstart, s`lookahead, s`prevLength, s.window
  {
    Tried(s, tried, best, start) && tried <= whole && (best > s.prevLength ==> start in tried && start <= first)
  }

  /** It goes on at cur. */
  ghost predicate Ahead(whole: seq<nat>, tried: seq<nat>, first: nat, prev: seq<nat>, cur: nat, limit: nat, chain: nat)
  {
    Remain(whole, tried, prev, cur, limit, chain) && cur <= first && (first in tried || cur == first)
  }

  lemma OneTried(s: State, whole: seq<nat>, tried: seq<nat>, first: nat, prev: seq<nat>, cur: nat, limit: nat,
                 chain: nat, best: nat, start: nat, len: nat)
    requires Searched(s, whole, tried, first, best, start) && Ahead(whole, tried, first, prev, cur, limit, chain)
    requires s.prevLength <= best && len <= 258 && chain < 0x1_0000_0000
    requires forall k :: best < k <= MAX_MATCH && Agree(s.window[..], cur, s.strstart, k) ==> k <= len
    requires best > s.prevLength ==> best < s.lookahead && cur < start
    ensures Searched(s, whole, tried + [cur], first, if len > best then len else best,
                     if len > best then cur else start)
    ensures |prev| > 0 && first in tried + [cur]
    ensures var next := prev[cur % |prev|];
            if next > limit && Sub32(chain, 1) != 0
            then next <= cur ==> Ahead(whole, tried + [cur], first, prev, next, limit, Sub32(chain, 1))
            else tried + [cur] == whole
  {
    hide Tried, Remain, Agree, Sub32;
    TriedNext(s, tried, best, start, cur, len);
    RemainNext(whole, tried, prev, cur, limit, chain);
  }

  lemma SearchBegins(s: State, whole: seq<nat>, first: nat, prev: seq<nat>, limit: nat, chain: nat)
    requires |prev| > 0 && whole == Followed(prev, first, limit, Left(chain))
    ensures Searched(s, whole, [], first, s.prevLength, s.matchStart)
    ensures Ahead(whole, [], first, prev, first, limit, chain)
  {
    hide Followed;
    NoneTried(s, s.prevLength, s.matchStart);
    RemainAll(whole, prev, first, limit, chain);
  }

  lemma SearchEnds(s: State, whole: seq<nat>, tried: seq<nat>, first: nat, best: nat, start: nat)
    requires Searched(s, whole, tried, first, best, start)
    ensures Tried(s, tried, best, start) && tried <= whole
    ensures best > s.prevLength ==> start in tried && start <= first
  {
  }

  /** The search. What it returns beyond prev_length is the length of a true match at match_start: the longest that
      the strings of the chain offer, up to one that is nice enough, and the nearest that is as long. */
  method Longest(s: State, curMatch: nat, maxChain: nat, goodMatch: nat, niceMatch: nat)
    returns (len: nat, ghost tried: seq<nat>)
    requires Searching(s) && Candidate(s, curMatch) && 1 <= s.prevLength <= 258 && maxChain < 0x1_0000_0000
    modifies s`matchStart
    ensures len <= s.lookahead && len <= 258 && (len >= s.prevLength || len == s.lookahead)
    ensures len > s.prevLength ==> Match(s, s.matchStart, len) && s.matchStart in tried
    ensures forall p: nat, k: nat :: p in tried && s.prevLength < k <= 258 && Match(s, p, k) ==> k <= len
    ensures len > s.prevLength ==> forall p :: p in tried && p > s.matchStart ==> !Match(s, p, len)
    ensures |s.prev[..]| > 0 && curMatch in tried
    ensures var all := Followed(s.prev[..], curMatch, Limit(s), Tries(maxChain, goodMatch, s.prevLength));
            tried <= all && (tried == all || len == s.lookahead || (len > s.prevLength && len >= niceMatch))
    ensures len > s.prevLength ==> s.matchStart <= curMatch
  {
    hide *;
    SearchRange(s);
    MaxMatch();
    var chain: nat, best: nat, nice: nat, cur: nat := maxChain, s.prevLength, niceMatch, curMatch;
    var limit := if s.strstart > s.MaxDist() then s.strstart - s.MaxDist() else 0;
    var scanEnd1, scanEnd := s.window[s.strstart + best - 1], s.window[s.strstart + best];
    if s.prevLength >= goodMatch { chain := chain / 4; }
    if nice > s.lookahead { nice := s.lookahead; }
    BestSoFar(s, best, s.matchStart);
    var going := true;
    AtEndIs(s, best, scanEnd1, scanEnd);
    tried := [];
    LimitIs(s, limit, maxChain, goodMatch, chain);
    ghost var links := s.prev[..];
    ghost var whole := Followed(links, curMatch, limit, Left(chain));
    SearchBegins(s, whole, curMatch, links, limit, chain);
    while going
      invariant Searching(s) && Best(s, best, s.matchStart) && 1 <= s.prevLength <= best <= 258
      invariant chain < 0x1_0000_0000
      invariant going ==> Candidate(s, cur) && AtEnd(s, best, scanEnd1, scanEnd)
      invariant Searched(s, whole, tried, curMatch, best, s.matchStart)
      invariant going && best > s.prevLength ==> best < nice && cur < s.matchStart
      invariant going ==> Ahead(whole, tried, curMatch, links, cur, limit, chain)
      invariant !going ==> curMatch in tried && (tried == whole || (best > s.prevLength && best >= nice))
      decreases going, cur
    {
      len := Try(s, cur, best, scanEnd1, scanEnd);
      OneTried(s, whole, tried, curMatch, links, cur, limit, chain, best, s.matchStart, len);
      tried := tried + [cur];
      if len > best {
        s.matchStart := cur;
        best := len;
        BestSoFar(s, best, cur);
        if len >= nice {
          going := false;
        } else {
          scanEnd1, scanEnd := s.window[s.strstart + best - 1], s.window[s.strstart + best];
          AtEndIs(s, best, scanEnd1, scanEnd);
        }
      }
      if going {
        NextCandidate(s, cur);
        cur := s.prev[cur % s.wsize];
        chain := if cur <= limit then chain else Sub32(chain, 1);
        going := cur > limit && chain != 0;
      }
    }
    len := if best <= s.lookahead then best else s.lookahead;
    if len > s.prevLength { BestMatch(s, best, s.matchStart, len); }
    SearchEnds(s, whole, tried, curMatch, best, s.matchStart);
    TriedCounts(s, tried, best, s.matchStart, len);
  }

  lemma RemainAll(whole: seq<nat>, prev: seq<nat>, cur: nat, limit: nat, chain: nat)
    requires |prev| > 0 && whole == Followed(prev, cur, limit, Left(chain))
    ensures Remain(whole, [], prev, cur, limit, chain) && [] <= whole
  {
    hide Followed;
    assert [] + whole == whole;
  }

  lemma LimitIs(s: State, limit: nat, maxChain: nat, goodMatch: nat, chain: nat)
    requires Searching(s) && limit == (if s.strstart > s.MaxDist() then s.strstart - s.MaxDist() else 0)
    requires chain == (if s.prevLength >= goodMatch then maxChain / 4 else maxChain)
    ensures limit == Limit(s) && Left(chain) == Tries(maxChain, goodMatch, s.prevLength) && |s.prev[..]| > 0
  {
  }
}
