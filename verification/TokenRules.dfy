/** Which matches the compressor must not miss, stated on the data and the tokens alone: what the last earlier
    string with the same key offers at the start of a token. */
module TokenRules {
  import opened Lz77
  import opened HashChain

  /** A row of the configuration table, and whether the strategy is Z_FILTERED. */
  datatype Config = Config(good: nat, lazy: nat, nice: nat, chain: nat, filtered: bool)

  const TOO_FAR: nat := 4096

  /** The data taken in, the strings indexed, where the input ended at a call with a flush, where the history was
      forgotten, the width of a key, and how far a match may reach. */
  datatype View = View(data: seq<byte>, ins: set<nat>, ends: set<nat>, forgotten: set<nat>, bits: nat, far: int)

  /** The k bytes at x were all there when the compressor came to them: no flush cut them. */
  ghost predicate Known(ends: set<nat>, x: nat, k: nat)
  {
    forall e :: e in ends ==> !(x < e < x + k)
  }

  /** Fewer than three bytes were there. */
  ghost predicate NearEnd(ends: set<nat>, x: nat)
  {
    exists e :: e in ends && x < e < x + 3
  }

  /** The string at x is indexed, unless it lacked bytes. */
  ghost predicate Placed(v: View, x: nat)
  {
    x in v.ins || NearEnd(v.ends, x)
  }

  /** As many bytes follow x as a match can have, or a flush ended the input. */
  ghost predicate Bounded(v: View, x: nat)
  {
    x + 259 <= |v.data| || exists e :: e in v.ends && x < e <= |v.data|
  }

  ghost predicate Settled(v: View, x: nat)
  {
    Placed(v, x) && Bounded(v, x)
  }

  /** q is the last string before x with its key, within reach of it, and the history between them is not
      forgotten. */
  ghost predicate Head(v: View, x: nat, q: nat)
  {
    && q in v.ins && q < x && x - q < v.far && x + 3 <= |v.data| && q + 3 <= |v.data|
    && HashAt(v.data, q, v.bits) == HashAt(v.data, x, v.bits)
    && (forall p :: p in v.ins && q < p < x && p + 3 <= |v.data| ==>
                      HashAt(v.data, p, v.bits) != HashAt(v.data, x, v.bits))
    && (forall f :: f in v.forgotten ==> f < q || x < f)
  }

  /** No string but h is the head for x, and h only if near holds. */
  ghost predicate OnlyHead(v: View, x: nat, h: nat, near: bool)
  {
    forall q: nat :: Head(v, x, q) ==> near && q == h
  }

  /** The string at q matches the one at x for k bytes. */
  ghost predicate Offers(v: View, x: nat, q: nat, k: nat)
  {
    3 <= k <= 258 && q < x && Known(v.ends, x, k) && MatchAt(v.data, x, x - q, k)
  }

  /** The head of the chain offers no match longer than len. */
  ghost predicate NoneLonger(v: View, x: nat, len: nat)
  {
    forall q: nat, k: nat :: Head(v, x, q) && Offers(v, x, q, k) ==> k <= len
  }

  /** A short match that lazy matching does not take: when the strategy is Z_FILTERED, or when it is too far away. */
  predicate Weak(c: Config, x: nat, q: nat, k: nat)
  {
    (c.filtered && k <= 5) || (k == 3 && x - q > TOO_FAR)
  }

  /** The head offers no longer match than len that lazy matching would rather take. */
  ghost predicate NoneBetter(v: View, c: Config, x: nat, len: nat)
  {
    forall q: nat, k: nat :: Head(v, x, q) && Offers(v, x, q, k) && k > len ==> c.filtered && k <= 5
  }

  /** Some match at x is longer than k. */
  ghost predicate Longer(v: View, x: nat, k: nat)
  {
    exists d, l :: k < l && 1 <= d <= v.far && MatchAt(v.data, x, d, l)
  }

  /** The search at x, after a match of prev bytes at the position before, ended with len. */
  ghost predicate Found(v: View, c: Config, x: nat, prev: nat, len: nat)
  {
    && Settled(v, x) && (prev >= c.lazy ==> len == 2)
    && (prev < c.lazy ==> forall q: nat, k: nat :: Head(v, x, q) && Offers(v, x, q, k) && k > prev ==>
                                           k <= len || (len == 2 && Weak(c, x, q, k)))
  }

  /** The best match at x is of len bytes; 2 if there is none worth taking. */
  ghost predicate Sought(v: View, c: Config, x: nat, len: nat)
  {
    && Settled(v, x)
    && forall q: nat, k: nat :: Head(v, x, q) && Offers(v, x, q, k) ==>
                        k <= len || (len == 2 && (c.lazy <= 2 || Weak(c, x, q, k)))
  }

  // ---------------------------------------------------------------- the rules

  /** Lazy matching. A byte is a literal only if the head of its chain offers no match of three or more worth
      taking, or a longer match starts at the next byte. A match is the best that the head offers, and the head at
      the next byte offers no longer one, if it was asked. */
  ghost predicate SlowRule(v: View, c: Config, t: Token, x: nat)
  {
    && Settled(v, x)
    && match t
       case Literal(_) =>
         c.lazy > 2 ==>
         forall q: nat, k: nat :: Head(v, x, q) && Offers(v, x, q, k) ==> Weak(c, x, q, k) || Longer(v, x + 1, k)
       case Match(len, _) =>
         && NoneLonger(v, x, len) && Settled(v, x + 1)
         && (len < c.lazy ==> NoneBetter(v, c, x + 1, len))
  }

  /** The strings within a match are indexed, if it is short and they have all their bytes. */
  ghost predicate Inner(v: View, c: Config, x: nat, len: nat)
  {
    len <= c.lazy && Known(v.ends, x, len + 3) ==> forall p :: x < p < x + len ==> p in v.ins
  }

  /** Greedy matching. A byte is a literal only if the head of its chain offers no match; a match is the best that
      the head offers. The strings within a short match are indexed. */
  ghost predicate FastRule(v: View, c: Config, t: Token, x: nat)
  {
    && Settled(v, x)
    && match t
       case Literal(_) => NoneLonger(v, x, 2)
       case Match(len, _) =>
         NoneLonger(v, x, len) && Inner(v, c, x, len)
  }

  /** All of the k bytes at x equal the byte before. */
  ghost predicate Repeats(data: seq<byte>, x: nat, k: nat)
  {
    x >= 1 && x + k <= |data| && forall i :: x <= i < x + k ==> data[i] == data[x - 1]
  }

  /** Run-length matching. Three bytes that repeat the byte before become a match, and a match is as long as it
      repeats. */
  ghost predicate RleRule(v: View, t: Token, x: nat)
  {
    && Bounded(v, x)
    && match t
       case Literal(_) => x in v.forgotten || !Known(v.ends, x, 3) || !Repeats(v.data, x, 3)
       case Match(len, d) =>
         d == 1 && len <= 258 && (len == 258 || !Known(v.ends, x, len + 1) || !Repeats(v.data, x, len + 1))
  }

  /** Which compression function the level and the strategy select. */
  datatype Method = FAST | SLOW | RLE | HUFFMAN_ONLY

  ghost predicate Rule(m: Method, v: View, c: Config, t: Token, x: nat)
  {
    match m
    case FAST => FastRule(v, c, t, x)
    case SLOW => SlowRule(v, c, t, x)
    case RLE => RleRule(v, t, x)
    case HUFFMAN_ONLY => t.Literal?
  }

  /** Every token obeys its rule where it starts. */
  ghost predicate Ruled(m: Method, v: View, c: Config, ts: seq<Token>)
  {
    forall i :: 0 <= i < |ts| ==> Rule(m, v, c, ts[i], Length(ts[..i]))
  }

  // ---------------------------------------------------------------- going on

  /** More data, more ends, and more strings indexed, all from top on. */
  ghost predicate Grows(v: View, v': View, top: nat)
  {
    && v.data <= v'.data && v.ins <= v'.ins && v.ends <= v'.ends && v.forgotten <= v'.forgotten
    && v'.bits == v.bits && v'.far == v.far
    && (forall p :: p in v.ins ==> p < top && p + 3 <= |v.data|)
    && (forall p :: p in v'.ins && p !in v.ins ==> top <= p)
  }

  lemma GrowsOn(v: View, v': View, v'': View, top: nat, top': nat)
    requires Grows(v, v', top) && Grows(v', v'', top') && top <= top'
    ensures Grows(v, v'', top)
  {
  }

  lemma SettledKept(v: View, v': View, top: nat, x: nat)
    requires Settled(v, x) && Grows(v, v', top)
    ensures Settled(v', x)
  {
    if NearEnd(v.ends, x) {
      var e :| e in v.ends && x < e < x + 3;
      assert e in v'.ends;
    }
    if x + 259 > |v.data| {
      var e :| e in v.ends && x < e <= |v.data|;
      assert e in v'.ends;
    }
  }

  lemma HashKept(data: seq<byte>, data': seq<byte>, p: nat, bits: nat)
    requires data <= data' && p + 3 <= |data|
    ensures HashAt(data', p, bits) == HashAt(data, p, bits)
  {
    hide Hash3;
  }

  /** A match that was known lies within the data there was. */
  lemma KnownWithin(v: View, v': View, x: nat, q: nat, k: nat)
    requires Bounded(v, x) && v.ends <= v'.ends && Offers(v', x, q, k) && v.data <= v'.data
    ensures x + k <= |v.data| && Offers(v, x, q, k)
  {
    if x + 259 > |v.data| {
      var e :| e in v.ends && x < e <= |v.data|;
      assert e in v'.ends;
    }
    MatchLess(v.data, v'.data, x, x - q, k);
  }

  lemma MatchLess(data: seq<byte>, data': seq<byte>, x: nat, d: nat, k: nat)
    requires MatchAt(data', x, d, k) && data <= data' && x + k <= |data|
    ensures MatchAt(data, x, d, k)
  {
  }

  lemma KnownPlaced(v: View, x: nat, q: nat, k: nat)
    requires Placed(v, x) && Offers(v, x, q, k)
    ensures x in v.ins
  {
  }

  /** What the head offers later, it offered before. */
  lemma OfferedBefore(v: View, v': View, top: nat, x: nat, q: nat, k: nat)
    requires Settled(v, x) && Grows(v, v', top) && Head(v', x, q) && Offers(v', x, q, k)
    ensures Head(v, x, q) && Offers(v, x, q, k)
  {
    KnownWithin(v, v', x, q, k);
    KnownPlaced(v, x, q, k);
    HashKept(v.data, v'.data, q, v.bits);
    HashKept(v.data, v'.data, x, v.bits);
    forall p | p in v.ins && q < p < x && p + 3 <= |v.data|
      ensures HashAt(v.data, p, v.bits) != HashAt(v.data, x, v.bits)
    {
      HashKept(v.data, v'.data, p, v.bits);
    }
  }

  lemma LongerKept(v: View, v': View, x: nat, k: nat)
    requires Longer(v, x, k) && v.data <= v'.data && v.far == v'.far
    ensures Longer(v', x, k)
  {
    var d, l :| k < l && 1 <= d <= v.far && MatchAt(v.data, x, d, l);
    assert MatchAt(v'.data, x, d, l);
  }

  lemma SoughtKept(v: View, v': View, top: nat, c: Config, x: nat, len: nat)
    requires Sought(v, c, x, len) && Grows(v, v', top)
    ensures Sought(v', c, x, len)
  {
    hide Settled, Head, Offers, Grows, Weak;
    SettledKept(v, v', top, x);
    forall q: nat, k: nat | Head(v', x, q) && Offers(v', x, q, k)
      ensures k <= len || (len == 2 && (c.lazy <= 2 || Weak(c, x, q, k)))
    {
      OfferedBefore(v, v', top, x, q, k);
    }
  }

  lemma NoneLongerKept(v: View, v': View, top: nat, x: nat, len: nat)
    requires Settled(v, x) && NoneLonger(v, x, len) && Grows(v, v', top)
    ensures NoneLonger(v', x, len)
  {
    hide Settled, Head, Offers, Grows;
    forall q: nat, k: nat | Head(v', x, q) && Offers(v', x, q, k) ensures k <= len {
      OfferedBefore(v, v', top, x, q, k);
    }
  }

  lemma SlowKept(v: View, v': View, top: nat, c: Config, t: Token, x: nat)
    requires SlowRule(v, c, t, x) && Grows(v, v', top)
    ensures SlowRule(v', c, t, x)
  {
    GrowsData(v, v', top);
    hide Settled, Head, Offers, Grows, Weak, Longer, NoneLonger, NoneBetter;
    SettledKept(v, v', top, x);
    match t
    case Literal(_) =>
      forall q: nat, k: nat | c.lazy > 2 && Head(v', x, q) && Offers(v', x, q, k)
        ensures Weak(c, x, q, k) || Longer(v', x + 1, k)
      {
        OfferedBefore(v, v', top, x, q, k);
        if !Weak(c, x, q, k) { LongerKept(v, v', x + 1, k); }
      }
    case Match(len, _) =>
      NoneLongerKept(v, v', top, x, len);
      SettledKept(v, v', top, x + 1);
      if len < c.lazy { NoneBetterKept(v, v', top, c, x + 1, len); }
  }

  lemma NoneBetterKept(v: View, v': View, top: nat, c: Config, x: nat, len: nat)
    requires Settled(v, x) && NoneBetter(v, c, x, len) && Grows(v, v', top)
    ensures NoneBetter(v', c, x, len)
  {
    hide Settled, Head, Offers, Grows;
    forall q: nat, k: nat | Head(v', x, q) && Offers(v', x, q, k) && k > len ensures c.filtered && k <= 5 {
      OfferedBefore(v, v', top, x, q, k);
    }
  }

  lemma GrowsData(v: View, v': View, top: nat)
    requires Grows(v, v', top)
    ensures v.data <= v'.data && v.far == v'.far && v.ins <= v'.ins && v.ends <= v'.ends && v.forgotten <= v'.forgotten
  {
  }

  lemma FastKept(v: View, v': View, top: nat, c: Config, t: Token, x: nat)
    requires FastRule(v, c, t, x) && Grows(v, v', top)
    ensures FastRule(v', c, t, x)
  {
    GrowsData(v, v', top);
    hide Settled, Head, Offers, Grows, NoneLonger;
    SettledKept(v, v', top, x);
    match t
    case Literal(_) => NoneLongerKept(v, v', top, x, 2);
    case Match(len, _) => NoneLongerKept(v, v', top, x, len);
  }

  lemma RleKept(v: View, v': View, top: nat, t: Token, x: nat)
    requires RleRule(v, t, x) && Grows(v, v', top)
    ensures RleRule(v', t, x)
  {
    BoundedKept(v, v', x);
    var k := if t.Literal? then 3 else t.len + 1;
    if Known(v'.ends, x, k) && Repeats(v'.data, x, k) && k <= 259 { RepeatsBefore(v, v', x, k); }
  }

  lemma BoundedKept(v: View, v': View, x: nat)
    requires Bounded(v, x) && v.data <= v'.data && v.ends <= v'.ends
    ensures Bounded(v', x)
  {
    if x + 259 > |v.data| {
      var e :| e in v.ends && x < e <= |v.data|;
      assert e in v'.ends;
    }
  }

  lemma RepeatsBefore(v: View, v': View, x: nat, k: nat)
    requires Bounded(v, x) && v.data <= v'.data && v.ends <= v'.ends && 1 <= k <= 259
    requires Known(v'.ends, x, k) && Repeats(v'.data, x, k)
    ensures Known(v.ends, x, k) && Repeats(v.data, x, k)
  {
    if x + 259 > |v.data| {
      var e :| e in v.ends && x < e <= |v.data|;
      assert e in v'.ends;
    }
    forall i | x <= i < x + k ensures v.data[i] == v.data[x - 1] {
      assert v'.data[i] == v'.data[x - 1];
    }
  }

  /** The rules, once met, stay met. */
  lemma RuledKept(m: Method, v: View, v': View, top: nat, c: Config, ts: seq<Token>)
    requires Ruled(m, v, c, ts) && Grows(v, v', top)
    ensures Ruled(m, v', c, ts)
  {
    hide SlowRule, FastRule, RleRule, Grows, Length;
    forall i | 0 <= i < |ts| ensures Rule(m, v', c, ts[i], Length(ts[..i])) {
      var x := Length(ts[..i]);
      match m
      case FAST => FastKept(v, v', top, c, ts[i], x);
      case SLOW => SlowKept(v, v', top, c, ts[i], x);
      case RLE => RleKept(v, v', top, ts[i], x);
      case HUFFMAN_ONLY =>
    }
  }

  /** One more token. */
  lemma RuledNext(m: Method, v: View, c: Config, ts: seq<Token>, t: Token)
    requires Ruled(m, v, c, ts) && Rule(m, v, c, t, Length(ts))
    ensures Ruled(m, v, c, ts + [t])
  {
    hide Rule, Length;
    var us := ts + [t];
    assert us[..|ts|] == ts;
    forall i | 0 <= i < |ts| ensures Rule(m, v, c, us[i], Length(us[..i])) {
      assert us[..i] == ts[..i];
    }
  }

  /** A search that found something better, or began with nothing, settles its position. */
  lemma FoundSought(v: View, c: Config, x: nat, prev: nat, len: nat)
    requires Found(v, c, x, prev, len) && 2 <= prev && 2 <= len && (prev == 2 || prev < len)
    ensures Sought(v, c, x, len)
  {
    hide Settled, Head, Offers, Weak;
  }

  /** A byte held back with no match, or with one that is not as long as the match at the next byte, is a
      literal by the rule. */
  lemma ReleasedRule(v: View, c: Config, x: nat, len: nat, b: byte)
    requires Sought(v, c, x, len) && (len == 2 || Longer(v, x + 1, len))
    ensures SlowRule(v, c, Literal(b), x)
  {
    hide Settled, Head, MatchAt, Weak;
    if c.lazy > 2 && len != 2 {
      var d, l :| len < l && 1 <= d <= v.far && MatchAt(v.data, x + 1, d, l);
      forall q: nat, k: nat | Head(v, x, q) && Offers(v, x, q, k) ensures Longer(v, x + 1, k) {
        assert k < l && 1 <= d <= v.far && MatchAt(v.data, x + 1, d, l);
      }
    }
  }

  /** A match that the search at the next byte does not better is a match by the rule. */
  lemma AdoptedRule(v: View, c: Config, x: nat, prev: nat, len: nat, dist: nat)
    requires Sought(v, c, x, prev) && 3 <= prev && Found(v, c, x + 1, prev, len) && len <= prev
    ensures SlowRule(v, c, Match(prev, dist), x)
  {
    hide Settled, Head, Offers;
  }
}
