/** Canonical prefix codes as section 3.2.2 of RFC 1951 defines them from a list of code lengths, and the
    facts about them that the table builder relies on: codes are prefix-free when the lengths are not
    over-subscribed, and cover every bit string when the lengths are complete. */
module Huffman {
  import opened Bits

  /** The longest code, 15 bits. Its value is given by a range so that proofs treat it as a number rather
      than unfold recursive definitions on a numeral. */
  type CodeLimit = n: nat | 14 < n < 16 witness 15
  const MAXBITS: CodeLimit

  ghost predicate ValidLengths(lens: seq<nat>)
  {
    forall s :: 0 <= s < |lens| ==> lens[s] <= MAXBITS
  }

  /** How many of the first n symbols have length l. */
  function CountBelow(lens: seq<nat>, n: nat, l: nat): nat
    requires n <= |lens|
  {
    if n == 0 then 0 else CountBelow(lens, n - 1, l) + (if lens[n - 1] == l then 1 else 0)
  }

  function Count(lens: seq<nat>, l: nat): nat
  {
    CountBelow(lens, |lens|, l)
  }

  /** Step 2: the smallest code of length l. */
  function NextCode(lens: seq<nat>, l: nat): nat
  {
    if l <= 1 then 0 else 2 * (NextCode(lens, l - 1) + Count(lens, l - 1))
  }

  /** Step 3: codes of one length are consecutive, in symbol order. */
  function CodeOf(lens: seq<nat>, s: nat): nat
    requires s < |lens|
  {
    NextCode(lens, lens[s]) + CountBelow(lens, s, lens[s])
  }

  /** A bit stream is a number whose lowest bit comes first; a code's most significant bit comes first. */
  predicate Matches(lens: seq<nat>, s: nat, z: nat)
    requires s < |lens|
  {
    lens[s] > 0 && Low(z, lens[s]) == Rev(CodeOf(lens, s), lens[s])
  }

  /** The Kraft sum of the first n symbols, in units of 2^-15. */
  function KraftBelow(lens: seq<nat>, n: nat): nat
    requires n <= |lens| && ValidLengths(lens)
  {
    if n == 0 then 0
    else KraftBelow(lens, n - 1) + (if lens[n - 1] == 0 then 0 else Pow2(MAXBITS - lens[n - 1]))
  }

  function Kraft(lens: seq<nat>): nat
    requires ValidLengths(lens)
  {
    KraftBelow(lens, |lens|)
  }

  // ---------------------------------------------------------------- sums by length

  /** Symbols of length 1 to l. */
  function Upto(lens: seq<nat>, l: nat): nat
  {
    if l == 0 then 0 else Upto(lens, l - 1) + Count(lens, l)
  }

  /** The Kraft sum of the symbols of length 1 to l. */
  function KraftUpto(lens: seq<nat>, l: nat): nat
    requires l <= MAXBITS
  {
    if l == 0 then 0 else KraftUpto(lens, l - 1) + Shl(Count(lens, l), MAXBITS - l)
  }

  /** The same sum, taken over the first n symbols only. */
  function KraftPart(lens: seq<nat>, n: nat, l: nat): nat
    requires n <= |lens| && l <= MAXBITS
  {
    if l == 0 then 0 else KraftPart(lens, n, l - 1) + Shl(CountBelow(lens, n, l), MAXBITS - l)
  }

  lemma {:induction false} KraftPartZero(lens: seq<nat>, l: nat)
    requires l <= MAXBITS
    ensures KraftPart(lens, 0, l) == 0
  {
    if l > 0 {
      KraftPartZero(lens, l - 1);
      ShlAdd(0, 0, MAXBITS - l);
    }
  }

  lemma {:induction false} KraftPartStep(lens: seq<nat>, n: nat, l: nat)
    requires n < |lens| && l <= MAXBITS && ValidLengths(lens)
    ensures KraftPart(lens, n + 1, l) ==
            KraftPart(lens, n, l) + (if 1 <= lens[n] <= l then Pow2(MAXBITS - lens[n]) else 0)
  {
    if l > 0 {
      KraftPartStep(lens, n, l - 1);
      ShlSucc(CountBelow(lens, n, l), MAXBITS - l);
    }
  }

  lemma {:induction false} KraftPartAll(lens: seq<nat>, n: nat)
    requires n <= |lens| && ValidLengths(lens)
    ensures KraftPart(lens, n, MAXBITS) == KraftBelow(lens, n)
  {
    if n == 0 {
      KraftPartZero(lens, MAXBITS);
    } else {
      KraftPartAll(lens, n - 1);
      KraftPartStep(lens, n - 1, MAXBITS);
    }
  }

  lemma {:induction false} KraftPartFull(lens: seq<nat>, l: nat)
    requires l <= MAXBITS
    ensures KraftPart(lens, |lens|, l) == KraftUpto(lens, l)
  {
    if l > 0 { KraftPartFull(lens, l - 1); }
  }

  /** Summing by symbol and summing by length agree. */
  lemma KraftByLength(lens: seq<nat>)
    requires ValidLengths(lens)
    ensures Kraft(lens) == KraftUpto(lens, MAXBITS)
  {
    KraftPartAll(lens, |lens|);
    KraftPartFull(lens, MAXBITS);
  }

  lemma {:induction false} KraftUptoMono(lens: seq<nat>, a: nat, b: nat)
    requires a <= b <= MAXBITS
    ensures KraftUpto(lens, a) <= KraftUpto(lens, b)
    decreases b
  {
    if a < b { KraftUptoMono(lens, a, b - 1); }
  }

  lemma {:induction false} UptoMono(lens: seq<nat>, a: nat, b: nat)
    requires a <= b
    ensures Upto(lens, a) <= Upto(lens, b)
    decreases b
  {
    if a < b { UptoMono(lens, a, b - 1); }
  }

  lemma {:induction false} CountBelowMono(lens: seq<nat>, m: nat, n: nat, l: nat)
    requires m <= n <= |lens|
    ensures CountBelow(lens, m, l) <= CountBelow(lens, n, l)
    ensures m < n && lens[m] == l ==> CountBelow(lens, m, l) < CountBelow(lens, n, l)
    decreases n
  {
    if m < n { CountBelowMono(lens, m, n - 1, l); }
  }

  // ---------------------------------------------------------------- codes as intervals

  /** The first 15-bit word, most significant bit first, that begins with the code of s. */
  function Start(lens: seq<nat>, s: nat): nat
    requires s < |lens| && ValidLengths(lens)
  {
    Shl(CodeOf(lens, s), MAXBITS - lens[s])
  }

  /** The words that begin with the code of s. */
  function Size(lens: seq<nat>, s: nat): nat
    requires s < |lens| && ValidLengths(lens)
  {
    Pow2(MAXBITS - lens[s])
  }

  lemma {:induction false} NextCodeKraft(lens: seq<nat>, l: nat)
    requires 1 <= l <= MAXBITS
    ensures Shl(NextCode(lens, l), MAXBITS - l) == KraftUpto(lens, l - 1)
  {
    if l == 1 {
      ShlAdd(0, 0, MAXBITS - l);
    } else {
      NextCodeKraft(lens, l - 1);
      var a, b, j := NextCode(lens, l - 1), Count(lens, l - 1), MAXBITS - l;
      ShlAdd(a, b, j + 1);
      ShlShl(a + b, 1, j);
      assert Shl(a + b, 1) == 2 * Shl(a + b, 0) == 2 * (a + b);
    }
  }

  /** The interval of a symbol lies between the Kraft sums around its length. */
  lemma StartBounds(lens: seq<nat>, s: nat)
    requires s < |lens| && ValidLengths(lens) && lens[s] > 0
    ensures Start(lens, s) == KraftUpto(lens, lens[s] - 1)
                              + Shl(CountBelow(lens, s, lens[s]), MAXBITS - lens[s])
    ensures Start(lens, s) + Size(lens, s) <= KraftUpto(lens, lens[s])
    ensures Start(lens, s) + Size(lens, s) <= Kraft(lens)
  {
    var l := lens[s];
    NextCodeKraft(lens, l);
    ShlAdd(NextCode(lens, l), CountBelow(lens, s, l), MAXBITS - l);
    CountBelowMono(lens, s, |lens|, l);
    ShlSucc(CountBelow(lens, s, l), MAXBITS - l);
    ShlMono(CountBelow(lens, s, l) + 1, Count(lens, l), MAXBITS - l);
    KraftUptoMono(lens, l, MAXBITS);
    KraftByLength(lens);
  }

  /** Not over-subscribed: every code fits in its length. */
  lemma CodeFits(lens: seq<nat>, s: nat)
    requires s < |lens| && ValidLengths(lens) && lens[s] > 0
    requires Kraft(lens) <= Pow2(MAXBITS)
    ensures CodeOf(lens, s) < Pow2(lens[s])
  {
    var l, c := lens[s], CodeOf(lens, s);
    StartBounds(lens, s);
    ShlSucc(c, MAXBITS - l);
    ShlPow2(l, MAXBITS - l);
    ShlMono(c + 1, Pow2(l), MAXBITS - l);
  }

  /** Symbols in code order: by length, then by symbol. */
  predicate Before(lens: seq<nat>, s: nat, t: nat)
    requires s < |lens| && t < |lens|
  {
    lens[s] < lens[t] || (lens[s] == lens[t] && s < t)
  }

  /** Later symbols start after earlier ones end. */
  lemma Ordered(lens: seq<nat>, s: nat, t: nat)
    requires s < |lens| && t < |lens| && ValidLengths(lens)
    requires 0 < lens[s] && 0 < lens[t] && Before(lens, s, t)
    ensures Start(lens, s) + Size(lens, s) <= Start(lens, t)
  {
    StartBounds(lens, s);
    StartBounds(lens, t);
    var l := lens[s];
    if l < lens[t] {
      KraftUptoMono(lens, l, lens[t] - 1);
    } else {
      CountBelowMono(lens, s, t, l);
      ShlSucc(CountBelow(lens, s, l), MAXBITS - l);
      ShlMono(CountBelow(lens, s, l) + 1, CountBelow(lens, t, l), MAXBITS - l);
    }
  }

  /** The first 15 bits of a stream, most significant first. */
  function Word(z: nat): (w: nat)
    ensures w < Pow2(MAXBITS)
  {
    Rev(Low(z, MAXBITS), MAXBITS)
  }

  lemma LowOfWord(z: nat, l: nat)
    requires l <= MAXBITS
    ensures Low(z, l) == Rev(High(Word(z), MAXBITS - l), l)
    ensures High(Word(z), MAXBITS - l) < Pow2(l)
  {
    var x := Word(z);
    RevRev(Low(z, MAXBITS), MAXBITS);
    LowLow(z, l, MAXBITS);
    RevPrefix(x, MAXBITS, l);
    SplitWord(x, MAXBITS - l);
    ShlPow2(l, MAXBITS - l);
    ShlMono(High(x, MAXBITS - l), Pow2(l), MAXBITS - l);
  }

  /** A stream begins with a code exactly when its first 15 bits fall in the code's interval. */
  lemma MatchesInterval(lens: seq<nat>, s: nat, z: nat)
    requires s < |lens| && ValidLengths(lens) && lens[s] > 0
    requires Kraft(lens) <= Pow2(MAXBITS)
    ensures Matches(lens, s, z) <==> Start(lens, s) <= Word(z) < Start(lens, s) + Size(lens, s)
  {
    var l := lens[s];
    LowOfWord(z, l);
    CodeFits(lens, s);
    HighCell(Word(z), MAXBITS - l, CodeOf(lens, s));
    if Matches(lens, s, z) {
      RevInjective(High(Word(z), MAXBITS - l), CodeOf(lens, s), l);
    }
  }

  /** Prefix-freeness: no stream begins with two codes. */
  lemma PrefixFree(lens: seq<nat>, s: nat, t: nat, z: nat)
    requires s < |lens| && t < |lens| && ValidLengths(lens)
    requires Kraft(lens) <= Pow2(MAXBITS)
    requires Matches(lens, s, z) && Matches(lens, t, z)
    ensures s == t
  {
    MatchesInterval(lens, s, z);
    MatchesInterval(lens, t, z);
    if s != t {
      if Before(lens, s, t) { Ordered(lens, s, t); } else { Ordered(lens, t, s); }
    }
  }

  // ---------------------------------------------------------------- coverage

  /** The symbol of length l with index j among those of its length. */
  lemma {:induction false} SymbolAt(lens: seq<nat>, l: nat, j: nat) returns (s: nat)
    requires 1 <= l && j < Count(lens, l)
    ensures s < |lens| && lens[s] == l && CountBelow(lens, s, l) == j
  {
    s := SymbolAtBelow(lens, |lens|, l, j);
  }

  lemma {:induction false} SymbolAtBelow(lens: seq<nat>, n: nat, l: nat, j: nat) returns (s: nat)
    requires n <= |lens| && j < CountBelow(lens, n, l)
    ensures s < n && lens[s] == l && CountBelow(lens, s, l) == j
  {
    if lens[n - 1] == l && CountBelow(lens, n - 1, l) == j {
      s := n - 1;
    } else {
      s := SymbolAtBelow(lens, n - 1, l, j);
    }
  }

  /** Every word below the Kraft sum of lengths up to l lies in some symbol's interval. */
  lemma {:induction false} Covered(lens: seq<nat>, l: nat, x: nat) returns (s: nat)
    requires ValidLengths(lens) && l <= MAXBITS && x < KraftUpto(lens, l)
    ensures s < |lens| && lens[s] > 0 && Start(lens, s) <= x < Start(lens, s) + Size(lens, s)
  {
    if x < KraftUpto(lens, l - 1) {
      s := Covered(lens, l - 1, x);
    } else {
      var d := MAXBITS - l;
      var j := High(x - KraftUpto(lens, l - 1), d);
      SplitWord(x - KraftUpto(lens, l - 1), d);
      ShlMono(j, Count(lens, l), d);
      s := SymbolAt(lens, l, j);
      StartBounds(lens, s);
    }
  }

  /** A complete code decodes every stream. */
  lemma Complete(lens: seq<nat>, z: nat) returns (s: nat)
    requires ValidLengths(lens) && Kraft(lens) == Pow2(MAXBITS)
    ensures s < |lens| && Matches(lens, s, z)
  {
    KraftByLength(lens);
    s := Covered(lens, MAXBITS, Word(z));
    MatchesInterval(lens, s, z);
  }

  /** An incomplete code leaves some stream without a symbol. */
  lemma Incomplete(lens: seq<nat>) returns (z: nat)
    requires ValidLengths(lens) && Kraft(lens) < Pow2(MAXBITS)
    ensures forall s :: 0 <= s < |lens| ==> !Matches(lens, s, z)
  {
    z := Rev(Kraft(lens), MAXBITS);
    LowSmall(z, MAXBITS);
    RevRev(Kraft(lens), MAXBITS);
    forall s | 0 <= s < |lens| && lens[s] > 0
      ensures !Matches(lens, s, z)
    {
      StartBounds(lens, s);
      MatchesInterval(lens, s, z);
    }
  }

  // ---------------------------------------------------------------- code order

  /** The place of symbol s when symbols are sorted by length, then by symbol. */
  function Pos(lens: seq<nat>, s: nat): nat
    requires s < |lens| && lens[s] > 0
  {
    Upto(lens, lens[s] - 1) + CountBelow(lens, s, lens[s])
  }

  /** work lists exactly the symbols in use, in code order. */
  ghost predicate InOrder(lens: seq<nat>, work: seq<nat>)
  {
    && |work| == Upto(lens, MAXBITS)
    && forall k :: 0 <= k < |work| ==> work[k] < |lens| && lens[work[k]] > 0 && Pos(lens, work[k]) == k
  }

  lemma PosBounds(lens: seq<nat>, s: nat)
    requires s < |lens| && 0 < lens[s]
    ensures Upto(lens, lens[s] - 1) <= Pos(lens, s) < Upto(lens, lens[s])
  {
    CountBelowMono(lens, s, |lens|, lens[s]);
  }

  lemma PosOrder(lens: seq<nat>, s: nat, t: nat)
    requires s < |lens| && t < |lens| && 0 < lens[s] && 0 < lens[t]
    ensures Pos(lens, s) < Pos(lens, t) <==> Before(lens, s, t)
    ensures Pos(lens, s) == Pos(lens, t) ==> s == t
  {
    PosBounds(lens, s);
    PosBounds(lens, t);
    if lens[s] < lens[t] {
      UptoMono(lens, lens[s], lens[t] - 1);
    } else if lens[t] < lens[s] {
      UptoMono(lens, lens[t], lens[s] - 1);
    } else if s < t {
      CountBelowMono(lens, s, t, lens[s]);
    } else if t < s {
      CountBelowMono(lens, t, s, lens[s]);
    }
  }

  /** Every symbol in use is listed. */
  lemma Listed(lens: seq<nat>, work: seq<nat>, s: nat)
    requires ValidLengths(lens) && InOrder(lens, work) && s < |lens| && 0 < lens[s]
    ensures Pos(lens, s) < |work| && work[Pos(lens, s)] == s
  {
    PosBounds(lens, s);
    UptoMono(lens, lens[s], MAXBITS);
    PosOrder(lens, s, work[Pos(lens, s)]);
  }

  lemma {:induction false} NextCodeSkip(lens: seq<nat>, a: nat, b: nat)
    requires 1 <= a < b && Upto(lens, b - 1) == Upto(lens, a)
    ensures NextCode(lens, b) == Shl(NextCode(lens, a) + Count(lens, a), b - a)
  {
    if b > a + 1 {
      UptoMono(lens, a, b - 2);
      NextCodeSkip(lens, a, b - 1);
    } else {
      assert Shl(NextCode(lens, a) + Count(lens, a), 0) == NextCode(lens, a) + Count(lens, a);
    }
  }

  /** The next symbol's code is the increment of this one's, with zeros appended. */
  lemma NextInOrder(lens: seq<nat>, s: nat, t: nat)
    requires s < |lens| && t < |lens| && 0 < lens[s] && 0 < lens[t]
    requires Pos(lens, t) == Pos(lens, s) + 1
    ensures lens[s] <= lens[t]
    ensures CodeOf(lens, t) == Shl(CodeOf(lens, s) + 1, lens[t] - lens[s])
  {
    PosOrder(lens, s, t);
    PosBounds(lens, s);
    PosBounds(lens, t);
    if lens[s] < lens[t] {
      UptoMono(lens, lens[s], lens[t] - 1);
      NextCodeSkip(lens, lens[s], lens[t]);
    }
  }
}
