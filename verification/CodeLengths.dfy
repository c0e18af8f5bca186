/** The first half of inflate_table: counting code lengths, checking them, and sorting the symbols in use
    into code order. */
module CodeLengths {
  import opened Bits
  import opened Huffman

  // ---------------------------------------------------------------- counting sort

  method CountLengths(lens: seq<nat>) returns (count: array<nat>)
    requires ValidLengths(lens)
    ensures fresh(count) && count.Length == MAXBITS + 1
    ensures forall l :: 0 <= l <= MAXBITS ==> count[l] == Count(lens, l)
  {
    count := new nat[MAXBITS + 1](i => 0);
    for sym := 0 to |lens|
      invariant forall l :: 0 <= l <= MAXBITS ==> count[l] == CountBelow(lens, sym, l)
    {
      count[lens[sym]] := count[lens[sym]] + 1;
    }
  }

  lemma {:induction false} UptoPart(lens: seq<nat>, n: nat, l: nat)
    requires n <= |lens|
    ensures UptoBelow(lens, n, l) <= n
  {
    if n > 0 {
      UptoPart(lens, n - 1, l);
      UptoBelowStep(lens, n - 1, l);
    } else {
      UptoBelowZero(lens, l);
    }
  }

  function UptoBelow(lens: seq<nat>, n: nat, l: nat): nat
    requires n <= |lens|
  {
    if l == 0 then 0 else UptoBelow(lens, n, l - 1) + CountBelow(lens, n, l)
  }

  lemma {:induction false} UptoBelowZero(lens: seq<nat>, l: nat)
    ensures UptoBelow(lens, 0, l) == 0
  {
    if l > 0 { UptoBelowZero(lens, l - 1); }
  }

  lemma {:induction false} UptoBelowStep(lens: seq<nat>, n: nat, l: nat)
    requires n < |lens|
    ensures UptoBelow(lens, n + 1, l) == UptoBelow(lens, n, l) + (if 1 <= lens[n] <= l then 1 else 0)
  {
    if l > 0 { UptoBelowStep(lens, n, l - 1); }
  }

  lemma {:induction false} UptoFull(lens: seq<nat>, l: nat)
    ensures Upto(lens, l) == UptoBelow(lens, |lens|, l) <= |lens|
  {
    if l > 0 { UptoFull(lens, l - 1); }
    UptoPart(lens, |lens|, l);
  }

  /** The symbol at place k. */
  lemma {:induction false} AtPlace(lens: seq<nat>, l: nat, k: nat) returns (s: nat)
    requires k < Upto(lens, l)
    ensures s < |lens| && 0 < lens[s] && Pos(lens, s) == k
  {
    if k < Upto(lens, l - 1) {
      s := AtPlace(lens, l - 1, k);
    } else {
      s := SymbolAt(lens, l, k - Upto(lens, l - 1));
    }
  }

  method Offsets(lens: seq<nat>, count: array<nat>) returns (offs: array<nat>)
    requires count.Length == MAXBITS + 1
    requires forall l :: 0 <= l <= MAXBITS ==> count[l] == Count(lens, l)
    ensures fresh(offs) && offs.Length == MAXBITS + 1
    ensures forall l :: 1 <= l <= MAXBITS ==> offs[l] == Upto(lens, l - 1)
  {
    offs := new nat[MAXBITS + 1](i => 0);
    for len := 1 to MAXBITS
      invariant forall l :: 1 <= l <= len ==> offs[l] == Upto(lens, l - 1)
    {
      offs[len + 1] := offs[len] + count[len];
    }
  }

  /** Every symbol below n that is in use stands at its place. */
  ghost predicate Placing(lens: seq<nat>, work: seq<nat>, n: nat)
    requires n <= |lens|
  {
    forall s :: 0 <= s < n && lens[s] > 0 ==> Pos(lens, s) < |work| && work[Pos(lens, s)] == s
  }

  lemma PlacingNone(lens: seq<nat>, work: seq<nat>)
    ensures Placing(lens, work, 0)
  {
  }

  lemma PosIs(lens: seq<nat>, s: nat)
    requires s < |lens| && 0 < lens[s] <= MAXBITS
    ensures Pos(lens, s) == Upto(lens, lens[s] - 1) + CountBelow(lens, s, lens[s])
  {
  }

  lemma PlacingStep(lens: seq<nat>, work: seq<nat>, n: nat)
    requires n < |lens| && Placing(lens, work, n) && (lens[n] > 0 ==> Pos(lens, n) < |work|)
    ensures Placing(lens, if lens[n] > 0 then work[Pos(lens, n) := n] else work, n + 1)
  {
    forall s | 0 <= s < n && lens[s] > 0 && lens[n] > 0 ensures Pos(lens, s) != Pos(lens, n) {
      PosOrder(lens, s, n);
    }
  }

  lemma PlacingDone(lens: seq<nat>, work: seq<nat>)
    requires Placing(lens, work, |lens|) && Upto(lens, MAXBITS) <= |work|
    ensures InOrder(lens, work[..Upto(lens, MAXBITS)])
  {
    forall k | 0 <= k < Upto(lens, MAXBITS)
      ensures work[k] < |lens| && lens[work[k]] > 0 && Pos(lens, work[k]) == k
    {
      var s := AtPlace(lens, MAXBITS, k);
    }
  }

  method SortSymbols(lens: seq<nat>, count: array<nat>, work: array<nat>)
    requires ValidLengths(lens) && count.Length == MAXBITS + 1 && |lens| <= work.Length
    requires forall l :: 0 <= l <= MAXBITS ==> count[l] == Count(lens, l)
    modifies work
    ensures Upto(lens, MAXBITS) <= work.Length
    ensures InOrder(lens, work[..Upto(lens, MAXBITS)])
  {
    hide Upto, Pos, Placing, InOrder;
    var offs := Offsets(lens, count);
    UptoFull(lens, MAXBITS);
    assert Placing(lens, work[..], 0) by { PlacingNone(lens, work[..]); }
    for sym := 0 to |lens|
      invariant forall l :: 1 <= l <= MAXBITS ==> offs[l] == Upto(lens, l - 1) + CountBelow(lens, sym, l)
      invariant Placing(lens, work[..], sym)
    {
      ghost var w := work[..];
      if lens[sym] != 0 {
        PosBounds(lens, sym);
        PosIs(lens, sym);
        UptoMono(lens, lens[sym], MAXBITS);
        work[offs[lens[sym]]] := sym;
        assert work[..] == w[Pos(lens, sym) := sym];
        offs[lens[sym]] := offs[lens[sym]] + 1;
      }
      PlacingStep(lens, w, sym);
    }
    PlacingDone(lens, work[..]);
    assert work[..Upto(lens, MAXBITS)] == work[..][..Upto(lens, MAXBITS)];
  }

  // ---------------------------------------------------------------- checks on the lengths

  ghost predicate IsMax(lens: seq<nat>, max: nat)
  {
    (forall s :: 0 <= s < |lens| ==> lens[s] <= max) && (max > 0 ==> Count(lens, max) > 0)
  }

  ghost predicate IsMin(lens: seq<nat>, min: nat)
  {
    (forall s :: 0 <= s < |lens| && lens[s] > 0 ==> min <= lens[s]) && Count(lens, min) > 0
  }

  lemma CountPositive(lens: seq<nat>, s: nat)
    requires s < |lens|
    ensures Count(lens, lens[s]) > 0
  {
    CountBelowMono(lens, s, |lens|, lens[s]);
  }

  method Longest(lens: seq<nat>, count: array<nat>) returns (max: nat)
    requires ValidLengths(lens) && count.Length == MAXBITS + 1
    requires forall l :: 0 <= l <= MAXBITS ==> count[l] == Count(lens, l)
    ensures max <= MAXBITS && IsMax(lens, max)
  {
    max := MAXBITS;
    while max >= 1 && count[max] == 0
      invariant max <= MAXBITS
      invariant forall s :: 0 <= s < |lens| ==> lens[s] <= max
    {
      forall s | 0 <= s < |lens| ensures lens[s] != max { CountPositive(lens, s); }
      max := max - 1;
    }
  }

  method Shortest(lens: seq<nat>, count: array<nat>, max: nat) returns (min: nat)
    requires ValidLengths(lens) && count.Length == MAXBITS + 1
    requires forall l :: 0 <= l <= MAXBITS ==> count[l] == Count(lens, l)
    requires 1 <= max <= MAXBITS && IsMax(lens, max)
    ensures 1 <= min <= max && IsMin(lens, min)
  {
    min := 1;
    while min < max && count[min] == 0
      invariant 1 <= min <= max
      invariant forall s :: 0 <= s < |lens| && lens[s] > 0 ==> min <= lens[s]
    {
      forall s | 0 <= s < |lens| ensures lens[s] != min { CountPositive(lens, s); }
      min := min + 1;
    }
  }

  /** left is the code space that lengths up to l leave unused, in units of 2^-l. */
  ghost predicate Unused(lens: seq<nat>, l: nat, left: nat)
    requires l <= MAXBITS
  {
    KraftUpto(lens, l) + Shl(left, MAXBITS - l) == Pow2(MAXBITS)
  }

  lemma UnusedStart(lens: seq<nat>)
    ensures Unused(lens, 0, 1)
  {
    ShlPow2(0, MAXBITS);
  }

  lemma ShlDouble(x: nat, n: nat)
    requires n > 0
    ensures Shl(2 * x, n - 1) == Shl(x, n)
  {
    ShlAdd(x, x, n - 1);
  }

  lemma UnusedNext(lens: seq<nat>, l: nat, before: nat, left: nat)
    requires 1 <= l <= MAXBITS && Unused(lens, l - 1, before) && 2 * before == left + Count(lens, l)
    ensures Unused(lens, l, left)
  {
    ShlDouble(before, MAXBITS - l + 1);
    ShlAdd(left, Count(lens, l), MAXBITS - l);
  }

  lemma Oversubscribed(lens: seq<nat>, l: nat, before: nat)
    requires 1 <= l <= MAXBITS && Unused(lens, l - 1, before) && 2 * before < Count(lens, l)
    ensures KraftUpto(lens, MAXBITS) > Pow2(MAXBITS)
  {
    ShlDouble(before, MAXBITS - l + 1);
    ShlMono(2 * before, Count(lens, l), MAXBITS - l);
    KraftUptoMono(lens, l, MAXBITS);
  }

  /** The check for an over-subscribed set: left < 0 exactly when the Kraft sum exceeds one; otherwise
      left is the unused code space in units of 2^-15. */
  method CheckLengths(lens: seq<nat>, count: array<nat>) returns (left: int)
    requires ValidLengths(lens) && count.Length == MAXBITS + 1
    requires forall l :: 0 <= l <= MAXBITS ==> count[l] == Count(lens, l)
    ensures left < 0 <==> Kraft(lens) > Pow2(MAXBITS)
    ensures left >= 0 ==> left == Pow2(MAXBITS) - Kraft(lens)
  {
    KraftByLength(lens);
    UnusedStart(lens);
    left := 1;
    var len := 1;
    while len <= MAXBITS
      invariant 1 <= len <= MAXBITS + 1
      invariant left >= 0 && Unused(lens, len - 1, left)
    {
      ghost var before := left;
      left := left * 2;
      left := left - count[len];
      if left < 0 {
        Oversubscribed(lens, len, before);
        return;
      }
      UnusedNext(lens, len, before, left);
      len := len + 1;
    }
  }
}
