/** inflate_table: two-level lookup tables for a canonical code, built by one pass over the symbols in code
    order. The result is stated against the codes of section 3.2.2 of RFC 1951: looking up a bit stream
    yields the one symbol whose code the stream begins with. */
module InflateTable {
  import opened Bits
  import opened Huffman
  import opened DecodeTable
  import opened CodeLengths
  import opened TableFill
  import opened TableSize

  /** The entries of all symbols. */
  function Entries(kind: CodeType, lens: seq<nat>, root: nat): (ents: seq<Code>)
    requires |lens| <= MaxSymbols(kind)
    ensures |ents| == |lens|
  {
    seq(|lens|, s requires 0 <= s < |lens| => EntryOf(kind, s, EntryBits(lens[s], root)))
  }

  lemma EntriesGood(kind: CodeType, lens: seq<nat>, root: nat)
    requires |lens| <= MaxSymbols(kind) && ValidLengths(lens) && Kraft(lens) <= Pow2(MAXBITS) && root <= MAXBITS
    ensures GoodCode(lens, Entries(kind, lens, root), root)
  {
    forall s | 0 <= s < |lens| ensures !IsLink(EntryOf(kind, s, EntryBits(lens[s], root))) {
      EntryNotLink(kind, s, EntryBits(lens[s], root));
    }
  }

  /** The state between two symbols of the filling loop: symbols before k in code order are settled, and
      symbol k is ready to be filled in. */
  ghost predicate Filling(lens: seq<nat>, ents: seq<Code>, work: seq<nat>, t: seq<Code>, root: nat, p: Place, k: nat)
  {
    && GoodCode(lens, ents, root) && InOrder(lens, work) && k < |work|
    && Ready(lens, t, root, p, work[k])
    && (lens[work[k]] > root ==> Roomy(lens, work[k], root, p.curr))
    && SettledTo(lens, ents, work, t, root, p, k)
  }

  ghost predicate SettledTo(lens: seq<nat>, ents: seq<Code>, work: seq<nat>, t: seq<Code>, root: nat, p: Place, k: nat)
    requires |ents| == |lens| && InOrder(lens, work) && k <= |work|
  {
    forall i :: 0 <= i < k ==> Settled(lens, ents, t, root, p, work[i])
  }

  lemma LengthsInOrder(lens: seq<nat>, work: seq<nat>, i: nat, j: nat)
    requires InOrder(lens, work) && i < j < |work|
    ensures work[i] != work[j] && Before(lens, work[i], work[j])
  {
    PosOrder(lens, work[i], work[j]);
  }

  lemma FillingStart(lens: seq<nat>, ents: seq<Code>, work: seq<nat>, t: seq<Code>, root: nat)
    requires GoodCode(lens, ents, root) && InOrder(lens, work) && 0 < |work|
    requires lens[work[0]] <= root && Pow2(root) <= |t|
    ensures Filling(lens, ents, work, t, root, Place(0, root, 0, NO_SUBTABLE), 0)
  {
  }

  /** One symbol filled in. */
  lemma FillStep(lens: seq<nat>, ents: seq<Code>, work: seq<nat>, t: seq<Code>, t': seq<Code>, root: nat, p: Place,
                 k: nat)
    requires Filling(lens, ents, work, t, root, p, k) && FillOf(lens, ents, t, t', root, p, work[k])
    ensures Filling(lens, ents, work, t', root, p, k) && SettledTo(lens, ents, work, t', root, p, k + 1)
  {
    FillPlaces(lens, ents, t, t', root, p, work[k]);
    forall i | 0 <= i < k ensures Settled(lens, ents, t', root, p, work[i]) {
      LengthsInOrder(lens, work, i, k);
      FillKeeps(lens, ents, t, t', root, p, work[k], work[i]);
    }
  }

  /** The next symbol goes to the same table. */
  lemma SameTable(lens: seq<nat>, ents: seq<Code>, work: seq<nat>, t: seq<Code>, root: nat, p: Place, k: nat)
    requires Filling(lens, ents, work, t, root, p, k) && SettledTo(lens, ents, work, t, root, p, k + 1)
    requires k + 1 < |work|
    requires lens[work[k + 1]] <= root || Prefix(lens, work[k + 1], root) == p.low
    ensures Filling(lens, ents, work, t, root, p, k + 1)
  {
    LengthsInOrder(lens, work, k, k + 1);
    NoSubtable(root);
  }

  /** First bits that differ from the previous symbol's have not been seen before. */
  lemma FreshPrefix(lens: seq<nat>, work: seq<nat>, root: nat, i: nat, k: nat)
    requires ValidLengths(lens) && Kraft(lens) <= Pow2(MAXBITS) && InOrder(lens, work) && i <= k < k + 1 < |work|
    requires lens[work[i]] > root && lens[work[k]] > root && lens[work[k + 1]] > root
    requires Prefix(lens, work[k + 1], root) != Prefix(lens, work[k], root)
    ensures Prefix(lens, work[i], root) != Prefix(lens, work[k + 1], root)
  {
    if i < k && Prefix(lens, work[i], root) == Prefix(lens, work[k + 1], root) {
      LengthsInOrder(lens, work, i, k);
      LengthsInOrder(lens, work, k, k + 1);
      Between(lens, work[i], work[k], work[k + 1], root);
    }
  }

  lemma NewTableKeeps(lens: seq<nat>, ents: seq<Code>, work: seq<nat>, t: seq<Code>, root: nat, p: Place, p': Place,
                      k: nat, i: nat)
    requires Filling(lens, ents, work, t, root, p, k) && SettledTo(lens, ents, work, t, root, p, k + 1)
    requires k + 1 < |work|
    requires lens[work[k + 1]] > root && Prefix(lens, work[k + 1], root) != p.low
    requires p' == Place(p.next + Pow2(p.curr), p'.curr, root, Prefix(lens, work[k + 1], root))
    requires i <= k
    ensures Settled(lens, ents, t[p'.low := Code(p'.curr, root, p'.next)], root, p', work[i])
  {
    LengthsInOrder(lens, work, i, k + 1);
    if lens[work[i]] > root {
      if i < k { LengthsInOrder(lens, work, i, k); }
      FreshPrefix(lens, work, root, i, k);
    }
    LinkKeeps(lens, ents, t, root, p, p', work[k + 1], work[i]);
  }

  /** The next symbol starts a sub-table. */
  lemma NewTable(lens: seq<nat>, ents: seq<Code>, work: seq<nat>, t: seq<Code>, root: nat, p: Place, p': Place, k: nat)
    requires Filling(lens, ents, work, t, root, p, k) && SettledTo(lens, ents, work, t, root, p, k + 1)
    requires k + 1 < |work|
    requires lens[work[k + 1]] > root && Prefix(lens, work[k + 1], root) != p.low
    requires p' == Place(p.next + Pow2(p.curr), p'.curr, root, Prefix(lens, work[k + 1], root))
    requires p'.next + Pow2(p'.curr) <= |t| && lens[work[k + 1]] - root <= p'.curr && root + p'.curr <= MAXBITS
    requires Roomy(lens, work[k + 1], root, p'.curr)
    ensures Filling(lens, ents, work, t[p'.low := Code(p'.curr, root, p'.next)], root, p', k + 1)
  {
    forall i | 0 <= i <= k
      ensures Settled(lens, ents, t[p'.low := Code(p'.curr, root, p'.next)], root, p', work[i])
    {
      NewTableKeeps(lens, ents, work, t, root, p, p', k, i);
    }
  }

  /** All symbols settled: every stream that begins with a code decodes to its symbol. */
  lemma AllSettled(lens: seq<nat>, ents: seq<Code>, work: seq<nat>, t: seq<Code>, root: nat, p: Place, s: nat, z: nat)
    requires GoodCode(lens, ents, root) && InOrder(lens, work) && SettledTo(lens, ents, work, t, root, p, |work|)
    requires s < |lens| && Matches(lens, s, z)
    ensures Lookup(t, root, z) == Hit(ents[s], lens[s]) && Reach(t, root, z) <= MAXBITS && LinkDrops(t, root, z)
  {
    Listed(lens, work, s);
    PlacedDecodes(lens, ents, t, root, s, z);
  }

  /** The count of codes of the current length, after one more is done. */
  lemma RemainingStep(lens: seq<nat>, work: seq<nat>, k: nat, l: nat)
    requires ValidLengths(lens) && InOrder(lens, work) && k < |work| && lens[work[k]] <= l <= MAXBITS
    ensures Remaining(lens, k + 1, l) == Remaining(lens, k, l) - (if l == lens[work[k]] then 1 else 0)
  {
    PosBounds(lens, work[k]);
    if lens[work[k]] < l { UptoMono(lens, lens[work[k]], l - 1); }
  }

  /** When the codes of a length run out, the next symbol is longer, or there is none. */
  lemma NextLength(lens: seq<nat>, work: seq<nat>, k: nat, max: nat)
    requires ValidLengths(lens) && InOrder(lens, work) && k < |work| && IsMax(lens, max) && max <= MAXBITS
    ensures Remaining(lens, k + 1, lens[work[k]]) > 0 ==> k + 1 < |work| && lens[work[k + 1]] == lens[work[k]]
    ensures Remaining(lens, k + 1, lens[work[k]]) == 0 ==> (lens[work[k]] == max <==> k + 1 == |work|)
  {
    var l := lens[work[k]];
    PosBounds(lens, work[k]);
    UptoMono(lens, l, MAXBITS);
    if k + 1 < |work| {
      LengthsInOrder(lens, work, k, k + 1);
      PosBounds(lens, work[k + 1]);
      if l < lens[work[k + 1]] { UptoMono(lens, l, lens[work[k + 1]] - 1); }
    }
    if l < max {
      UptoMono(lens, l, max - 1);
      UptoMono(lens, max, MAXBITS);
    }
  }

  // ---------------------------------------------------------------- the builder

  /** No room: the size check that guards the literal/length and distance tables. */
  predicate TooLarge(kind: CodeType, used: nat)
  {
    (kind == LENS && used > ENOUGH_LENS) || (kind == DISTS && used > ENOUGH_DISTS)
  }

  /** What the caller provides: space for ENOUGH entries, or, when no code is longer than the root index,
      room for the root table. */
  ghost predicate Space(kind: CodeType, lens: seq<nat>, bits: nat, size: nat)
  {
    || (kind == LENS && ENOUGH_LENS <= size)
    || (kind == DISTS && ENOUGH_DISTS <= size)
    || ((forall s :: 0 <= s < |lens| ==> lens[s] <= bits) && Pow2(bits) <= size && 2 <= size)
  }

  /** When there is no room: the table takes more entries than the constant for its kind allows. */
  predicate Overflows(kind: CodeType, lens: seq<nat>, root: nat)
  {
    TooLarge(kind, EntryCount(lens, root))
  }

  /** Only a complete code has sub-tables. */
  ghost predicate CompleteOrShort(lens: seq<nat>, root: nat)
  {
    (ValidLengths(lens) && Kraft(lens) == Pow2(MAXBITS)) || forall s :: 0 <= s < |lens| ==> lens[s] <= root
  }

  /** A symbol whose first bits differ from those of the symbol before it is the first with these bits. */
  lemma NewPrefix(lens: seq<nat>, ents: seq<Code>, order: seq<nat>, t: seq<Code>, root: nat, p: Place, k: nat)
    requires Filling(lens, ents, order, t, root, p, k) && k + 1 < |order|
    requires lens[order[k + 1]] > root && Prefix(lens, order[k + 1], root) != p.low
    ensures Aligned(lens, order[k + 1], root)
    ensures forall i :: 0 <= i < k + 1 && lens[order[i]] > root ==>
              Prefix(lens, order[i], root) != Prefix(lens, order[k + 1], root)
  {
    hide SettledTo, Roomy, Kraft, Pos, Prefix, Aligned, Pow2;
    FirstOfCell(lens, order[k], order[k + 1], root);
    forall i | 0 <= i < k + 1 && lens[order[i]] > root
      ensures Prefix(lens, order[i], root) != Prefix(lens, order[k + 1], root)
    {
      if i < k { LengthsInOrder(lens, order, i, k); }
      FreshPrefix(lens, order, root, i, k);
    }
  }

  lemma UsedOn(lens: seq<nat>, ents: seq<Code>, order: seq<nat>, t: seq<Code>, root: nat, p: Place, k: nat, used: nat)
    requires Filling(lens, ents, order, t, root, p, k) && k + 1 < |order| && UsedBy(lens, order, root, k + 1, used)
    requires lens[order[k + 1]] <= root || Prefix(lens, order[k + 1], root) == p.low
    ensures UsedBy(lens, order, root, k + 2, used)
  {
    hide SettledTo, Roomy, Kraft, Prefix, UsedBy, Pow2;
    NoSubtable(root);
    PrefixBound(lens, order[k + 1], root);
    UsedSame(lens, order, root, k + 1, used);
  }

  lemma PrefixBound(lens: seq<nat>, s: nat, root: nat)
    requires s < |lens|
    ensures Prefix(lens, s, root) < Pow2(root)
  {
  }

  /** More entries in use than are allowed: the whole table takes too many. */
  lemma OverflowIf(kind: CodeType, lens: seq<nat>, order: seq<nat>, root: nat, k: nat, used: nat)
    requires UsedBy(lens, order, root, k, used) && TooLarge(kind, used)
    ensures Overflows(kind, lens, root)
  {
    hide UsedBy, EntryCount;
    UsedAtMost(lens, order, root, k, used);
  }

  lemma BackIncNext(lens: seq<nat>, work: seq<nat>, k: nat)
    requires ValidLengths(lens) && Kraft(lens) <= Pow2(MAXBITS) && InOrder(lens, work) && k + 1 < |work|
    ensures BackInc(BitsOf(lens, work[k]), lens[work[k]]) == BitsOf(lens, work[k + 1])
  {
    var s, t := work[k], work[k + 1];
    CodeFits(lens, s);
    BackIncCode(CodeOf(lens, s), lens[s]);
    NextInOrder(lens, s, t);
    RevShift(CodeOf(lens, s) + 1, lens[s], lens[t] - lens[s]);
  }

  /** The base of a replication fits its width. */
  lemma BaseFits(lens: seq<nat>, t: seq<Code>, root: nat, p: Place, s: nat)
    requires s < |lens| && 0 < lens[s] && Ready(lens, t, root, p, s)
    ensures p.drop <= lens[s] && lens[s] - p.drop == EntryBits(lens[s], root) <= p.curr
    ensures High(BitsOf(lens, s), p.drop) < Pow2(lens[s] - p.drop)
  {
    if lens[s] > root {
      HighFits(BitsOf(lens, s), lens[s], lens[s] - root);
    }
  }

  /** Create the table entry of one symbol and replicate it. */
  method FillSymbol(kind: CodeType, lens: seq<nat>, table: array<Code>, sym: nat, huff: nat, root: nat, p: Place,
                    ghost ents: seq<Code>, ghost order: seq<nat>, ghost k: nat)
    requires |lens| <= MaxSymbols(kind) && ents == Entries(kind, lens, root)
    requires Filling(lens, ents, order, table[..], root, p, k)
    requires sym == order[k] && huff == BitsOf(lens, sym)
    modifies table
    ensures Filling(lens, ents, order, table[..], root, p, k) && SettledTo(lens, ents, order, table[..], root, p, k + 1)
    ensures forall q :: p.next + Pow2(p.curr) <= q < table.Length ==> table[q] == old(table[q])
  {
    hide SettledTo, Settled, BitsOf, Low, High, Kraft, Roomy, EntryOf;
    BaseFits(lens, table[..], root, p, sym);
    var w := lens[sym] - p.drop;
    var here := EntryOf(kind, sym, w);
    Replicate(table, p.next, p.curr, w, High(huff, p.drop), here);
    ghost var t, t', end := old(table[..]), table[..], p.next + Pow2(p.curr);
    FillStep(lens, ents, order, t, t', root, p, k);
    forall q | end <= q < table.Length ensures table[q] == old(table[q]) {
      assert t'[end..][q - end] == t[end..][q - end];
    }
  }

  /** Move to the table of symbol k: the current one, or a new sub-table after it. */
  method NextTable(kind: CodeType, lens: seq<nat>, count: array<nat>, table: array<Code>, sym: nat, huff: nat,
                   root: nat, max: nat, p: Place, ghost ents: seq<Code>, ghost order: seq<nat>, ghost k: nat)
    returns (ok: bool, p': Place)
    requires 1 <= k < |order| && Filling(lens, ents, order, table[..], root, p, k - 1)
    requires SettledTo(lens, ents, order, table[..], root, p, k) && sym == order[k] && huff == BitsOf(lens, sym)
    requires IsMax(lens, max) && max <= MAXBITS && Counts(lens, count[..], k, lens[sym])
    requires Space(kind, lens, root, table.Length) && Pow2(root) <= p.next + Pow2(p.curr)
    requires CompleteOrShort(lens, root) && UsedBy(lens, order, root, k, p.next + Pow2(p.curr))
    requires !TooLarge(kind, p.next + Pow2(p.curr))
    modifies table
    ensures ok ==> Filling(lens, ents, order, table[..], root, p', k)
    ensures ok ==> p.next + Pow2(p.curr) <= p'.next + Pow2(p'.curr) <= table.Length
    ensures forall q :: p.next + Pow2(p.curr) <= q < table.Length ==> table[q] == old(table[q])
    ensures !ok ==> Overflows(kind, lens, root) && p' == p
    ensures ok ==> UsedBy(lens, order, root, k + 1, p'.next + Pow2(p'.curr)) && !TooLarge(kind, p'.next + Pow2(p'.curr))
  {
    hide *;
    ok, p' := true, p;
    NextBits(lens, ents, order, table[..], root, p, k - 1, huff);
    if lens[sym] > root && Low(huff, root) != p.low {
      NewPrefix(lens, ents, order, table[..], root, p, k - 1);
      CompleteIf(lens, ents, order, table[..], root, p, k - 1);
      AtMostMax(lens, max, sym);
      var curr := SubtableBits(lens, count, sym, root, max);
      ok, p' := Subtable(kind, lens, table, huff, root, curr, p, ents, order, k);
    } else {
      SameTable(lens, ents, order, table[..], root, p, k - 1);
      UsedOn(lens, ents, order, table[..], root, p, k - 1, p.next + Pow2(p.curr));
    }
  }

  lemma NextBits(lens: seq<nat>, ents: seq<Code>, order: seq<nat>, t: seq<Code>, root: nat, p: Place, k: nat, huff: nat)
    requires Filling(lens, ents, order, t, root, p, k) && k + 1 < |order| && huff == BitsOf(lens, order[k + 1])
    ensures ValidLengths(lens) && Kraft(lens) <= Pow2(MAXBITS) && lens[order[k + 1]] <= MAXBITS
    ensures order[k + 1] < |lens| && Prefix(lens, order[k + 1], root) == Low(huff, root)
    ensures Pos(lens, order[k + 1]) == k + 1
    ensures p.next + Pow2(p.curr) <= |t|
  {
    hide SettledTo, Kraft, Pos, BitsOf, Roomy;
  }

  lemma CompleteIf(lens: seq<nat>, ents: seq<Code>, order: seq<nat>, t: seq<Code>, root: nat, p: Place, k: nat)
    requires Filling(lens, ents, order, t, root, p, k) && k + 1 < |order| && lens[order[k + 1]] > root
    requires CompleteOrShort(lens, root)
    ensures Kraft(lens) == Pow2(MAXBITS)
  {
    hide SettledTo, Kraft, Pos, BitsOf, Roomy;
  }

  lemma AtMostMax(lens: seq<nat>, max: nat, s: nat)
    requires IsMax(lens, max) && s < |lens|
    ensures lens[s] <= max
  {
  }

  /** Begin a sub-table of curr index bits, if there is room for it. */
  method Subtable(kind: CodeType, lens: seq<nat>, table: array<Code>, huff: nat, root: nat, curr: nat, p: Place,
                  ghost ents: seq<Code>, ghost order: seq<nat>, ghost k: nat)
    returns (ok: bool, p': Place)
    requires 1 <= k < |order| && Filling(lens, ents, order, table[..], root, p, k - 1)
    requires SettledTo(lens, ents, order, table[..], root, p, k) && huff == BitsOf(lens, order[k])
    requires lens[order[k]] > root && Low(huff, root) != p.low && lens[order[k]] <= root + curr <= MAXBITS
    requires Roomy(lens, order[k], root, curr) && Needed(lens, order[k], root, curr)
    requires forall i :: 0 <= i < k && lens[order[i]] > root ==>
              Prefix(lens, order[i], root) != Prefix(lens, order[k], root)
    requires Space(kind, lens, root, table.Length) && Pow2(root) <= p.next + Pow2(p.curr)
    requires UsedBy(lens, order, root, k, p.next + Pow2(p.curr)) && !TooLarge(kind, p.next + Pow2(p.curr))
    modifies table
    ensures ok ==> Filling(lens, ents, order, table[..], root, p', k)
    ensures ok ==> p.next + Pow2(p.curr) <= p'.next + Pow2(p'.curr) <= table.Length
    ensures forall q :: p.next + Pow2(p.curr) <= q < table.Length ==> table[q] == old(table[q])
    ensures ok ==> UsedBy(lens, order, root, k + 1, p'.next + Pow2(p'.curr)) && !TooLarge(kind, p'.next + Pow2(p'.curr))
    ensures !ok ==> Overflows(kind, lens, root) && p' == p
  {
    hide *;
    ok, p' := true, p;
    NextBits(lens, ents, order, table[..], root, p, k - 1, huff);
    PrefixBound(lens, order[k], root);
    DropIs(lens, ents, order, table[..], root, p, k - 1);
    var drop := if p.drop == 0 then root else p.drop;
    var next := p.next + Pow2(p.curr);
    UsedMore(lens, order, root, k, next, curr);
    if TooLarge(kind, next + Pow2(curr)) {
      ok := false;
      OverflowIf(kind, lens, order, root, k + 1, next + Pow2(curr));
      return;
    }
    SubtableFits(kind, lens, root, table.Length, order[k], next + Pow2(curr));
    var low := Low(huff, root);
    p' := Place(next, curr, drop, low);
    ghost var t := table[..];
    NewTable(lens, ents, order, t, root, p, p', k - 1);
    table[low] := Code(curr, root, next);
    assert table[..] == t[low := Code(curr, root, next)];
  }

  lemma DropIs(lens: seq<nat>, ents: seq<Code>, order: seq<nat>, t: seq<Code>, root: nat, p: Place, k: nat)
    requires Filling(lens, ents, order, t, root, p, k)
    ensures p.drop == 0 || p.drop == root
  {
    hide SettledTo, Kraft, Pos, BitsOf, Roomy, Prefix;
  }

  /** Where the size check passes, there is room. */
  lemma SubtableFits(kind: CodeType, lens: seq<nat>, root: nat, size: nat, s: nat, used: nat)
    requires Space(kind, lens, root, size) && s < |lens| && lens[s] > root && !TooLarge(kind, used)
    ensures used <= size
  {
  }

  lemma RootPlace(lens: seq<nat>, ents: seq<Code>, work: seq<nat>, t: seq<Code>, root: nat, p: Place, k: nat)
    requires Filling(lens, ents, work, t, root, p, k) && lens[work[k]] <= root
    ensures p == Place(0, root, 0, NO_SUBTABLE)
  {
  }

  /** The loop state at symbol k of the code order. */
  ghost predicate AtSymbol(lens: seq<nat>, ents: seq<Code>, order: seq<nat>, t: seq<Code>, count: seq<nat>, root: nat,
                           p: Place, k: nat, len: nat, huff: nat)
  {
    && Filling(lens, ents, order, t, root, p, k)
    && len == lens[order[k]] && huff == BitsOf(lens, order[k])
    && Counts(lens, count, k, len)
    && Pow2(root) <= p.next + Pow2(p.curr) <= |t|
    && UsedBy(lens, order, root, k + 1, p.next + Pow2(p.curr))
  }

  /** The state after the last symbol. */
  ghost predicate AllFilled(lens: seq<nat>, ents: seq<Code>, order: seq<nat>, t: seq<Code>, root: nat, p: Place,
                            len: nat, huff: nat)
  {
    && |lens| == |ents| && InOrder(lens, order) && 0 < |order| && SettledTo(lens, ents, order, t, root, p, |order|)
    && len == lens[order[|order| - 1]] && huff == BackInc(BitsOf(lens, order[|order| - 1]), len)
    && (len <= root ==> p == Place(0, root, 0, NO_SUBTABLE))
    && Pow2(root) <= p.next + Pow2(p.curr) <= |t|
    && UsedBy(lens, order, root, |order|, p.next + Pow2(p.curr))
  }

  /** Go to the next symbol: increment the code, update the count and the length. */
  method Advance(lens: seq<nat>, work: array<nat>, count: array<nat>, sym: nat, len: nat, huff: nat, max: nat,
                 ghost order: seq<nat>)
    returns (done: bool, len': nat, huff': nat)
    requires ValidLengths(lens) && Kraft(lens) <= Pow2(MAXBITS) && InOrder(lens, order) && sym < |order| <= work.Length
    requires work[..|order|] == order && count != work && IsMax(lens, max) && max <= MAXBITS
    requires len == lens[order[sym]] && huff == BitsOf(lens, order[sym]) && Counts(lens, count[..], sym, len)
    modifies count
    ensures done <==> sym + 1 == |order|
    ensures done ==> len' == len && huff' == BackInc(huff, len)
    ensures !done ==> len' == lens[order[sym + 1]] && huff' == BitsOf(lens, order[sym + 1])
    ensures !done ==> Counts(lens, count[..], sym + 1, len')
  {
    hide IsMax, BackInc, BitsOf;
    done, len' := false, len;
    huff' := BackwardsIncrement(huff, len);
    CountsStep(lens, order, count[..], sym);
    NextLength(lens, order, sym, max);
    ghost var before := count[..];
    count[len] := count[len] - 1;
    assert count[..] == before[len := before[len] - 1];
    if count[len] == 0 {
      if len == max {
        done := true;
        return;
      }
      LengthsInOrder(lens, order, sym, sym + 1);
      len' := lens[work[sym + 1]];
    }
    BackIncNext(lens, order, sym);
  }

  /** Process one symbol. */
  method Process(kind: CodeType, lens: seq<nat>, work: array<nat>, count: array<nat>, table: array<Code>,
                 root: nat, max: nat, sym: nat, len: nat, huff: nat, p: Place,
                 ghost ents: seq<Code>, ghost order: seq<nat>)
    returns (done: bool, ok: bool, len': nat, huff': nat, p': Place)
    requires |lens| <= MaxSymbols(kind) && ents == Entries(kind, lens, root) && |order| <= work.Length
    requires work[..|order|] == order && count != work && IsMax(lens, max) && max <= MAXBITS
    requires Space(kind, lens, root, table.Length) && CompleteOrShort(lens, root)
    requires !TooLarge(kind, p.next + Pow2(p.curr))
    requires AtSymbol(lens, ents, order, table[..], count[..], root, p, sym, len, huff)
    modifies count, table
    ensures !done ==> sym + 1 < |order|
    ensures !done ==> AtSymbol(lens, ents, order, table[..], count[..], root, p', sym + 1, len', huff')
    ensures !done ==> p.next + Pow2(p.curr) <= p'.next + Pow2(p'.curr) && !TooLarge(kind, p'.next + Pow2(p'.curr))
    ensures done && ok ==> AllFilled(lens, ents, order, table[..], root, p', len', huff') && p' == p
    ensures done && !ok ==> Overflows(kind, lens, root) && p' == p
    ensures forall q :: p.next + Pow2(p.curr) <= q < table.Length ==> table[q] == old(table[q])
  {
    hide Space, IsMax, BackInc, BitsOf, Counts, Kraft, Settled, Entries, Roomy, Ready, UsedBy, Overflows,
      CompleteOrShort;
    FillSymbol(kind, lens, table, work[sym], huff, root, p, ents, order, sym);
    ok, p' := true, p;
    done, len', huff' := Advance(lens, work, count, sym, len, huff, max, order);
    if !done {
      ok, p' := NextTable(kind, lens, count, table, work[sym + 1], huff', root, max, p, ents, order, sym + 1);
      done := !ok;
    } else if len <= root {
      RootPlace(lens, ents, order, table[..], root, p, sym);
    }
  }

  /** The state before the first symbol. */
  lemma FirstSymbol(lens: seq<nat>, ents: seq<Code>, order: seq<nat>, t: seq<Code>, count: seq<nat>, root: nat)
    requires GoodCode(lens, ents, root) && InOrder(lens, order) && 0 < |order| && lens[order[0]] <= root
    requires Counts(lens, count, 0, 1) && Pow2(root) <= |t|
    ensures order[0] < |lens|
    ensures AtSymbol(lens, ents, order, t, count, root, Place(0, root, 0, NO_SUBTABLE), 0, lens[order[0]], 0)
  {
    FirstBits(lens, order);
    FillingStart(lens, ents, order, t, root);
    UsedFirst(lens, order, root);
  }

  /** Process all codes and make table entries. */
  method FillTables(kind: CodeType, lens: seq<nat>, work: array<nat>, count: array<nat>, table: array<Code>,
                    root: nat, max: nat, ghost ents: seq<Code>, ghost order: seq<nat>)
    returns (ok: bool, used: nat, huff: nat, len: nat, place: Place)
    requires |lens| <= MaxSymbols(kind) && GoodCode(lens, ents, root) && ents == Entries(kind, lens, root)
    requires InOrder(lens, order) && |order| <= work.Length && work[..|order|] == order && 0 < |order|
    requires IsMax(lens, max) && max <= MAXBITS && lens[order[0]] <= root <= max
    requires count != work && Counts(lens, count[..], 0, 1)
    requires Space(kind, lens, root, table.Length) && Pow2(root) <= table.Length
    requires CompleteOrShort(lens, root) && !TooLarge(kind, Pow2(root))
    modifies count, table
    ensures ok ==> AllFilled(lens, ents, order, table[..], root, place, len, huff)
    ensures ok ==> used == place.next + Pow2(place.curr)
    ensures ok ==> forall q :: used <= q < table.Length ==> table[q] == old(table[q])
    ensures ok ==> !TooLarge(kind, used)
    ensures !ok ==> Overflows(kind, lens, root)
  {
    hide *;
    FirstSymbol(lens, ents, order, table[..], count[..], root);
    var sym: nat := 0;
    len := lens[work[0]];
    place := Place(0, root, 0, NO_SUBTABLE);
    huff := 0;
    ok := true;
    used := Pow2(root);
    var done := false;
    while !done
      invariant sym < |order|
      invariant !done ==> AtSymbol(lens, ents, order, table[..], count[..], root, place, sym, len, huff)
      invariant done && ok ==> AllFilled(lens, ents, order, table[..], root, place, len, huff)
      invariant done && !ok ==> Overflows(kind, lens, root)
      invariant !TooLarge(kind, used)
      invariant used == place.next + Pow2(place.curr)
      invariant forall q :: used <= q < table.Length ==> table[q] == old(table[q])
      decreases !done, |order| - sym
    {
      done, ok, len, huff, place := Process(kind, lens, work, count, table, root, max, sym, len, huff, place, ents,
                                            order);
      if !done { sym := sym + 1; }
      used := place.next + Pow2(place.curr);
    }
  }

  lemma CountsStep(lens: seq<nat>, work: seq<nat>, count: seq<nat>, k: nat)
    requires ValidLengths(lens) && InOrder(lens, work) && k < |work| && Counts(lens, count, k, lens[work[k]])
    ensures count[lens[work[k]]] > 0
    ensures count[lens[work[k]]] - 1 == Remaining(lens, k + 1, lens[work[k]])
    ensures Counts(lens, count[lens[work[k]] := count[lens[work[k]]] - 1], k + 1, lens[work[k]])
  {
    var m := lens[work[k]];
    forall l | m <= l <= MAXBITS
      ensures Remaining(lens, k + 1, l) == Remaining(lens, k, l) - (if l == m then 1 else 0)
    {
      RemainingStep(lens, work, k, l);
    }
  }

  lemma FirstBits(lens: seq<nat>, order: seq<nat>)
    requires InOrder(lens, order) && 0 < |order|
    ensures BitsOf(lens, order[0]) == 0
  {
    var s := order[0];
    if lens[s] > 1 { NextCodeZero(lens, lens[s]); }
    RevZero(lens[s]);
  }

  lemma {:induction false} NextCodeZero(lens: seq<nat>, l: nat)
    requires l >= 1 && Upto(lens, l - 1) == 0
    ensures NextCode(lens, l) == 0
  {
    if l > 1 { NextCodeZero(lens, l - 1); }
  }

  lemma {:induction false} RevZero(n: nat)
    ensures Rev(0, n) == 0
  {
    if n > 0 { RevZero(n - 1); }
  }

  lemma FirstCounts(lens: seq<nat>, count: seq<nat>)
    requires |count| == MAXBITS + 1 && forall l :: 0 <= l <= MAXBITS ==> count[l] == Count(lens, l)
    ensures Counts(lens, count, 0, 1)
  {
  }

  /** Some symbol has a code. */
  ghost predicate SomeCode(lens: seq<nat>)
  {
    exists s :: 0 <= s < |lens| && lens[s] > 0
  }

  /** The lengths that inflate_table refuses: over-subscribed, or incomplete where that is not allowed (a
      single one-bit code is, except for the code-length code). */
  ghost predicate Refused(kind: CodeType, lens: seq<nat>)
    requires ValidLengths(lens)
  {
    && SomeCode(lens)
    && (|| Kraft(lens) > Pow2(MAXBITS)
        || (Kraft(lens) < Pow2(MAXBITS) && (kind == CODES || exists s :: 0 <= s < |lens| && lens[s] > 1)))
  }

  lemma MaxFacts(lens: seq<nat>, max: nat)
    requires IsMax(lens, max) && ValidLengths(lens)
    ensures max > 0 <==> SomeCode(lens)
    ensures max > 1 <==> exists s :: 0 <= s < |lens| && lens[s] > 1
    ensures max > 0 ==> 0 < Upto(lens, MAXBITS)
    ensures forall kind :: Refused(kind, lens) <==>
      max > 0 && (Kraft(lens) > Pow2(MAXBITS) || (Kraft(lens) < Pow2(MAXBITS) && (kind == CODES || max != 1)))
  {
    if max > 0 {
      var s := SymbolAt(lens, max, 0);
      PosBounds(lens, s);
      UptoMono(lens, max, MAXBITS);
    }
  }

  lemma {:induction false} KraftFlat(lens: seq<nat>, a: nat, b: nat)
    requires a <= b <= MAXBITS && Upto(lens, a) == Upto(lens, b)
    ensures KraftUpto(lens, a) == KraftUpto(lens, b)
    decreases b
  {
    if a < b {
      UptoMono(lens, a, b - 1);
      KraftFlat(lens, a, b - 1);
      ShlAdd(0, 0, MAXBITS - b);
    }
  }

  /** The last code ends where the Kraft sum does. */
  lemma LastEnd(lens: seq<nat>, work: seq<nat>)
    requires ValidLengths(lens) && InOrder(lens, work) && 0 < |work|
    ensures Start(lens, work[|work| - 1]) + Size(lens, work[|work| - 1]) == Kraft(lens)
  {
    var s := work[|work| - 1];
    var l := lens[s];
    StartBounds(lens, s);
    PosBounds(lens, s);
    UptoMono(lens, l, MAXBITS);
    KraftFlat(lens, l, MAXBITS);
    KraftByLength(lens);
    ShlSucc(CountBelow(lens, s, l), MAXBITS - l);
  }

  /** A complete code ends with the all-ones code. */
  lemma LastIsOnes(lens: seq<nat>, work: seq<nat>)
    requires ValidLengths(lens) && Kraft(lens) == Pow2(MAXBITS) && InOrder(lens, work) && 0 < |work|
    ensures CodeOf(lens, work[|work| - 1]) + 1 == Pow2(lens[work[|work| - 1]])
  {
    var s := work[|work| - 1];
    var l, c := lens[s], CodeOf(lens, s);
    LastEnd(lens, work);
    ShlSucc(c, MAXBITS - l);
    ShlPow2(l, MAXBITS - l);
    ShlMono(Pow2(l), c + 1, MAXBITS - l);
    ShlMono(c + 1, Pow2(l), MAXBITS - l);
  }

  /** The increment of the last code of a complete code is zero. */
  lemma LastOfComplete(lens: seq<nat>, work: seq<nat>)
    requires ValidLengths(lens) && Kraft(lens) == Pow2(MAXBITS) && InOrder(lens, work) && 0 < |work|
    ensures BackInc(BitsOf(lens, work[|work| - 1]), lens[work[|work| - 1]]) == 0
  {
    var s := work[|work| - 1];
    LastIsOnes(lens, work);
    BackIncCode(CodeOf(lens, s), lens[s]);
    ShlPow2(0, lens[s]);
    RevShift(1, 0, lens[s]);
  }

  lemma SingleCode(lens: seq<nat>)
    requires ValidLengths(lens) && Kraft(lens) < Pow2(MAXBITS)
    ensures Count(lens, 1) < 2
  {
    KraftByLength(lens);
    KraftUptoMono(lens, 1, MAXBITS);
    assert KraftUpto(lens, 0) == 0;
    ShlPow2(1, MAXBITS - 1);
    ShlMono(Pow2(1), Count(lens, 1), MAXBITS - 1);
    assert Pow2(1) == 2 * Pow2(0) == 2;
  }

  /** An incomplete code that is not refused has one symbol, of one bit, whose increment is one. */
  lemma LastOfIncomplete(lens: seq<nat>, work: seq<nat>)
    requires ValidLengths(lens) && Kraft(lens) < Pow2(MAXBITS) && IsMax(lens, 1) && InOrder(lens, work)
    ensures |work| == 1 && lens[work[0]] == 1
    ensures BackInc(BitsOf(lens, work[0]), 1) == 1
    ensures forall z: nat :: Matches(lens, work[0], z) <==> z % 2 == 0
  {
    SingleCode(lens);
    OnlyOnes(lens, MAXBITS);
    FirstBits(lens, work);
    forall z: nat ensures Matches(lens, work[0], z) <==> z % 2 == 0 {
      assert Low(z, 1) == z % 2 + 2 * Low(z / 2, 0);
    }
    assert BackInc(0, 1) == 1 by { assert High(0, 0) == 0 && Pow2(0) == 1; }
  }

  lemma {:induction false} OnlyOnes(lens: seq<nat>, l: nat)
    requires l >= 1 && IsMax(lens, 1)
    ensures Upto(lens, l) == Count(lens, 1)
  {
    if l > 1 {
      OnlyOnes(lens, l - 1);
      if Count(lens, l) > 0 { var s := SymbolAt(lens, l, 0); }
    } else {
      assert Upto(lens, 0) == 0;
    }
  }

  /** A complete table decodes. */
  lemma CompleteDecodes(kind: CodeType, lens: seq<nat>, work: seq<nat>, t: seq<Code>, root: nat, p: Place)
    requires |lens| <= MaxSymbols(kind) && ValidLengths(lens) && Kraft(lens) == Pow2(MAXBITS) && root <= MAXBITS
    requires InOrder(lens, work) && SettledTo(lens, Entries(kind, lens, root), work, t, root, p, |work|)
    ensures Decodes(t, root, kind, lens)
  {
    EntriesGood(kind, lens, root);
    forall s, z: nat | 0 <= s < |lens| && Matches(lens, s, z)
      ensures Lookup(t, root, z) == Hit(EntryOf(kind, s, EntryBits(lens[s], root)), lens[s])
    {
      AllSettled(lens, Entries(kind, lens, root), work, t, root, p, s, z);
    }
    forall z: nat ensures !NoMatch(lens, z) && Reach(t, root, z) <= MAXBITS && LinkDrops(t, root, z) {
      var s := Complete(lens, z);
      AllSettled(lens, Entries(kind, lens, root), work, t, root, p, s, z);
    }
  }

  /** The one-bit code with its missing half marked invalid. */
  lemma SingleDecodes(kind: CodeType, lens: seq<nat>, work: seq<nat>, t: seq<Code>, p: Place)
    requires |lens| <= MaxSymbols(kind) && ValidLengths(lens) && Kraft(lens) < Pow2(MAXBITS) && IsMax(lens, 1)
    requires InOrder(lens, work) && 0 < |work| && SettledTo(lens, Entries(kind, lens, 1), work, t, 1, p, |work|)
    requires 2 <= |t|
    ensures Decodes(t[1 := Code(64, 1, 0)], 1, kind, lens)
  {
    hide Kraft, Rev, CodeOf, Settled, High, Lookup, Reach, LinkDrops, InOrder, IsMax, SettledTo, Entries, EntryOf;
    EntriesGood(kind, lens, 1);
    var t' := t[1 := Code(64, 1, 0)];
    forall s, z: nat | 0 <= s < |lens| && Matches(lens, s, z)
      ensures Lookup(t', 1, z) == Hit(EntryOf(kind, s, EntryBits(lens[s], 1)), lens[s])
    {
      SingleHit(kind, lens, work, t, p, s, z);
    }
    forall z: nat
      ensures NoMatch(lens, z) ==> Lookup(t', 1, z) == Hit(Code(64, 1, 0), 1)
      ensures Reach(t', 1, z) <= MAXBITS && LinkDrops(t', 1, z)
    {
      SingleAny(kind, lens, work, t, p, z);
    }
  }

  lemma LowBit(z: nat)
    ensures Low(z, 1) == z % 2
  {
    assert Low(z, 1) == z % 2 + 2 * Low(z / 2, 0);
  }

  lemma SingleHit(kind: CodeType, lens: seq<nat>, work: seq<nat>, t: seq<Code>, p: Place, s: nat, z: nat)
    requires |lens| <= MaxSymbols(kind) && ValidLengths(lens) && Kraft(lens) < Pow2(MAXBITS) && IsMax(lens, 1)
    requires InOrder(lens, work) && 0 < |work| && SettledTo(lens, Entries(kind, lens, 1), work, t, 1, p, |work|)
    requires 2 <= |t| && s < |lens| && Matches(lens, s, z)
    ensures Lookup(t[1 := Code(64, 1, 0)], 1, z) == Hit(EntryOf(kind, s, EntryBits(lens[s], 1)), lens[s])
  {
    hide Kraft, Rev, CodeOf, Settled, High, EntryOf, Low;
    LastOfIncomplete(lens, work);
    EntriesGood(kind, lens, 1);
    Listed(lens, work, s);
    AllSettled(lens, Entries(kind, lens, 1), work, t, 1, p, s, z);
    LowBit(z);
    EntryNotLink(kind, s, 1);
  }

  lemma SingleAny(kind: CodeType, lens: seq<nat>, work: seq<nat>, t: seq<Code>, p: Place, z: nat)
    requires |lens| <= MaxSymbols(kind) && ValidLengths(lens) && Kraft(lens) < Pow2(MAXBITS) && IsMax(lens, 1)
    requires InOrder(lens, work) && 0 < |work| && SettledTo(lens, Entries(kind, lens, 1), work, t, 1, p, |work|)
    requires 2 <= |t|
    ensures NoMatch(lens, z) ==> Lookup(t[1 := Code(64, 1, 0)], 1, z) == Hit(Code(64, 1, 0), 1)
    ensures Reach(t[1 := Code(64, 1, 0)], 1, z) <= MAXBITS && LinkDrops(t[1 := Code(64, 1, 0)], 1, z)
  {
    hide Kraft, Rev, CodeOf, Settled, High, EntryOf, Low;
    LastOfIncomplete(lens, work);
    EntriesGood(kind, lens, 1);
    LowBit(z);
    if z % 2 == 0 {
      AllSettled(lens, Entries(kind, lens, 1), work, t, 1, p, work[0], z);
    }
  }

  /** Tables for lengths that are not refused. */
  method MakeTables(kind: CodeType, lens: seq<nat>, work: array<nat>, count: array<nat>, table: array<Code>,
                    root: nat, min: nat, max: nat)
    returns (ok: bool, used: nat)
    requires |lens| <= MaxSymbols(kind) && ValidLengths(lens) && |lens| <= work.Length && count != work
    requires Kraft(lens) == Pow2(MAXBITS) || (Kraft(lens) < Pow2(MAXBITS) && max == 1)
    requires 1 <= min <= root <= max <= MAXBITS && IsMax(lens, max) && IsMin(lens, min)
    requires count.Length == MAXBITS + 1 && forall l :: 0 <= l <= MAXBITS ==> count[l] == Count(lens, l)
    requires Space(kind, lens, root, table.Length)
    modifies work, count, table
    ensures ok ==> used <= table.Length && Pow2(root) <= used
    ensures ok ==> Decodes(table[..used], root, kind, lens)
    ensures ok ==> forall q :: used <= q < table.Length ==> table[q] == old(table[q])
    ensures ok ==> used == EntryCount(lens, root)
    ensures ok <==> !Overflows(kind, lens, root)
  {
    hide Kraft, Decodes, SettledTo, IsMin, Entries, InOrder, Upto, UsedBy, EntryCount;
    ok, used := false, 0;
    MaxFacts(lens, max);
    SortSymbols(lens, count, work);
    ghost var order := work[..Upto(lens, MAXBITS)];
    ghost var ents := Entries(kind, lens, root);
    EntriesGood(kind, lens, root);
    if TooLarge(kind, Pow2(root)) {
      RootAtMost(lens, root);
      return;
    }
    FirstLength(lens, order, min);
    assert Counts(lens, count[..], 0, 1) by { FirstCounts(lens, count[..]); }
    var huff, len, place;
    ok, used, huff, len, place := FillTables(kind, lens, work, count, table, root, max, ents, order);
    if !ok { return; }
    UsedAll(lens, order, root, used);
    ghost var t := table[..];
    Increment(lens, order, huff, len);
    if huff != 0 {
      table[place.next + huff] := Code(64, len - place.drop, 0);
    }
    Finished(kind, lens, order, t, table[..used], root, place, huff, len);
  }

  lemma RootAtMost(lens: seq<nat>, root: nat)
    ensures Pow2(root) <= EntryCount(lens, root)
  {
  }

  /** The code register after the last code: zero if the code is complete, one for the one-bit code. */
  lemma Increment(lens: seq<nat>, order: seq<nat>, huff: nat, len: nat)
    requires ValidLengths(lens) && InOrder(lens, order) && 0 < |order|
    requires Kraft(lens) == Pow2(MAXBITS) || (Kraft(lens) < Pow2(MAXBITS) && IsMax(lens, 1))
    requires len == lens[order[|order| - 1]] && huff == BackInc(BitsOf(lens, order[|order| - 1]), len)
    ensures huff != 0 ==> huff == 1 && len == 1
    ensures huff == 0 <==> Kraft(lens) == Pow2(MAXBITS)
  {
    if Kraft(lens) == Pow2(MAXBITS) { LastOfComplete(lens, order); } else { LastOfIncomplete(lens, order); }
  }

  /** When all symbols are in, the table decodes, once the one-bit code's missing half is marked. */
  lemma Finished(kind: CodeType, lens: seq<nat>, order: seq<nat>, t: seq<Code>, t': seq<Code>, root: nat, p: Place,
                 huff: nat, len: nat)
    requires |lens| <= MaxSymbols(kind) && ValidLengths(lens) && 1 <= root <= MAXBITS
    requires Kraft(lens) == Pow2(MAXBITS) || (Kraft(lens) < Pow2(MAXBITS) && IsMax(lens, 1) && root == 1)
    requires InOrder(lens, order) && 0 < |order|
    requires SettledTo(lens, Entries(kind, lens, root), order, t, root, p, |order|)
    requires Pow2(root) <= p.next + Pow2(p.curr) == |t'| <= |t|
    requires huff == 0 <==> Kraft(lens) == Pow2(MAXBITS)
    requires huff != 0 ==> huff == 1 && p == Place(0, root, 0, NO_SUBTABLE)
    requires t' == if huff == 0 then t[..|t'|] else t[..|t'|][1 := Code(64, 1, 0)]
    ensures Decodes(t', root, kind, lens)
  {
    hide Kraft, Decodes, InOrder, IsMax, SettledTo;
    WithinUsed(lens, Entries(kind, lens, root), order, t, root, p);
    if huff == 0 {
      CompleteDecodes(kind, lens, order, t', root, p);
    } else {
      SingleDecodes(kind, lens, order, t[..|t'|], p);
    }
  }

  /** A settled symbol needs no entry beyond the current table. */
  lemma SettledWithin(lens: seq<nat>, ents: seq<Code>, t: seq<Code>, root: nat, p: Place, s: nat)
    requires s < |lens| == |ents| && Settled(lens, ents, t, root, p, s)
    requires Pow2(root) <= p.next + Pow2(p.curr) <= |t|
    ensures Settled(lens, ents, t[..p.next + Pow2(p.curr)], root, p, s)
  {
    hide BitsOf, Rev, Low, High, Replicated, Pow2;
    var n := p.next + Pow2(p.curr);
    if lens[s] <= root {
      SlicePrefix(t, n, 0, Pow2(root));
      assert t[..n][..Pow2(root)] == t[..n][0..Pow2(root)] && t[..Pow2(root)] == t[0..Pow2(root)];
    } else {
      var e := t[Prefix(lens, s, root)];
      SlicePrefix(t, n, e.val, e.val + Pow2(e.op));
    }
  }

  lemma WithinUsed(lens: seq<nat>, ents: seq<Code>, work: seq<nat>, t: seq<Code>, root: nat, p: Place)
    requires |lens| == |ents| && InOrder(lens, work) && SettledTo(lens, ents, work, t, root, p, |work|)
    requires Pow2(root) <= p.next + Pow2(p.curr) <= |t|
    ensures SettledTo(lens, ents, work, t[..p.next + Pow2(p.curr)], root, p, |work|)
  {
    hide Settled;
    forall i | 0 <= i < |work| ensures Settled(lens, ents, t[..p.next + Pow2(p.curr)], root, p, work[i]) {
      SettledWithin(lens, ents, t, root, p, work[i]);
    }
  }

  lemma FirstLength(lens: seq<nat>, work: seq<nat>, min: nat)
    requires ValidLengths(lens) && InOrder(lens, work) && 0 < |work| && 1 <= min <= MAXBITS && IsMin(lens, min)
    ensures lens[work[0]] == min
  {
    var s := SymbolAt(lens, min, 0);
    Listed(lens, work, s);
    if s != work[0] { PosOrder(lens, work[0], s); }
  }

  lemma EmptyTable(kind: CodeType, lens: seq<nat>, t: seq<Code>)
    requires |lens| <= MaxSymbols(kind) && ValidLengths(lens) && !SomeCode(lens)
    requires t == [Code(64, 1, 0), Code(64, 1, 0)]
    ensures Decodes(t, 1, kind, lens) && Pow2(1) == 2 && !Refused(kind, lens)
  {
    forall z: nat ensures Low(z, 1) < 2 { assert Pow2(1) == 2; }
  }

  /** Bound the code lengths and the root size, and check the lengths: 0 to go on, 1 for no symbols. */
  method CheckCode(kind: CodeType, lens: seq<nat>, bits: nat)
    returns (ret: int, count: array<nat>, root: nat, min: nat, max: nat)
    requires ValidLengths(lens)
    ensures fresh(count) && count.Length == MAXBITS + 1 && forall l :: 0 <= l <= MAXBITS ==> count[l] == Count(lens, l)
    ensures ret == -1 || ret == 0 || ret == 1
    ensures ret == -1 <==> Refused(kind, lens)
    ensures ret == 1 <==> !SomeCode(lens)
    ensures ret == 0 ==> 1 <= min <= root <= max <= MAXBITS && IsMax(lens, max) && IsMin(lens, min)
    ensures ret == 0 ==> Kraft(lens) == Pow2(MAXBITS) || (Kraft(lens) < Pow2(MAXBITS) && max == 1)
    ensures ret == 0 ==> RootBits(lens, bits, root)
    ensures ret == 0 && (forall s :: 0 <= s < |lens| ==> lens[s] <= bits) ==> root == max <= bits
  {
    hide Kraft, Refused, SomeCode, RootBits;
    count := CountLengths(lens);
    ret, root, min := 0, bits, 1;
    max := Longest(lens, count);
    MaxFacts(lens, max);
    if root > max { root := max; }
    if max == 0 {
      ret := 1;
    } else {
      min := Shortest(lens, count, max);
      if root < min { root := min; }
      RootWithin(lens, bits, root, min, max);
      var left := CheckLengths(lens, count);
      if left < 0 || (left > 0 && (kind == CODES || max != 1)) { ret := -1; }
    }
  }

  /** The whole routine. It fails on exactly the refused lengths, or for want of space; otherwise the
      table decodes the code, lies within the entries it reports as used, and nothing else is written. */
  method Build(kind: CodeType, lens: seq<nat>, bits: nat, work: array<nat>, table: array<Code>)
    returns (ret: int, used: nat, root: nat)
    requires ValidLengths(lens) && |lens| <= MaxSymbols(kind) && |lens| <= work.Length
    requires Space(kind, lens, bits, table.Length)
    modifies work, table
    ensures ret == -1 || ret == 0 || ret == 1
    ensures ret == -1 <==> Refused(kind, lens)
    ensures SomeCode(lens) && ret != -1 ==> RootBits(lens, bits, root) && (ret == 1 <==> Overflows(kind, lens, root))
    ensures !SomeCode(lens) ==> ret == 0
    ensures ret == 0 ==> used <= table.Length && 1 <= root <= MAXBITS && Pow2(root) <= used
    ensures ret == 0 ==> Decodes(table[..used], root, kind, lens)
    ensures ret == 0 ==> forall q :: used <= q < table.Length ==> table[q] == old(table[q])
    ensures ret == 0 ==> used == if SomeCode(lens) then EntryCount(lens, root) else 2
  {
    hide *;
    SpaceForTwo(kind, lens, bits, table.Length);
    var count, min, max;
    used := 0;
    ret, count, root, min, max := CheckCode(kind, lens, bits);
    if ret == 1 {
      MarkEmpty(kind, lens, table);
      NothingRefused(kind, lens);
      ret, used, root := 0, 2, 1;
    } else if ret == 0 {
      RootSpace(kind, lens, bits, root, table.Length);
      var ok;
      ok, used := MakeTables(kind, lens, work, count, table, root, min, max);
      ret := if ok then 0 else 1;
    }
  }

  /** No symbols: a table that makes every code invalid. */
  method MarkEmpty(kind: CodeType, lens: seq<nat>, table: array<Code>)
    requires |lens| <= MaxSymbols(kind) && ValidLengths(lens) && !SomeCode(lens) && 2 <= table.Length
    modifies table
    ensures Decodes(table[..2], 1, kind, lens) && Pow2(1) == 2
    ensures forall q :: 2 <= q < table.Length ==> table[q] == old(table[q])
  {
    hide Decodes, SomeCode, ValidLengths;
    var here := Code(64, 1, 0);
    table[0] := here;
    table[1] := here;
    EmptyTable(kind, lens, table[..2]);
  }

  lemma NothingRefused(kind: CodeType, lens: seq<nat>)
    requires ValidLengths(lens) && !SomeCode(lens)
    ensures !Refused(kind, lens) && MAXBITS == 15
  {
  }

  /** The root table's index bits: as requested, unless longer than every code or shorter than each. */
  ghost predicate RootBits(lens: seq<nat>, bits: nat, root: nat)
  {
    && (root < bits ==> IsMax(lens, root))
    && (root > bits ==> IsMin(lens, root))
    && (root == bits ==> exists s, t :: 0 <= s < |lens| && 0 <= t < |lens| && 0 < lens[s] <= bits <= lens[t])
  }

  lemma RootWithin(lens: seq<nat>, bits: nat, root: nat, min: nat, max: nat)
    requires IsMax(lens, max) && IsMin(lens, min) && 1 <= min <= max
    requires root == if bits > max then max else if bits < min then min else bits
    ensures RootBits(lens, bits, root)
    ensures (forall s :: 0 <= s < |lens| ==> lens[s] <= bits) ==> root == max <= bits
  {
    var s := SymbolAt(lens, max, 0);
    var t := SymbolAt(lens, min, 0);
  }

  lemma SpaceForTwo(kind: CodeType, lens: seq<nat>, bits: nat, size: nat)
    requires Space(kind, lens, bits, size)
    ensures 2 <= size
  {
  }

  lemma RootSpace(kind: CodeType, lens: seq<nat>, bits: nat, root: nat, size: nat)
    requires Space(kind, lens, bits, size)
    requires (forall s :: 0 <= s < |lens| ==> lens[s] <= bits) ==> IsMax(lens, root) && root <= bits
    ensures Space(kind, lens, root, size)
  {
    if forall s :: 0 <= s < |lens| ==> lens[s] <= bits { Pow2Mono(root, bits); }
  }
}
