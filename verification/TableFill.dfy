/** The second half of inflate_table: replicating entries, incrementing codes backwards, and sizing
    sub-tables. The entries themselves (ents[s] for symbol s) are arbitrary here. */
module TableFill {
  import opened Bits
  import opened Huffman
  import opened DecodeTable
  import opened CodeLengths

  // ---------------------------------------------------------------- backwards increment

  /** The loop's effect on a code word stored most significant bit first, as a recursion on its length. */
  function BackInc(huff: nat, len: nat): nat
  {
    if len == 0 then 0
    else if High(huff, len - 1) % 2 == 1 then BackInc(huff, len - 1)
    else Low(huff, len - 1) + Pow2(len - 1)
  }

  lemma {:induction false} BackIncLow(huff: nat, n: nat, len: nat)
    requires len <= n
    ensures BackInc(Low(huff, n), len) == BackInc(huff, len)
  {
    if len > 0 {
      hide *;
      BackIncUnfold(huff, len);
      BackIncUnfold(Low(huff, n), len);
      BackIncLow(huff, n, len - 1);
      HighLow(huff, len - 1, n);
      LowLow(huff, len - 1, n);
      LowParity(High(huff, len - 1), n - (len - 1));
    }
  }

  lemma LowParity(x: nat, n: nat)
    requires n > 0
    ensures Low(x, n) % 2 == x % 2
  {
  }

  /** Incrementing backwards increments the code; the last code wraps to zero. */
  lemma {:induction false} BackIncCode(c: nat, len: nat)
    requires c < Pow2(len)
    ensures BackInc(Rev(c, len), len) == Rev(c + 1, len)
  {
    if len > 0 {
      BackIncStep(c, len);
      if c % 2 == 1 { BackIncCode(c / 2, len - 1); }
    } else {
      assert BackInc(Rev(c, 0), 0) == Rev(c + 1, 0);
    }
  }

  /** One bit of the increment: a zero becomes a one; a one becomes a zero and carries. */
  lemma BackIncStep(c: nat, len: nat)
    requires 0 < len && c < Pow2(len)
    ensures c % 2 == 0 ==> BackInc(Rev(c, len), len) == Rev(c + 1, len)
    ensures c % 2 == 1 ==>
              BackInc(Rev(c, len), len) == BackInc(Rev(c / 2, len - 1), len - 1)
                && Rev(c + 1, len) == Rev(c / 2 + 1, len - 1)
  {
    hide *;
    var h, r := Rev(c, len), Rev(c / 2, len - 1);
    RevStep(c, len);
    RevStep(c + 1, len);
    LowSmall(r, len - 1);
    LowAddPow2(r, len - 1, len - 1);
    BackIncUnfold(h, len);
    if c % 2 == 1 { BackIncLow(h, len - 1, len - 1); }
  }

  lemma BackIncUnfold(huff: nat, len: nat)
    requires len > 0
    ensures BackInc(huff, len) ==
              if High(huff, len - 1) % 2 == 1 then BackInc(huff, len - 1) else Low(huff, len - 1) + Pow2(len - 1)
    ensures Pow2(0) == 1
  {
  }

  method BackwardsIncrement(huff: nat, len: nat) returns (r: nat)
    requires len >= 1
    ensures r == BackInc(huff, len)
  {
    var incr := Pow2(len - 1);
    ghost var n: nat := len;
    while incr != 0 && (huff / incr) % 2 == 1
      invariant n <= len && incr == if n == 0 then 0 else Pow2(n - 1)
      invariant BackInc(huff, n) == BackInc(huff, len)
      decreases n
    {
      DivPow2(huff, n - 1);
      incr := incr / 2;
      n := n - 1;
    }
    if incr != 0 {
      DivPow2(huff, n - 1);
      r := huff % incr;
      r := r + incr;
    } else {
      r := 0;
    }
  }

  /** Shifting and masking are division and remainder by a power of two. */
  lemma {:induction false} DivPow2(x: nat, n: nat)
    ensures x / Pow2(n) == High(x, n) && x % Pow2(n) == Low(x, n)
  {
    SplitWord(x, n);
    ShlTimes(High(x, n), n);
    QuotientUnique(x, Pow2(n), High(x, n), Low(x, n));
  }

  lemma {:induction false} ShlTimes(c: nat, n: nat)
    ensures Shl(c, n) == c * Pow2(n)
  {
    if n > 0 { ShlTimes(c, n - 1); }
  }

  lemma MulMono(a: nat, b: nat, c: nat)
    requires a <= b
    ensures a * c <= b * c
  {
  }

  lemma QuotientUnique(x: nat, d: nat, q: nat, r: nat)
    requires r < d && x == q * d + r
    ensures x / d == q && x % d == r
  {
    if x / d < q {
      MulMono(x / d + 1, q, d);
    } else if x / d > q {
      MulMono(q + 1, x / d, d);
    }
  }

  // ---------------------------------------------------------------- placing entries

  /** The bits of symbol s as they arrive, first bit lowest. */
  function BitsOf(lens: seq<nat>, s: nat): (r: nat)
    requires s < |lens|
    ensures r < Pow2(lens[s])
  {
    Rev(CodeOf(lens, s), lens[s])
  }

  /** The bits that index the root table. */
  function Prefix(lens: seq<nat>, s: nat, root: nat): (r: nat)
    requires s < |lens|
    ensures r < Pow2(root)
  {
    Low(BitsOf(lens, s), root)
  }

  /** A usable code, and entries that are not links and drop the right number of bits. */
  ghost predicate GoodCode(lens: seq<nat>, ents: seq<Code>, root: nat)
  {
    && ValidLengths(lens) && Kraft(lens) <= Pow2(MAXBITS) && root <= MAXBITS
    && |ents| == |lens|
    && forall s :: 0 <= s < |lens| && lens[s] > 0 ==>
                     ents[s].bits == EntryBits(lens[s], root) && !IsLink(ents[s])
  }

  /** Every index of sub whose low w bits are base holds here. */
  ghost predicate Replicated(sub: seq<Code>, w: nat, base: nat, here: Code)
  {
    forall j :: 0 <= j < |sub| && Low(j, w) == base ==> sub[j] == here
  }

  /** Symbol s has all its entries: in the root table if its code is short enough, otherwise in the
      sub-table that the root entry for its first bits links to. */
  ghost predicate Placed(lens: seq<nat>, ents: seq<Code>, t: seq<Code>, root: nat, s: nat)
    requires s < |lens| == |ents|
  {
    && Pow2(root) <= |t|
    && if lens[s] <= root then Replicated(t[..Pow2(root)], lens[s], BitsOf(lens, s), ents[s])
       else
         var e := t[Prefix(lens, s, root)];
         && IsLink(e) && e.bits == root && root + e.op <= MAXBITS && Pow2(root) <= e.val && e.val + Pow2(e.op) <= |t|
         && lens[s] - root <= e.op
         && Replicated(t[e.val..e.val + Pow2(e.op)], lens[s] - root, High(BitsOf(lens, s), root), ents[s])
  }

  /** A placed symbol decodes. */
  lemma PlacedDecodes(lens: seq<nat>, ents: seq<Code>, t: seq<Code>, root: nat, s: nat, z: nat)
    requires GoodCode(lens, ents, root) && s < |lens|
    requires Placed(lens, ents, t, root, s) && Matches(lens, s, z)
    ensures Lookup(t, root, z) == Hit(ents[s], lens[s]) && Reach(t, root, z) <= MAXBITS && LinkDrops(t, root, z)
  {
    hide Low, High, Rev, CodeOf, Kraft, Pow2;
    var len, i := lens[s], Low(z, root);
    if len <= root {
      LowLow(z, len, root);
      assert t[i] == t[..Pow2(root)][i];
    } else {
      LowLow(z, root, len);
      var e := t[i];
      var j := Low(High(z, root), e.op);
      LowLow(High(z, root), len - root, e.op);
      HighLow(z, root, len);
      assert t[e.val + j] == t[e.val..e.val + Pow2(e.op)][j];
    }
  }

  /** Where the loop stands: which table is being filled, and for which first bits. */
  datatype Place = Place(next: nat, curr: nat, drop: nat, low: nat)

  /** Before filling in symbol s: it goes to the root table, or its sub-table is the current one and is
      large enough for it. */
  ghost predicate Ready(lens: seq<nat>, t: seq<Code>, root: nat, p: Place, s: nat)
    requires s < |lens|
  {
    && Pow2(root) <= |t| && p.next + Pow2(p.curr) <= |t|
    && if lens[s] <= root then p == Place(0, root, 0, NO_SUBTABLE)
       else
         && p.drop == root && p.low == Prefix(lens, s, root) && Pow2(root) <= p.next
         && 1 <= p.curr && root + p.curr <= MAXBITS && lens[s] - root <= p.curr
         && t[p.low] == Code(p.curr, root, p.next)
  }

  /** Symbol s is placed, and its sub-table is the current table or ends before it. */
  ghost predicate Settled(lens: seq<nat>, ents: seq<Code>, t: seq<Code>, root: nat, p: Place, s: nat)
    requires s < |lens| == |ents|
  {
    && Placed(lens, ents, t, root, s)
    && (lens[s] > root ==>
          var e := t[Prefix(lens, s, root)];
          if Prefix(lens, s, root) == p.low then e.val == p.next && e.op == p.curr
          else e.val + Pow2(e.op) <= p.next)
  }

  /** t' is t with here at every index of the table of 2^curr entries at next whose low w bits are base. */
  ghost predicate Filled(t: seq<Code>, t': seq<Code>, next: nat, curr: nat, w: nat, base: nat, here: Code)
  {
    && |t'| == |t| && next + Pow2(curr) <= |t|
    && t'[..next] == t[..next]
    && t'[next + Pow2(curr)..] == t[next + Pow2(curr)..]
    && var sub, sub' := t[next..next + Pow2(curr)], t'[next..next + Pow2(curr)];
       forall j :: 0 <= j < |sub| ==> sub'[j] == if Low(j, w) == base then here else sub[j]
  }

  /** Replication so far: the copies whose upper index bits are m or more are in place. */
  ghost predicate FilledFrom(t: seq<Code>, t': seq<Code>, next: nat, curr: nat, w: nat, base: nat, here: Code, m: nat)
  {
    && |t'| == |t| && next + Pow2(curr) <= |t|
    && forall i :: 0 <= i < |t| ==>
                     t'[i] == if next <= i < next + Pow2(curr) && Low(i - next, w) == base && High(i - next, w) >= m
                              then here else t[i]
  }

  lemma FilledStart(t: seq<Code>, next: nat, curr: nat, w: nat, base: nat, here: Code)
    requires w <= curr && next + Pow2(curr) <= |t|
    ensures FilledFrom(t, t, next, curr, w, base, here, Pow2(curr - w))
  {
    forall i | 0 <= i < |t|
      ensures t[i] == if next <= i < next + Pow2(curr) && Low(i - next, w) == base
                && High(i - next, w) >= Pow2(curr - w)
                      then here else t[i]
    {
      if next <= i < next + Pow2(curr) {
        SplitWord(i - next, w);
        ShlPow2(curr - w, w);
        ShlMono(High(i - next, w), Pow2(curr - w), w);
      }
    }
  }

  lemma FilledStep(t: seq<Code>, t': seq<Code>, next: nat, curr: nat, w: nat, base: nat, here: Code, m: nat)
    requires w <= curr && base < Pow2(w) && m < Pow2(curr - w)
    requires FilledFrom(t, t', next, curr, w, base, here, m + 1)
    ensures base + Shl(m, w) < Pow2(curr)
    ensures FilledFrom(t, t'[next + base + Shl(m, w) := here], next, curr, w, base, here, m)
  {
    hide Low, High, Shl, Pow2;
    ShlSucc(m, w);
    ShlPow2(curr - w, w);
    ShlMono(m + 1, Pow2(curr - w), w);
    JoinWord(base, m, w);
    var t1 := t'[next + base + Shl(m, w) := here];
    forall i | 0 <= i < |t|
      ensures t1[i] == if next <= i < next + Pow2(curr) && Low(i - next, w) == base && High(i - next, w) >= m
                       then here else t[i]
    {
      if i >= next { SplitWord(i - next, w); }
    }
  }

  lemma FilledAll(t: seq<Code>, t': seq<Code>, next: nat, curr: nat, w: nat, base: nat, here: Code)
    requires FilledFrom(t, t', next, curr, w, base, here, 0)
    ensures Filled(t, t', next, curr, w, base, here)
  {
    forall j | 0 <= j < Pow2(curr)
      ensures t'[next..next + Pow2(curr)][j] == if Low(j, w) == base then here else t[next..next + Pow2(curr)][j]
    {
      assert next + j - next == j;
    }
  }

  /** Replicate an entry for all indices whose low w bits are base. */
  method Replicate(table: array<Code>, next: nat, curr: nat, w: nat, base: nat, here: Code)
    requires w <= curr && base < Pow2(w) && next + Pow2(curr) <= table.Length
    modifies table
    ensures Filled(old(table[..]), table[..], next, curr, w, base, here)
  {
    var incr := Pow2(w);
    var fill := Pow2(curr);
    ghost var m: nat := Pow2(curr - w);
    ShlPow2(curr - w, w);
    FilledStart(table[..], next, curr, w, base, here);
    ShlAdd(0, 0, w);
    while fill != 0
      invariant m <= Pow2(curr - w) && fill == Shl(m, w)
      invariant FilledFrom(old(table[..]), table[..], next, curr, w, base, here, m)
      decreases m
    {
      ShlSucc(m - 1, w);
      fill := fill - incr;
      m := m - 1;
      ghost var t := table[..];
      FilledStep(old(table[..]), t, next, curr, w, base, here, m);
      table[next + base + fill] := here;
      assert table[..] == t[next + base + fill := here];
    }
    ShlMono(0, m, w);
    FilledAll(old(table[..]), table[..], next, curr, w, base, here);
  }

  // ---------------------------------------------------------------- filling keeps what is there

  /** A word made of the first bits and the matching sub-table index of s begins with the code of s. */
  lemma Glue(lens: seq<nat>, root: nat, s: nat, j: nat, z: nat)
    requires s < |lens| && root < lens[s]
    requires Low(j, lens[s] - root) == High(BitsOf(lens, s), root)
    requires z == Prefix(lens, s, root) + Shl(j, root)
    ensures Matches(lens, s, z)
  {
    var len, r := lens[s], BitsOf(lens, s);
    JoinWord(Prefix(lens, s, root), j, root);
    SplitWord(Low(z, len), root);
    SplitWord(r, root);
    LowLow(z, root, len);
    HighLow(z, root, len);
  }

  /** Filling in symbol c: the change that Replicate makes for it. */
  ghost predicate FillOf(lens: seq<nat>, ents: seq<Code>, t: seq<Code>, t': seq<Code>, root: nat, p: Place, c: nat)
    requires c < |lens| == |ents|
  {
    Filled(t, t', p.next, p.curr, EntryBits(lens[c], root), High(BitsOf(lens, c), p.drop), ents[c])
  }

  /** In the root table, an entry of s is not an entry of c. */
  lemma RootFillKeeps(lens: seq<nat>, ents: seq<Code>, t: seq<Code>, t': seq<Code>, root: nat, p: Place, c: nat, s: nat)
    requires GoodCode(lens, ents, root) && c < |lens| && s < |lens| && c != s
    requires 0 < lens[c] <= root && 0 < lens[s] <= root
    requires Ready(lens, t, root, p, c) && Placed(lens, ents, t, root, s) && FillOf(lens, ents, t, t', root, p, c)
    ensures Placed(lens, ents, t', root, s)
  {
    hide Rev, Low, Shl, Kraft;
    var sub, sub' := t[..Pow2(root)], t'[..Pow2(root)];
    assert sub == t[0..Pow2(root)] && sub' == t'[0..Pow2(root)];
    forall i | 0 <= i < |sub'| && Low(i, lens[s]) == BitsOf(lens, s) ensures sub'[i] == ents[s] {
      if Low(i, lens[c]) == BitsOf(lens, c) { PrefixFree(lens, s, c, i); }
    }
  }

  /** In a shared sub-table, an entry of s is not an entry of c. */
  lemma SubFillKeeps(lens: seq<nat>, ents: seq<Code>, t: seq<Code>, t': seq<Code>, root: nat, p: Place, c: nat, s: nat)
    requires GoodCode(lens, ents, root) && c < |lens| && s < |lens| && c != s
    requires root < lens[c] && root < lens[s] && Prefix(lens, s, root) == p.low
    requires Ready(lens, t, root, p, c) && Settled(lens, ents, t, root, p, s) && FillOf(lens, ents, t, t', root, p, c)
    ensures Settled(lens, ents, t', root, p, s)
  {
    hide BitsOf, Rev, Low, High, Kraft, Pow2, Shl, Matches;
    var sub, sub' := t[p.next..p.next + Pow2(p.curr)], t'[p.next..p.next + Pow2(p.curr)];
    assert t'[p.low] == t'[..p.next][p.low] == t[p.low];
    forall j | 0 <= j < |sub'| && Low(j, lens[s] - root) == High(BitsOf(lens, s), root) ensures sub'[j] == ents[s] {
      if Low(j, lens[c] - root) == High(BitsOf(lens, c), root) {
        var z := p.low + Shl(j, root);
        Glue(lens, root, s, j, z);
        Glue(lens, root, c, j, z);
        PrefixFree(lens, s, c, z);
      }
    }
  }

  /** A slice that ends within a prefix is a slice of the prefix. */
  lemma SlicePrefix(t: seq<Code>, n: nat, a: nat, b: nat)
    requires a <= b <= n <= |t|
    ensures t[..n][a..b] == t[a..b]
  {
  }

  /** Filling in symbol c leaves the settled symbols settled. */
  lemma FillKeeps(lens: seq<nat>, ents: seq<Code>, t: seq<Code>, t': seq<Code>, root: nat, p: Place, c: nat, s: nat)
    requires GoodCode(lens, ents, root) && c < |lens| && s < |lens| && c != s && 0 < lens[c] && 0 < lens[s]
    requires lens[c] <= root ==> lens[s] <= root
    requires Ready(lens, t, root, p, c) && Settled(lens, ents, t, root, p, s) && FillOf(lens, ents, t, t', root, p, c)
    ensures Settled(lens, ents, t', root, p, s)
  {
    hide BitsOf, Rev, Low, High, Shl, Kraft, Pow2, ValidLengths, Replicated;
    if lens[c] <= root {
      RootFillKeeps(lens, ents, t, t', root, p, c, s);
    } else if lens[s] > root && Prefix(lens, s, root) == p.low {
      SubFillKeeps(lens, ents, t, t', root, p, c, s);
    } else if lens[s] > root {
      var e := t[Prefix(lens, s, root)];
      assert t'[Prefix(lens, s, root)] == t'[..p.next][Prefix(lens, s, root)] == e;
      SlicePrefix(t, p.next, e.val, e.val + Pow2(e.op));
      SlicePrefix(t', p.next, e.val, e.val + Pow2(e.op));
    } else {
      SlicePrefix(t, p.next, 0, Pow2(root));
      SlicePrefix(t', p.next, 0, Pow2(root));
      assert t'[..Pow2(root)] == t'[0..Pow2(root)] && t[..Pow2(root)] == t[0..Pow2(root)];
    }
  }

  /** Filling in symbol c settles it. */
  lemma FillPlaces(lens: seq<nat>, ents: seq<Code>, t: seq<Code>, t': seq<Code>, root: nat, p: Place, c: nat)
    requires GoodCode(lens, ents, root) && c < |lens| && 0 < lens[c]
    requires Ready(lens, t, root, p, c) && FillOf(lens, ents, t, t', root, p, c)
    ensures Settled(lens, ents, t', root, p, c) && Ready(lens, t', root, p, c)
  {
    hide BitsOf, Rev, Low, Shl, Kraft;
    if lens[c] > root {
      assert t'[p.low] == t'[..p.next][p.low] == t[p.low];
    } else {
      assert t'[..Pow2(root)] == t'[0..Pow2(root)];
      NoSubtable(root);
    }
  }

  lemma NoSubtable(root: nat)
    requires root <= MAXBITS
    ensures Pow2(root) < NO_SUBTABLE
  {
    Pow2Mono(root, MAXBITS);
    assert Pow2(5) == 32;
    assert Pow2(10) == 1024;
    assert Pow2(15) == 32768;
  }

  // ---------------------------------------------------------------- sub-tables

  /** The first root bits of a longer code name the cell of 2^(15-root) words that the code lies in. */
  lemma PrefixCell(lens: seq<nat>, s: nat, root: nat)
    requires ValidLengths(lens) && s < |lens| && root < lens[s] && Kraft(lens) <= Pow2(MAXBITS)
    ensures Prefix(lens, s, root) == Rev(High(Start(lens, s), MAXBITS - root), root)
    ensures High(Start(lens, s), MAXBITS - root) < Pow2(root)
  {
    var len, c := lens[s], CodeOf(lens, s);
    HighOfShl(c, MAXBITS - len, len - root);
    RevPrefix(c, len, root);
    CodeFits(lens, s);
    HighFits(c, len, root);
  }

  lemma {:induction false} HighOfShl(c: nat, a: nat, b: nat)
    ensures High(Shl(c, a), a + b) == High(c, b)
  {
    if a > 0 { HighOfShl(c, a - 1, b); }
  }

  lemma HighFits(c: nat, len: nat, root: nat)
    requires root <= len && c < Pow2(len)
    ensures High(c, len - root) < Pow2(root)
  {
    SplitWord(c, len - root);
    ShlPow2(root, len - root);
    ShlMono(High(c, len - root), Pow2(root), len - root);
  }

  lemma SamePrefix(lens: seq<nat>, s: nat, t: nat, root: nat)
    requires ValidLengths(lens) && s < |lens| && t < |lens| && root < lens[s] && root < lens[t]
    requires Kraft(lens) <= Pow2(MAXBITS)
    ensures Prefix(lens, s, root) == Prefix(lens, t, root) <==>
            High(Start(lens, s), MAXBITS - root) == High(Start(lens, t), MAXBITS - root)
  {
    PrefixCell(lens, s, root);
    PrefixCell(lens, t, root);
    if Prefix(lens, s, root) == Prefix(lens, t, root) {
      RevInjective(High(Start(lens, s), MAXBITS - root), High(Start(lens, t), MAXBITS - root), root);
    }
  }

  /** A symbol between two others with the same first bits has those first bits too. */
  lemma Between(lens: seq<nat>, r: nat, s: nat, t: nat, root: nat)
    requires ValidLengths(lens) && r < |lens| && s < |lens| && t < |lens|
    requires root < lens[r] && root < lens[s] && root < lens[t] && Kraft(lens) <= Pow2(MAXBITS)
    requires Before(lens, r, s) && Before(lens, s, t)
    requires Prefix(lens, r, root) == Prefix(lens, t, root)
    ensures Prefix(lens, s, root) == Prefix(lens, r, root)
  {
    Ordered(lens, r, s);
    Ordered(lens, s, t);
    SamePrefix(lens, r, t, root);
    SamePrefix(lens, r, s, root);
    var c := High(Start(lens, r), MAXBITS - root);
    HighCell(Start(lens, r), MAXBITS - root, c);
    HighCell(Start(lens, s), MAXBITS - root, c);
    HighCell(Start(lens, t), MAXBITS - root, c);
  }

  /** The first bits of a long code are not the code of a short one. */
  lemma LongNotShort(lens: seq<nat>, root: nat, c: nat, s: nat)
    requires ValidLengths(lens) && Kraft(lens) <= Pow2(MAXBITS)
    requires c < |lens| && s < |lens| && 0 < lens[s] <= root < lens[c]
    ensures Low(Prefix(lens, c, root), lens[s]) != BitsOf(lens, s)
  {
    var r := BitsOf(lens, c);
    if Low(Prefix(lens, c, root), lens[s]) == BitsOf(lens, s) {
      LowLow(r, lens[s], root);
      LowSmall(r, lens[c]);
      PrefixFree(lens, s, c, r);
    }
  }

  /** Overwriting an entry does not change a slice after it. */
  lemma SliceUpdate(t: seq<Code>, i: nat, e: Code, a: nat, b: nat)
    requires i < a <= b <= |t|
    ensures t[i := e][a..b] == t[a..b]
  {
  }

  /** Starting a sub-table for symbol c leaves the short codes in place. */
  lemma LinkKeepsShort(lens: seq<nat>, ents: seq<Code>, t: seq<Code>, root: nat, link: Code, c: nat, s: nat)
    requires GoodCode(lens, ents, root) && c < |lens| && s < |lens| && 0 < lens[s] <= root < lens[c]
    requires Placed(lens, ents, t, root, s)
    ensures Placed(lens, ents, t[Prefix(lens, c, root) := link], root, s)
  {
    hide BitsOf, Rev, Low, High, Kraft;
    LongNotShort(lens, root, c, s);
    var low := Prefix(lens, c, root);
    assert t[low := link][..Pow2(root)] == t[..Pow2(root)][low := link];
  }

  /** Starting a sub-table for symbol c leaves the settled symbols settled. */
  lemma LinkKeeps(lens: seq<nat>, ents: seq<Code>, t: seq<Code>, root: nat, p: Place, p': Place, c: nat, s: nat)
    requires GoodCode(lens, ents, root) && c < |lens| && s < |lens| && c != s && root < lens[c] && 0 < lens[s]
    requires Settled(lens, ents, t, root, p, s)
    requires lens[s] > root ==> Prefix(lens, s, root) != Prefix(lens, c, root)
    requires p'.next == p.next + Pow2(p.curr) && Pow2(root) <= p'.next && p'.low == Prefix(lens, c, root)
    ensures Settled(lens, ents, t[p'.low := Code(p'.curr, root, p'.next)], root, p', s)
  {
    hide BitsOf, Rev, Low, High, Kraft, Replicated, Pow2, ValidLengths;
    var link := Code(p'.curr, root, p'.next);
    if lens[s] <= root {
      hide Placed;
      LinkKeepsShort(lens, ents, t, root, link, c, s);
    } else {
      var e := t[Prefix(lens, s, root)];
      SliceUpdate(t, p'.low, link, e.val, e.val + Pow2(e.op));
    }
  }

  /** How many codes of length l remain when the first k symbols in order are done. */
  function Remaining(lens: seq<nat>, k: nat, l: nat): nat
    requires l >= 1
  {
    if Upto(lens, l) <= k then 0
    else if k <= Upto(lens, l - 1) then Count(lens, l)
    else Upto(lens, l) - k
  }

  /** The end of the codes of length up to l, counting from symbol c on. */
  ghost function Done(lens: seq<nat>, c: nat, l: nat): nat
    requires ValidLengths(lens) && c < |lens| && 0 < lens[c] <= l + 1 && l <= MAXBITS
  {
    if l < lens[c] then Start(lens, c) else KraftUpto(lens, l)
  }

  lemma DoneStep(lens: seq<nat>, c: nat, l: nat)
    requires ValidLengths(lens) && c < |lens| && 0 < lens[c] <= l <= MAXBITS
    ensures Done(lens, c, l) == Done(lens, c, l - 1) + Shl(Remaining(lens, Pos(lens, c), l), MAXBITS - l)
  {
    PosBounds(lens, c);
    StartBounds(lens, c);
    if l == lens[c] {
      ShlAdd(CountBelow(lens, c, l), Remaining(lens, Pos(lens, c), l), MAXBITS - l);
    } else {
      UptoMono(lens, lens[c], l - 1);
    }
  }

  /** Once the codes of length up to l fill the cell of c, no longer code starts in it. */
  lemma FitsCell(lens: seq<nat>, c: nat, root: nat, l: nat)
    requires ValidLengths(lens) && c < |lens| && root < lens[c] <= l <= MAXBITS
    requires Kraft(lens) <= Pow2(MAXBITS)
    requires KraftUpto(lens, l) >= Start(lens, c) + Pow2(MAXBITS - root)
    ensures forall s :: 0 <= s < |lens| && lens[s] > root && Prefix(lens, s, root) == Prefix(lens, c, root) ==>
                          lens[s] <= l
  {
    forall s | 0 <= s < |lens| && lens[s] > l && Prefix(lens, s, root) == Prefix(lens, c, root)
      ensures false
    {
      StartBounds(lens, s);
      KraftUptoMono(lens, l, lens[s] - 1);
      SamePrefix(lens, s, c, root);
      var cell := High(Start(lens, c), MAXBITS - root);
      HighCell(Start(lens, c), MAXBITS - root, cell);
      HighCell(Start(lens, s), MAXBITS - root, cell);
    }
  }

  /** A sub-table for symbol c of this many index bits has room for every symbol that shares its first
      root bits. */
  ghost predicate Roomy(lens: seq<nat>, c: nat, root: nat, curr: nat)
    requires c < |lens|
  {
    forall s :: 0 <= s < |lens| && lens[s] > root && Prefix(lens, s, root) == Prefix(lens, c, root) ==>
                  lens[s] <= root + curr
  }

  /** left is the space in the cell of c beyond the remaining codes shorter than l, in units of 2^-l. */
  ghost predicate Room(lens: seq<nat>, c: nat, root: nat, l: nat, left: nat)
    requires ValidLengths(lens) && c < |lens| && root < lens[c] <= l <= MAXBITS
  {
    Shl(left, MAXBITS - l) + Done(lens, c, l - 1) == Pow2(MAXBITS - root) + Start(lens, c)
  }

  lemma RoomStart(lens: seq<nat>, c: nat, root: nat)
    requires ValidLengths(lens) && c < |lens| && root < lens[c]
    ensures Room(lens, c, root, lens[c], Pow2(lens[c] - root))
  {
    ShlPow2(lens[c] - root, MAXBITS - lens[c]);
  }

  lemma RoomNext(lens: seq<nat>, c: nat, root: nat, l: nat, before: nat, left: nat)
    requires ValidLengths(lens) && c < |lens| && root < lens[c] <= l < MAXBITS && Room(lens, c, root, l, before)
    requires before == left + Remaining(lens, Pos(lens, c), l)
    ensures Room(lens, c, root, l + 1, 2 * left)
  {
    DoneStep(lens, c, l);
    ShlAdd(left, Remaining(lens, Pos(lens, c), l), MAXBITS - l);
    ShlDouble(left, MAXBITS - l);
  }

  lemma RoomFull(lens: seq<nat>, c: nat, root: nat, l: nat, before: nat)
    requires ValidLengths(lens) && Kraft(lens) <= Pow2(MAXBITS)
    requires c < |lens| && root < lens[c] <= l <= MAXBITS && Room(lens, c, root, l, before)
    requires before <= Remaining(lens, Pos(lens, c), l)
    ensures Roomy(lens, c, root, l - root)
  {
    DoneStep(lens, c, l);
    ShlMono(before, Remaining(lens, Pos(lens, c), l), MAXBITS - l);
    FitsCell(lens, c, root, l);
  }

  /** The code of c begins where a cell of 2^(15-root) words begins. */
  ghost predicate Aligned(lens: seq<nat>, c: nat, root: nat)
    requires ValidLengths(lens) && c < |lens|
  {
    root <= MAXBITS && Start(lens, c) == Shl(High(Start(lens, c), MAXBITS - root), MAXBITS - root)
  }

  /** Some code that shares the first root bits of c needs a sub-table of this many index bits. */
  ghost predicate Needed(lens: seq<nat>, c: nat, root: nat, curr: nat)
    requires c < |lens|
  {
    exists s :: 0 <= s < |lens| && lens[s] > root && Prefix(lens, s, root) == Prefix(lens, c, root)
      && lens[s] >= root + curr
  }

  /** As long as there is space in the cell of c, a complete code has a longer code there. */
  lemma RoomNeeded(lens: seq<nat>, c: nat, root: nat, l: nat, left: nat)
    requires ValidLengths(lens) && Kraft(lens) == Pow2(MAXBITS) && c < |lens| && Aligned(lens, c, root)
    requires root < lens[c] <= l <= MAXBITS && Room(lens, c, root, l, left) && left > 0
    ensures Needed(lens, c, root, l - root)
  {
    hide Prefix, KraftUpto, Kraft, Low, High, Shl;
    if l > lens[c] {
      var cell := High(Start(lens, c), MAXBITS - root);
      var x := KraftUpto(lens, l - 1);
      ShlMono(0, left, MAXBITS - l);
      ShlAdd(0, 0, MAXBITS - l);
      StartBounds(lens, c);
      KraftUptoMono(lens, lens[c], l - 1);
      KraftUptoMono(lens, l - 1, MAXBITS);
      KraftByLength(lens);
      ShlSucc(cell, MAXBITS - root);
      StartBelow(lens, c, root, cell);
      var s := Covered(lens, MAXBITS, x);
      StartBounds(lens, s);
      if lens[s] < l { KraftUptoMono(lens, lens[s], l - 1); }
      KraftUptoMono(lens, l - 1, lens[s] - 1);
      HighCell(Start(lens, c), MAXBITS - root, cell);
      HighCell(Start(lens, s), MAXBITS - root, cell);
      SamePrefix(lens, s, c, root);
    }
  }

  /** A cell that a code begins in lies within the code space. */
  lemma StartBelow(lens: seq<nat>, c: nat, root: nat, cell: nat)
    requires ValidLengths(lens) && c < |lens| && 0 < lens[c] && root <= MAXBITS && Kraft(lens) <= Pow2(MAXBITS)
    requires Start(lens, c) == Shl(cell, MAXBITS - root)
    ensures Shl(cell + 1, MAXBITS - root) <= Pow2(MAXBITS)
  {
    hide Kraft, KraftUpto, Shl, CodeOf;
    StartBounds(lens, c);
    ShlPow2(root, MAXBITS - root);
    ShlMono(cell, Pow2(root), MAXBITS - root);
    ShlMono(cell + 1, Pow2(root), MAXBITS - root);
  }

  /** Codes follow one another without gaps. */
  lemma StartNext(lens: seq<nat>, s: nat, t: nat)
    requires ValidLengths(lens) && s < |lens| && t < |lens| && 0 < lens[s] && 0 < lens[t]
    requires Pos(lens, t) == Pos(lens, s) + 1
    ensures Start(lens, t) == Shl(CodeOf(lens, s) + 1, MAXBITS - lens[s])
  {
    NextInOrder(lens, s, t);
    ShlShl(CodeOf(lens, s) + 1, lens[t] - lens[s], MAXBITS - lens[t]);
  }

  /** The first code of a cell begins where the cell does. */
  lemma FirstOfCell(lens: seq<nat>, s: nat, t: nat, root: nat)
    requires ValidLengths(lens) && Kraft(lens) <= Pow2(MAXBITS) && root <= MAXBITS
    requires s < |lens| && t < |lens| && 0 < lens[s] && root < lens[t] && Pos(lens, t) == Pos(lens, s) + 1
    requires lens[s] <= root || Prefix(lens, s, root) != Prefix(lens, t, root)
    ensures Aligned(lens, t, root)
  {
    hide Prefix, Kraft, Shl, High, CodeOf, Pos;
    StartNext(lens, s, t);
    var len, d := lens[s], MAXBITS - root;
    var code := CodeOf(lens, s);
    if len <= root {
      ShlShl(code + 1, root - len, d);
      JoinWord(0, Shl(code + 1, root - len), d);
    } else {
      SamePrefix(lens, s, t, root);
      var cell := High(Start(lens, s), d);
      HighOfShl(code, MAXBITS - len, len - root);
      HighCell(code, len - root, cell);
      ShlSucc(cell, len - root);
      ShlMono(code + 1, Shl(cell + 1, len - root), MAXBITS - len);
      ShlShl(cell + 1, len - root, MAXBITS - len);
      ShlSucc(code, MAXBITS - len);
      HighCell(Start(lens, s), d, cell);
      HighCell(Start(lens, t), d, cell);
      ShlSucc(cell, d);
      JoinWord(0, cell + 1, d);
    }
  }

  /** The counts of the lengths from len on, when the first k symbols in order are done. */
  ghost predicate Counts(lens: seq<nat>, count: seq<nat>, k: nat, len: nat)
  {
    |count| == MAXBITS + 1 && forall l :: 1 <= len <= l <= MAXBITS ==> count[l] == Remaining(lens, k, l)
  }

  /** The look-ahead over the remaining counts that sizes a sub-table. */
  method SubtableBits(lens: seq<nat>, count: array<nat>, c: nat, root: nat, max: nat) returns (curr: nat)
    requires ValidLengths(lens) && c < |lens| && root < lens[c] <= max <= MAXBITS && IsMax(lens, max)
    requires Kraft(lens) <= Pow2(MAXBITS) && Counts(lens, count[..], Pos(lens, c), lens[c])
    ensures lens[c] - root <= curr <= max - root
    ensures Roomy(lens, c, root, curr)
    ensures Kraft(lens) == Pow2(MAXBITS) && Aligned(lens, c, root) ==> Needed(lens, c, root, curr)
  {
    curr := lens[c] - root;
    var left: int := Pow2(curr);
    ghost var room := left;
    RoomStart(lens, c, root);
    while curr + root < max
      invariant lens[c] <= curr + root <= max && left > 0
      invariant Room(lens, c, root, curr + root, left) && room == left
    {
      ghost var before := left;
      left := left - count[curr + root];
      if left <= 0 {
        RoomFull(lens, c, root, curr + root, before);
        break;
      }
      RoomNext(lens, c, root, curr + root, before, left);
      curr := curr + 1;
      left := left * 2;
      room := left;
    }
    if Kraft(lens) == Pow2(MAXBITS) && Aligned(lens, c, root) { RoomNeeded(lens, c, root, curr + root, room); }
  }
}
