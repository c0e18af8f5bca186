/** How many entries the two-level table of a code takes: the root table, and for each value of the root bits that
    longer codes begin with a sub-table indexed by the rest of the longest of them. */
module TableSize {
  import opened Bits
  import opened Huffman
  import opened TableFill

  /** The most bits beyond the root bits that a code beginning with low has, among the first n symbols. */
  function Deepest(lens: seq<nat>, root: nat, low: nat, n: nat): nat
    requires n <= |lens|
  {
    if n == 0 then 0
    else
      var d := Deepest(lens, root, low, n - 1);
      if lens[n - 1] > root + d && Prefix(lens, n - 1, root) == low then lens[n - 1] - root else d
  }

  /** The sub-table for the codes that begin with low, if there are any. */
  function SubSize(lens: seq<nat>, root: nat, low: nat): nat
  {
    var d := Deepest(lens, root, low, |lens|);
    if d == 0 then 0 else Pow2(d)
  }

  function SubSizes(lens: seq<nat>, root: nat, m: nat): nat
  {
    if m == 0 then 0 else SubSizes(lens, root, m - 1) + SubSize(lens, root, m - 1)
  }

  /** The size of the whole table. */
  function EntryCount(lens: seq<nat>, root: nat): nat
  {
    Pow2(root) + SubSizes(lens, root, Pow2(root))
  }

  // ---------------------------------------------------------------- the longest code behind a prefix

  lemma {:induction false} DeepestAtLeast(lens: seq<nat>, root: nat, low: nat, n: nat, s: nat)
    requires s < n <= |lens| && lens[s] > root && Prefix(lens, s, root) == low
    ensures Deepest(lens, root, low, n) >= lens[s] - root
    decreases n
  {
    hide Prefix;
    if s < n - 1 { DeepestAtLeast(lens, root, low, n - 1, s); }
  }

  lemma {:induction false} DeepestAtMost(lens: seq<nat>, root: nat, low: nat, n: nat, d: nat)
    requires n <= |lens|
    requires forall s :: 0 <= s < n && lens[s] > root && Prefix(lens, s, root) == low ==> lens[s] <= root + d
    ensures Deepest(lens, root, low, n) <= d
  {
    hide Prefix;
    if n > 0 { DeepestAtMost(lens, root, low, n - 1, d); }
  }

  /** A sub-table with room for all its codes, and no larger than one of them needs, has the right size. */
  lemma SubSizeIs(lens: seq<nat>, c: nat, root: nat, curr: nat)
    requires c < |lens| && lens[c] > root && curr > 0 && Roomy(lens, c, root, curr) && Needed(lens, c, root, curr)
    ensures SubSize(lens, root, Prefix(lens, c, root)) == Pow2(curr)
  {
    hide Prefix, Deepest, Pow2;
    var low := Prefix(lens, c, root);
    DeepestAtMost(lens, root, low, |lens|, curr);
    var s :| 0 <= s < |lens| && lens[s] > root && Prefix(lens, s, root) == low && lens[s] >= root + curr;
    DeepestAtLeast(lens, root, low, |lens|, s);
  }

  /** Where no code begins with low there is no sub-table. */
  lemma {:induction false} NoneDeep(lens: seq<nat>, root: nat, low: nat, n: nat)
    requires n <= |lens|
    requires forall s :: 0 <= s < n && lens[s] > root ==> Prefix(lens, s, root) != low
    ensures Deepest(lens, root, low, n) == 0
  {
    hide Prefix;
    if n > 0 { NoneDeep(lens, root, low, n - 1); }
  }

  // ---------------------------------------------------------------- sums over the sub-tables begun so far

  function SizesIn(lens: seq<nat>, root: nat, m: nat, lows: set<nat>): nat
  {
    if m == 0 then 0
    else SizesIn(lens, root, m - 1, lows) + (if m - 1 in lows then SubSize(lens, root, m - 1) else 0)
  }

  lemma {:induction false} SizesAdd(lens: seq<nat>, root: nat, m: nat, lows: set<nat>, low: nat)
    requires low !in lows
    ensures SizesIn(lens, root, m, lows + {low}) ==
            SizesIn(lens, root, m, lows) + (if low < m then SubSize(lens, root, low) else 0)
  {
    hide SubSize;
    if m > 0 { SizesAdd(lens, root, m - 1, lows, low); }
  }

  lemma {:induction false} SizesAtMost(lens: seq<nat>, root: nat, m: nat, lows: set<nat>)
    ensures SizesIn(lens, root, m, lows) <= SubSizes(lens, root, m)
    ensures (forall low :: 0 <= low < m && low !in lows ==> SubSize(lens, root, low) == 0) ==>
              SizesIn(lens, root, m, lows) == SubSizes(lens, root, m)
  {
    hide SubSize;
    if m > 0 { SizesAtMost(lens, root, m - 1, lows); }
  }

  lemma {:induction false} SizesNone(lens: seq<nat>, root: nat, m: nat)
    ensures SizesIn(lens, root, m, {}) == 0
  {
    if m > 0 { SizesNone(lens, root, m - 1); }
  }

  /** The root bits of the long codes among the first k symbols in code order. */
  ghost function Begun(lens: seq<nat>, order: seq<nat>, root: nat, k: nat): set<nat>
    requires InOrder(lens, order) && k <= |order|
  {
    set i | 0 <= i < k && lens[order[i]] > root :: Prefix(lens, order[i], root)
  }

  /** The entries in use when the tables of the first k symbols have been begun. */
  ghost predicate UsedBy(lens: seq<nat>, order: seq<nat>, root: nat, k: nat, used: nat)
  {
    InOrder(lens, order) && k <= |order|
      && used == Pow2(root) + SizesIn(lens, root, Pow2(root), Begun(lens, order, root, k))
  }

  lemma UsedFirst(lens: seq<nat>, order: seq<nat>, root: nat)
    requires InOrder(lens, order) && 0 < |order| && lens[order[0]] <= root
    ensures UsedBy(lens, order, root, 1, Pow2(root))
  {
    hide Prefix, InOrder;
    assert Begun(lens, order, root, 1) == {};
    SizesNone(lens, root, Pow2(root));
  }

  /** The next symbol goes to a table that was begun before. */
  lemma UsedSame(lens: seq<nat>, order: seq<nat>, root: nat, k: nat, used: nat)
    requires UsedBy(lens, order, root, k, used) && k < |order|
    requires lens[order[k]] > root ==>
              0 < k && lens[order[k - 1]] > root && Prefix(lens, order[k], root) == Prefix(lens, order[k - 1], root)
    ensures UsedBy(lens, order, root, k + 1, used)
  {
    hide Prefix, SizesIn, Pow2;
    assert Begun(lens, order, root, k + 1) == Begun(lens, order, root, k);
  }

  /** The next symbol begins a sub-table. */
  lemma UsedMore(lens: seq<nat>, order: seq<nat>, root: nat, k: nat, used: nat, curr: nat)
    requires UsedBy(lens, order, root, k, used) && k < |order| && lens[order[k]] > root
    requires forall i :: 0 <= i < k && lens[order[i]] > root ==>
              Prefix(lens, order[i], root) != Prefix(lens, order[k], root)
    requires curr > 0 && Roomy(lens, order[k], root, curr) && Needed(lens, order[k], root, curr)
    ensures UsedBy(lens, order, root, k + 1, used + Pow2(curr))
  {
    hide SizesIn, Pow2, Roomy, Needed, SubSize;
    var low := Prefix(lens, order[k], root);
    hide Prefix;
    assert Begun(lens, order, root, k + 1) == Begun(lens, order, root, k) + {low};
    SizesAdd(lens, root, Pow2(root), Begun(lens, order, root, k), low);
    SubSizeIs(lens, order[k], root, curr);
  }

  lemma UsedAtMost(lens: seq<nat>, order: seq<nat>, root: nat, k: nat, used: nat)
    requires UsedBy(lens, order, root, k, used)
    ensures used <= EntryCount(lens, root)
  {
    hide SizesIn, Pow2, Begun, SubSizes, InOrder;
    SizesAtMost(lens, root, Pow2(root), Begun(lens, order, root, k));
  }

  lemma UsedAll(lens: seq<nat>, order: seq<nat>, root: nat, used: nat)
    requires ValidLengths(lens) && UsedBy(lens, order, root, |order|, used)
    ensures used == EntryCount(lens, root)
  {
    hide SizesIn, Pow2, SubSizes, Prefix;
    var lows := Begun(lens, order, root, |order|);
    forall low | 0 <= low < Pow2(root) && low !in lows ensures SubSize(lens, root, low) == 0 {
      forall s | 0 <= s < |lens| && lens[s] > root ensures Prefix(lens, s, root) != low { Listed(lens, order, s); }
      NoneDeep(lens, root, low, |lens|);
    }
    SizesAtMost(lens, root, Pow2(root), lows);
  }

  /** Without codes longer than the root index there is only the root table. */
  lemma OnlyRoot(lens: seq<nat>, root: nat)
    requires forall s :: 0 <= s < |lens| ==> lens[s] <= root
    ensures EntryCount(lens, root) == Pow2(root)
  {
    hide SizesIn, Pow2, SubSizes, Prefix;
    forall low: nat ensures SubSize(lens, root, low) == 0 { NoneDeep(lens, root, low, |lens|); }
    SizesAtMost(lens, root, Pow2(root), {});
    SizesNone(lens, root, Pow2(root));
  }
}
