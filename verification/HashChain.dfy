/** The match finder's index: a rolling hash of three bytes, heads of hash chains, and links indexed modulo
    the window size. Positions are absolute here: a window index counts from base, the number of bytes that
    have left the window. */
module HashChain {
  import opened Bits
  import opened Lz77

  // ---------------------------------------------------------------- the rolling hash

  /** The n low bits of the exclusive or. */
  function Xor(x: nat, y: nat, n: nat): (r: nat)
    ensures r < Pow2(n)
  {
    if n == 0 then 0 else (if x % 2 == y % 2 then 0 else 1) + 2 * Xor(x / 2, y / 2, n - 1)
  }

  /** After three updates the oldest byte has left the key. */
  function HashShift(bits: nat): (r: nat)
    ensures 3 * r >= bits
  {
    (bits + 2) / 3
  }

  /** UPDATE_HASH; the mask keeps the low bits. */
  function Update(h: nat, c: byte, bits: nat): (r: nat)
    ensures r < Pow2(bits)
  {
    Xor(Shl(h, HashShift(bits)), c, bits)
  }

  function Hash3(a: byte, b: byte, c: byte, bits: nat): (r: nat)
    ensures r < Pow2(bits)
  {
    Update(Update(a, b, bits), c, bits)
  }

  lemma {:induction false} XorLow(x: nat, y: nat, n: nat, k: nat)
    requires k <= n
    ensures Low(Xor(x, y, n), k) == Xor(x, y, k)
  {
    if k > 0 { XorLow(x / 2, y / 2, n - 1, k - 1); }
  }

  lemma {:induction false} XorOfLow(x: nat, x': nat, y: nat, n: nat)
    requires Low(x, n) == Low(x', n)
    ensures Xor(x, y, n) == Xor(x', y, n)
  {
    if n > 0 {
      assert x % 2 == x' % 2;
      XorOfLow(x / 2, x' / 2, y / 2, n - 1);
    }
  }

  lemma {:induction false} XorZero(y: nat, n: nat)
    ensures Xor(0, y, n) == Low(y, n)
  {
    if n > 0 { XorZero(y / 2, n - 1); }
  }

  lemma {:induction false} XorCancel(x: nat, y: nat, y': nat, n: nat)
    requires Xor(x, y, n) == Xor(x, y', n)
    ensures Low(y, n) == Low(y', n)
  {
    if n > 0 {
      assert y % 2 == y' % 2;
      XorCancel(x / 2, y / 2, y' / 2, n - 1);
    }
  }

  lemma {:induction false} LowShl(x: nat, s: nat, k: nat)
    ensures Low(Shl(x, s), s + k) == Shl(Low(x, k), s)
  {
    if s > 0 { LowShl(x, s - 1, k); }
  }

  /** An update shifts what two keys agree on. */
  lemma UpdateAgree(x: nat, y: nat, c: byte, bits: nat, k: nat, j: nat)
    requires Low(x, k) == Low(y, k) && j <= bits && j <= k + HashShift(bits)
    ensures Low(Update(x, c, bits), j) == Low(Update(y, c, bits), j)
  {
    hide Low, Xor, Shl;
    var s := HashShift(bits);
    LowShl(x, s, k);
    LowShl(y, s, k);
    LowLow(Shl(x, s), j, s + k);
    LowLow(Shl(y, s), j, s + k);
    XorOfLow(Shl(x, s), Shl(y, s), c, j);
    XorLow(Shl(x, s), c, bits, j);
    XorLow(Shl(y, s), c, bits, j);
  }

  /** An update brings in its byte at the bottom. */
  lemma UpdateBottom(h: nat, a: byte, bits: nat)
    requires HashShift(bits) <= bits
    ensures Low(Update(h, a, bits), HashShift(bits)) == Low(a, HashShift(bits))
  {
    var s := HashShift(bits);
    LowShl(h, s, 0);
    assert Low(h, 0) == 0 && Low(0, s) <= 0;
    ShlZero(s);
    hide Low, Xor, Shl;
    XorLow(Shl(h, s), a, bits, s);
    XorOfLow(Shl(h, s), 0, a, s);
    XorZero(a, s);
  }

  /** The key is ready for a third byte: what the next update keeps of it comes from a and b alone. */
  predicate Rolling(h: nat, a: byte, b: byte, bits: nat)
    requires HashShift(bits) <= bits
  {
    Low(h, bits - HashShift(bits)) == Low(Update(a, b, bits), bits - HashShift(bits))
  }

  lemma RollUse(h: nat, a: byte, b: byte, c: byte, bits: nat)
    requires HashShift(bits) <= bits && Rolling(h, a, b, bits)
    ensures Update(h, c, bits) == Hash3(a, b, c, bits)
  {
    hide Low;
    UpdateAgree(h, Update(a, b, bits), c, bits, bits - HashShift(bits), bits);
    LowSmall(Update(h, c, bits), bits);
    LowSmall(Hash3(a, b, c, bits), bits);
  }

  lemma RollNext(a: byte, b: byte, c: byte, bits: nat)
    requires HashShift(bits) <= bits
    ensures Rolling(Hash3(a, b, c, bits), b, c, bits)
  {
    hide Low, Update;
    UpdateBottom(a, b, bits);
    UpdateAgree(Update(a, b, bits), b, c, bits, HashShift(bits), bits - HashShift(bits));
  }

  /** The third byte need not be compared: equal keys and equal first bytes force it. */
  lemma ThirdByte(a: byte, b: byte, c: byte, c': byte, bits: nat)
    requires bits >= 8 && Hash3(a, b, c, bits) == Hash3(a, b, c', bits)
    ensures c == c'
  {
    hide Low, Shl, Xor;
    XorCancel(Shl(Update(a, b, bits), HashShift(bits)), c, c', bits);
    assert Pow2(4) == 16 && Pow2(8) == 256;
    Pow2Mono(8, bits);
    LowSmall(c, bits);
    LowSmall(c', bits);
  }

  // ---------------------------------------------------------------- chains

  function HashAt(data: seq<byte>, p: nat, bits: nat): nat
    requires p + 3 <= |data|
  {
    Hash3(data[p], data[p + 1], data[p + 2], bits)
  }

  /** A head or link v is NIL or leads to an inserted string with key h. */
  ghost predicate Leads(v: nat, data: seq<byte>, base: nat, ins: set<nat>, bits: nat, h: nat)
  {
    v == 0 || (base + v in ins && base + v + 3 <= |data| && HashAt(data, base + v, bits) == h)
  }

  /** A link leads to an earlier string with the same key. */
  ghost predicate LinkOk(v: nat, p: nat, data: seq<byte>, base: nat, ins: set<nat>, bits: nat)
  {
    v == 0 || (base + v < p && p + 3 <= |data| && Leads(v, data, base, ins, bits, HashAt(data, p, bits)))
  }

  /** A head or link v passes over no string with key h that was inserted before position p: they are at
      base + v or before it. */
  ghost predicate NonePassed(v: nat, data: seq<byte>, base: nat, ins: set<nat>, bits: nat, h: nat, p: nat)
  {
    forall q :: q in ins && q < p && q + 3 <= |data| && HashAt(data, q, bits) == h ==> q <= base + v
  }

  /** The index agrees with the data. ins holds the positions inserted, all before top; a head is the last
      string inserted with its key, and the link of an inserted position, which counts as long as no position
      wsize further has been inserted, is the last before it. */
  ghost predicate Chains(head: seq<nat>, prev: seq<nat>, data: seq<byte>, base: nat, ins: set<nat>, top: nat, bits: nat)
  {
    && |head| == Pow2(bits) && 0 < |prev|
    && (forall p :: p in ins ==> p < top && p + 3 <= |data|)
    && (forall h :: 0 <= h < |head| ==> Leads(head[h], data, base, ins, bits, h))
    && (forall p :: p in ins && base <= p && top <= p + |prev| ==>
                      LinkOk(prev[(p - base) % |prev|], p, data, base, ins, bits))
    && (forall h :: 0 <= h < |head| ==> NonePassed(head[h], data, base, ins, bits, h, top))
    && (forall p :: p in ins && base <= p && top <= p + |prev| ==>
                      NonePassed(prev[(p - base) % |prev|], data, base, ins, bits, HashAt(data, p, bits), p))
  }

  /** Two indices in the same slot are a window apart. */
  lemma SlotsApart(i: nat, j: nat, w: nat)
    requires i < j < i + w
    ensures i % w != j % w
  {
    Whole(j / w - i / w, w);
    assert j - i == w * (j / w - i / w) + (j % w - i % w);
  }

  /** A multiple of w is zero or at least w away from it. */
  lemma Whole(d: int, w: nat)
    ensures d >= 1 ==> w * d >= w
    ensures d <= -1 ==> w * d + w <= 0
  {
  }

  lemma SlotShift(i: nat, w: nat)
    requires 0 < w <= i
    ensures (i - w) % w == i % w
  {
    var d := (i - w) / w - (i / w - 1);
    Whole(d, w);
    assert w * d == i % w - (i - w) % w;
  }

  /** Inserting the string at window index str with its key. */
  lemma InsertKeeps(head: seq<nat>, prev: seq<nat>, data: seq<byte>, base: nat, ins: set<nat>, top: nat, bits: nat,
                    str: nat, h: nat)
    requires Chains(head, prev, data, base, ins, top, bits) && top <= base + str && base + str + 3 <= |data|
    requires h == HashAt(data, base + str, bits) && h < |head|
    ensures Chains(head[h := str], prev[str % |prev| := head[h]], data, base, ins + {base + str}, base + str + 1, bits)
    ensures head[h] != 0 ==> head[h] < str
  {
    hide HashAt, Pow2;
    var w := |prev|;
    forall p | p in ins && base <= p && base + str + 1 <= p + w ensures (p - base) % w != str % w {
      SlotsApart(p - base, str, w);
    }
    InsertPasses(head, prev, data, base, ins, top, bits, str, h);
  }

  /** Nothing is passed over after inserting. */
  lemma InsertPasses(head: seq<nat>, prev: seq<nat>, data: seq<byte>, base: nat, ins: set<nat>, top: nat, bits: nat,
                     str: nat, h: nat)
    requires Chains(head, prev, data, base, ins, top, bits) && top <= base + str && base + str + 3 <= |data|
    requires h == HashAt(data, base + str, bits) && h < |head|
    ensures forall g :: 0 <= g < |head| ==>
                          NonePassed(if g == h then str else head[g], data, base, ins + {base + str}, bits, g,
                                     base + str + 1)
    ensures forall p :: p in ins + {base + str} && base <= p && base + str + 1 <= p + |prev| ==>
                          NonePassed(prev[str % |prev| := head[h]][(p - base) % |prev|], data, base,
                                     ins + {base + str}, bits, HashAt(data, p, bits), p)
  {
    hide HashAt, Pow2, Leads, LinkOk;
    var w := |prev|;
    forall p | p in ins && base <= p && base + str + 1 <= p + w ensures (p - base) % w != str % w {
      SlotsApart(p - base, str, w);
    }
  }

  /** What slide_hash does to one entry. */
  function Slid(v: nat, w: nat): nat
  {
    if v >= w then v - w else 0
  }

  function SlidAll(s: seq<nat>, w: nat): (r: seq<nat>)
    ensures |r| == |s| && forall i :: 0 <= i < |s| ==> r[i] == Slid(s[i], w)
  {
    seq(|s|, i requires 0 <= i < |s| => Slid(s[i], w))
  }

  lemma SlidLink(v: nat, p: nat, data: seq<byte>, base: nat, ins: set<nat>, bits: nat, w: nat)
    requires LinkOk(v, p, data, base, ins, bits)
    ensures LinkOk(Slid(v, w), p, data, base + w, ins, bits)
  {
  }

  lemma SlidPasses(v: nat, data: seq<byte>, base: nat, ins: set<nat>, bits: nat, h: nat, p: nat, w: nat)
    requires NonePassed(v, data, base, ins, bits, h, p)
    ensures NonePassed(Slid(v, w), data, base + w, ins, bits, h, p)
  {
  }

  /** The index survives sliding the window. */
  lemma SlideKeeps(head: seq<nat>, prev: seq<nat>, data: seq<byte>, base: nat, ins: set<nat>, top: nat, bits: nat)
    requires Chains(head, prev, data, base, ins, top, bits)
    ensures Chains(SlidAll(head, |prev|), SlidAll(prev, |prev|), data, base + |prev|, ins, top, bits)
  {
    hide HashAt, Pow2, NonePassed, LinkOk, SlidAll;
    var w := |prev|;
    forall p | p in ins && base + w <= p && top <= p + w
      ensures LinkOk(SlidAll(prev, w)[(p - (base + w)) % w], p, data, base + w, ins, bits)
      ensures NonePassed(SlidAll(prev, w)[(p - (base + w)) % w], data, base + w, ins, bits, HashAt(data, p, bits), p)
    {
      SlotShift(p - base, w);
      SlidLink(prev[(p - base) % w], p, data, base, ins, bits, w);
      SlidPasses(prev[(p - base) % w], data, base, ins, bits, HashAt(data, p, bits), p, w);
    }
    SlideHeads(head, prev, data, base, ins, top, bits);
  }

  lemma SlideHeads(head: seq<nat>, prev: seq<nat>, data: seq<byte>, base: nat, ins: set<nat>, top: nat, bits: nat)
    requires Chains(head, prev, data, base, ins, top, bits)
    ensures forall h :: 0 <= h < |head| ==> Leads(SlidAll(head, |prev|)[h], data, base + |prev|, ins, bits, h)
    ensures forall h :: 0 <= h < |head| ==>
                          NonePassed(SlidAll(head, |prev|)[h], data, base + |prev|, ins, bits, h, top)
  {
    hide HashAt, Pow2, NonePassed, LinkOk;
    forall h | 0 <= h < |head|
      ensures NonePassed(SlidAll(head, |prev|)[h], data, base + |prev|, ins, bits, h, top)
    {
      SlidPasses(head[h], data, base, ins, bits, h, top, |prev|);
    }
  }

  /** More data does not disturb the index. */
  lemma GrowKeeps(head: seq<nat>, prev: seq<nat>, data: seq<byte>, more: seq<byte>, base: nat, ins: set<nat>, top: nat,
                  bits: nat)
    requires Chains(head, prev, data, base, ins, top, bits)
    ensures Chains(head, prev, data + more, base, ins, top, bits)
  {
    hide Pow2;
    forall p: nat | p + 3 <= |data| ensures HashAt(data + more, p, bits) == HashAt(data, p, bits) {
      hide Hash3;
    }
    hide HashAt;
  }

  /** An empty index: no string inserted counts any more. */
  lemma ClearChains(head: seq<nat>, prev: seq<nat>, data: seq<byte>, base: nat, ins: set<nat>, top: nat, bits: nat)
    requires |head| == Pow2(bits) && 0 < |prev| && forall h :: 0 <= h < |head| ==> head[h] == 0
    requires top <= base && forall p :: p in ins ==> p < top && p + 3 <= |data|
    ensures Chains(head, prev, data, base, ins, top, bits)
  {
  }

  /** Following a live link. */
  lemma Follow(head: seq<nat>, prev: seq<nat>, data: seq<byte>, base: nat, ins: set<nat>, top: nat, bits: nat, cur: nat)
    requires Chains(head, prev, data, base, ins, top, bits) && base + cur in ins && top <= base + cur + |prev|
    ensures LinkOk(prev[cur % |prev|], base + cur, data, base, ins, bits) && base + cur + 3 <= |data|
    ensures NonePassed(prev[cur % |prev|], data, base, ins, bits, HashAt(data, base + cur, bits), base + cur)
  {
    hide LinkOk, NonePassed;
    assert base + cur - base == cur;
  }
}
