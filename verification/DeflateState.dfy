/** The compressor's state: the sliding window with the data it holds, the string index, and the operations
    that keep the two in agreement: INSERT_STRING, slide_hash and fill_window. */
module DeflateState {
  import opened Bits
  import opened Lz77
  import opened HashChain
  import opened TokenRules

  const MIN_MATCH: nat := 3
  const MAX_MATCH: nat := 258
  const MIN_LOOKAHEAD: nat := 262

  /** Subtraction of unsigned 32-bit numbers. */
  function Sub32(a: int, b: int): (r: nat)
    ensures r < 0x1_0000_0000
  {
    (a - b) % 0x1_0000_0000
  }

  class State {
    const wsize: nat
    const bits: nat
    const window: array<byte>
    const head: array<nat>
    const prev: array<nat>

    var nextIn: seq<byte>
    var strstart: nat
    var lookahead: nat
    var insH: nat
    var insert: nat
    var blockStart: int
    var highWater: nat
    var matchStart: nat
    var matchLength: nat
    var prevLength: nat
    var prevMatch: nat
    var matchAvailable: bool
    /** How many more blocks the caller's output space takes: it is full once the last of them is written. */
    var space: nat

    /** All input taken so far, how much of it has left the window, and the positions inserted. */
    ghost var data: seq<byte>
    ghost var base: nat
    ghost var ins: set<nat>
    ghost var top: nat
    /** Where the input ended at calls with a flush, and where the history was forgotten, last at floor. */
    ghost var ends: set<nat>
    ghost var forgotten: set<nat>
    ghost var floor: nat

    /** deflateInit2_ and lm_init; a window of 256 bytes is not supported and made 512. */
    constructor (windowBits: nat, memLevel: nat)
      requires 8 <= windowBits <= 15 && 1 <= memLevel <= 9
      ensures Valid() && HashReady() && fresh(window) && fresh(head) && fresh(prev)
      ensures data == [] && nextIn == [] && base == 0 && strstart == 0 && blockStart == 0
      ensures matchLength == 2 && prevLength == 2 && !matchAvailable
      ensures wsize == Pow2(if windowBits == 8 then 9 else windowBits) && bits == memLevel + 7
      ensures ends == {} && forgotten == {0} && ins == {} && Rooted()
    {
      var w := Pow2(if windowBits == 8 then 9 else windowBits);
      WindowSizes(if windowBits == 8 then 9 else windowBits);
      wsize, bits := w, memLevel + 7;
      window := new byte[2 * w];
      head := new nat[Pow2(memLevel + 7)](i => 0);
      prev := new nat[w];
      nextIn, strstart, lookahead, insH, insert, blockStart, highWater := [], 0, 0, 0, 0, 0, 0;
      matchStart, matchLength, prevLength, prevMatch, matchAvailable := 0, 2, 2, 0, false;
      space := 0;
      data, base, ins, top := [], 0, {}, 0;
      ends, forgotten, floor := {}, {0}, 0;
      new;
      ClearChains(head[..], prev[..], data, base, ins, top, bits);
      assert window[..0] == data[0..];
    }

    function MaxDist(): int
    {
      wsize - MIN_LOOKAHEAD
    }

    /** What the rules for tokens are about. */
    ghost function View(): View
      reads this`data, this`ins, this`ends, this`forgotten
    {
      TokenRules.View(data, ins, ends, forgotten, bits, MaxDist())
    }

    /** Once the window has moved on from where the history began, as much of it is kept as a match can reach. */
    ghost predicate Rooted()
      reads this`base, this`strstart, this`floor, this`forgotten
    {
      floor in forgotten && floor <= base && (floor < base ==> strstart >= MaxDist())
    }

    twostate lemma RootedOn()
      requires old(Rooted()) && base == old(base) && strstart >= old(strstart)
      requires floor == old(floor) && forgotten == old(forgotten)
      ensures Rooted()
    {
    }

    ghost predicate Shape()
    {
      && 512 <= wsize <= 32768 && 8 <= bits <= 16
      && window.Length == 2 * wsize && prev.Length == wsize && head.Length == Pow2(bits) && head != prev
    }

    /** The window holds the end of the data, and the index agrees with it. */
    ghost predicate Holds()
      reads this`data, this`base, this`ins, this`top, window, head, prev
    {
      && Shape() && base <= |data| <= base + 2 * wsize
      && window[..|data| - base] == data[base..]
      && Chains(head[..], prev[..], data, base, ins, top, bits)
      && (top == 0 || top + 2 <= |data|)
    }

    /** The state between two steps: strings still to be inserted lack bytes. */
    ghost predicate Valid()
      reads this`data, this`base, this`ins, this`top, this`strstart, this`lookahead, this`insert, window, head, prev
    {
      && Holds() && |data| == base + strstart + lookahead && top <= base + strstart
      && insert <= strstart && (insert > 0 ==> lookahead + insert < MIN_MATCH)
    }

    /** The key is ready for the string at index i. */
    ghost predicate KeyAt(i: nat)
      reads this`insH, window
    {
      8 <= bits && i + 1 < window.Length && Rolling(insH, window[i], window[i + 1], bits)
    }

    /** The key is ready for the next string, if there is one to insert. */
    ghost predicate HashReady()
      reads this`insH, this`strstart, this`lookahead, window
    {
      lookahead >= MIN_MATCH ==> KeyAt(strstart)
    }

    lemma Ranges()
      requires Holds()
      ensures Shape() && base <= |data| <= base + 2 * wsize
      ensures |head[..]| == head.Length && |prev[..]| == prev.Length == wsize
    {
    }

    lemma Sizes()
      requires Valid()
      ensures Shape() && Holds() && |data| == base + strstart + lookahead && strstart + lookahead <= 2 * wsize
      ensures top <= base + strstart && top + insert <= base + strstart && insert <= strstart && insert <= 2
    {
    }

    /** A byte of the window. */
    lemma At(i: nat)
      requires Holds() && base + i < |data|
      ensures i < window.Length && window[i] == data[base + i]
    {
      assert window[..|data| - base][i] == data[base..][i];
    }

    /** UPDATE_HASH gives the key of the string at i. */
    lemma KeyIs(i: nat)
      requires Holds() && KeyAt(i) && base + i + 3 <= |data|
      ensures i + 2 < window.Length && Update(insH, window[i + 2], bits) == HashAt(data, base + i, bits)
      ensures Rolling(HashAt(data, base + i, bits), window[i + 1], window[i + 2], bits)
      ensures HashAt(data, base + i, bits) < head.Length
    {
      At(i);
      At(i + 1);
      At(i + 2);
      RollUse(insH, window[i], window[i + 1], window[i + 2], bits);
      RollNext(window[i], window[i + 1], window[i + 2], bits);
    }

    /** INSERT_STRING: the previous head of the chain is an earlier string with the same key. */
    method InsertString(str: nat) returns (matchHead: nat)
      requires Holds() && KeyAt(str) && top <= base + str && base + str + 3 <= |data|
      modifies this`insH, this`ins, this`top, head, prev
      ensures Holds() && KeyAt(str + 1) && top == base + str + 1 && ins == old(ins) + {base + str}
      ensures Leads(matchHead, data, base, ins, bits, HashAt(data, base + str, bits))
      ensures NonePassed(matchHead, data, base, ins, bits, HashAt(data, base + str, bits), base + str)
      ensures matchHead < str || matchHead == 0
      ensures Grows(old(View()), View(), old(top))
    {
      hide Chains, HashAt, Update, Rolling, Pow2, NonePassed;
      Ranges();
      KeyIs(str);
      ghost var hs, ps := head[..], prev[..];
      insH := Update(insH, window[str + 2], bits);
      InsertKeeps(hs, ps, data, base, ins, top, bits, str, insH);
      matchHead := head[insH];
      prev[str % wsize] := matchHead;
      head[insH] := str;
      ins := ins + {base + str};
      top := base + str + 1;
      assert head[..] == hs[insH := str];
      assert prev[..] == ps[str % wsize := matchHead];
      HeadLeads(hs, ps, data, base, old(ins), old(top), bits, insH, base + str);
    }

    // -------------------------------------------------------------- sliding

    /** zmemcpy of the upper part of the window to its bottom. */
    method MoveDown(n: nat)
      requires wsize + n <= window.Length && n <= wsize
      modifies window
      ensures window[..n] == old(window[wsize..wsize + n])
    {
      for j := 0 to n
        invariant forall i :: 0 <= i < j ==> window[i] == old(window[wsize + i])
        invariant forall i :: wsize <= i < window.Length ==> window[i] == old(window[i])
      {
        window[j] := window[wsize + j];
      }
    }

    /** slide_hash: both arrays, from the last entry down. */
    method SlideHash()
      requires head != prev
      modifies head, prev
      ensures head[..] == SlidAll(old(head[..]), wsize) && prev[..] == SlidAll(old(prev[..]), wsize)
    {
      SlideArray(head, wsize);
      SlideArray(prev, wsize);
    }

    /** The window moves on by wsize bytes: absolute positions do not change. */
    method SlideWindow()
      requires Valid() && strstart >= wsize + MaxDist()
      modifies this`strstart, this`matchStart, this`blockStart, this`base, window, head, prev
      ensures old(Rooted()) ==> Rooted()
      ensures Valid() && base == old(base) + wsize && strstart == old(strstart) - wsize
      ensures matchStart == Sub32(old(matchStart), wsize) && blockStart == old(blockStart) - wsize
    {
      hide *;
      Sizes();
      Parts();
      MaxDistIs();
      var end := strstart + lookahead;
      ghost var hs, ps, w := head[..], prev[..], window[..];
      MoveDown(end - wsize);
      MovedDown(w, window[..], data, base, end, wsize);
      matchStart := Sub32(matchStart, wsize);
      strstart := strstart - wsize;
      blockStart := blockStart - wsize;
      SlideHash();
      SlideKeeps(hs, ps, data, base, ins, top, bits);
      base := base + wsize;
      Whole();
      if old(Rooted()) { RootedSlid(); }
    }

    /** The key stays ready, too. */
    method Slide()
      requires Valid() && strstart >= wsize + MaxDist()
      modifies this`strstart, this`matchStart, this`blockStart, this`base, window, head, prev
      ensures Valid() && base == old(base) + wsize && strstart == old(strstart) - wsize
      ensures (old(HashReady()) ==> HashReady()) && (old(Rooted()) ==> Rooted())
      ensures matchStart == Sub32(old(matchStart), wsize) && blockStart == old(blockStart) - wsize
    {
      hide *;
      Sizes();
      ghost var a, b := 0, 0;
      ghost var ready := HashReady() && 3 <= lookahead;
      if ready {
        a, b := data[base + strstart], data[base + strstart + 1];
        IsReady(a, b);
      }
      SlideWindow();
      Sizes();
      if lookahead < 3 { NotReady(); } else if ready { Ready(a, b); }
    }

    twostate lemma RootedSlid()
      requires old(Rooted()) && old(strstart) >= wsize + MaxDist()
      requires base == old(base) + wsize && strstart + wsize == old(strstart)
      requires floor == old(floor) && forgotten == old(forgotten)
      ensures Rooted()
    {
    }

    lemma IsReady(a: byte, b: byte)
      requires Valid() && HashReady() && 3 <= lookahead && base + strstart + 1 < |data|
      requires a == data[base + strstart] && b == data[base + strstart + 1]
      ensures 8 <= bits && Rolling(insH, a, b, bits)
    {
      At(strstart);
      At(strstart + 1);
    }

    lemma Ready(a: byte, b: byte)
      requires Valid() && base + strstart + 1 < |data|
      requires a == data[base + strstart] && b == data[base + strstart + 1] && Rolling(insH, a, b, bits)
      ensures HashReady()
    {
      At(strstart);
      At(strstart + 1);
    }

    lemma NotReady()
      requires lookahead < 3
      ensures HashReady()
    {
    }

    lemma MaxDistIs()
      requires Shape()
      ensures 250 <= MaxDist() == wsize - 262 && prev.Length == wsize && window.Length == 2 * wsize && head != prev
    {
    }

    /** The view with more data. */
    lemma ViewGrows(bs: seq<byte>)
      requires Holds()
      ensures Grows(View(), TokenRules.View(data + bs, ins, ends, forgotten, bits, MaxDist()), top)
    {
      hide HashAt, Pow2;
    }

    lemma ViewIs()
      ensures View() == TokenRules.View(data, ins, ends, forgotten, bits, MaxDist()) && data + [] == data
    {
    }

    lemma MaxDistNow()
      requires Holds()
      ensures 250 <= MaxDist() == wsize - 262 && wsize <= 32768
    {
    }

    /** What the state is made of. */
    lemma Parts()
      requires Valid()
      ensures window.Length == 2 * wsize && |data| == base + strstart + lookahead
      ensures strstart + lookahead <= window.Length && window[..strstart + lookahead] == data[base..]
      ensures Chains(head[..], prev[..], data, base, ins, top, bits) && (top == 0 || top + 2 <= |data|)
      ensures insert <= strstart && (insert > 0 ==> lookahead + insert < MIN_MATCH)
    {
    }

    lemma Whole()
      requires Shape() && |data| == base + strstart + lookahead && strstart + lookahead <= 2 * wsize
      requires window[..strstart + lookahead] == data[base..]
      requires Chains(head[..], prev[..], data, base, ins, top, bits) && (top == 0 || top + 2 <= |data|)
      requires top <= base + strstart && insert <= strstart && (insert > 0 ==> lookahead + insert < MIN_MATCH)
      ensures Valid()
    {
      assert |data| - base == strstart + lookahead;
    }

    static lemma MovedDown(w: seq<byte>, w': seq<byte>, data: seq<byte>, base: nat, end: nat, wsize: nat)
      requires wsize <= end <= |w| == |w'| && |data| == base + end && w[..end] == data[base..]
      requires w'[..end - wsize] == w[wsize..end]
      ensures w'[..end - wsize] == data[base + wsize..]
    {
      assert w[wsize..end] == w[..end][wsize..] == data[base..][wsize..];
    }
  }

  lemma WindowSizes(n: nat)
    requires 9 <= n <= 15
    ensures 512 <= Pow2(n) <= 32768
  {
    assert Pow2(4) == 16 && Pow2(9) == 512;
    assert Pow2(12) == 4096 && Pow2(15) == 32768;
    Pow2Mono(9, n);
    Pow2Mono(n, 15);
  }

  /** The head before an insertion. */
  lemma HeadLeads(head: seq<nat>, prev: seq<nat>, data: seq<byte>, base: nat, ins: set<nat>, top: nat, bits: nat,
                  h: nat, p: nat)
    requires Chains(head, prev, data, base, ins, top, bits) && h < |head| && top <= p
    ensures Leads(head[h], data, base, ins + {p}, bits, h)
    ensures NonePassed(head[h], data, base, ins + {p}, bits, h, p)
    ensures forall q :: q in ins ==> q < top && q + 3 <= |data|
  {
    hide HashAt;
  }

  method SlideArray(a: array<nat>, w: nat)
    modifies a
    ensures a[..] == SlidAll(old(a[..]), w)
  {
    var n := a.Length;
    while n != 0
      invariant 0 <= n <= a.Length
      invariant forall i :: 0 <= i < n ==> a[i] == old(a[i])
      invariant forall i :: n <= i < a.Length ==> a[i] == Slid(old(a[i]), w)
    {
      n := n - 1;
      a[n] := if a[n] >= w then a[n] - w else 0;
    }
  }
}
