/** fill_window: make room by sliding, read input, and bring the string index up to date. */
module FillWindow {
  import opened Bits
  import opened Lz77
  import opened HashChain
  import opened TokenRules
  import opened DeflateState

  const WIN_INIT: nat := MAX_MATCH

  /** zmemcpy from the input into the window. */
  method CopyIn(window: array<byte>, at: nat, bs: seq<byte>)
    requires at + |bs| <= window.Length
    modifies window
    ensures window[..at + |bs|] == old(window[..at]) + bs
  {
    for j := 0 to |bs|
      invariant window[..at] == old(window[..at])
      invariant forall i :: at <= i < at + j ==> window[i] == bs[i - at]
    {
      window[at + j] := bs[j];
    }
  }

  /** The data and the window after reading, with the strings left to insert still to come. */
  ghost predicate HasRead(s: State)
    reads s`data, s`base, s`ins, s`top, s`strstart, s`lookahead, s`insert, s.window, s.head, s.prev
  {
    && s.Holds() && |s.data| == s.base + s.strstart + s.lookahead
    && s.top + s.insert <= s.base + s.strstart && s.insert <= s.strstart
  }

  lemma ReadWhole(s: State, data: seq<byte>, bs: seq<byte>)
    requires s.Shape() && s.data == data + bs && |s.data| == s.base + s.strstart + s.lookahead
    requires s.strstart + s.lookahead <= 2 * s.wsize && s.base <= |data|
    requires s.window[..s.strstart + s.lookahead] == data[s.base..] + bs
    requires Chains(s.head[..], s.prev[..], data, s.base, s.ins, s.top, s.bits) && (s.top == 0 || s.top + 2 <= |data|)
    requires s.top + s.insert <= s.base + s.strstart && s.insert <= s.strstart
    ensures HasRead(s)
  {
    GrowKeeps(s.head[..], s.prev[..], data, bs, s.base, s.ins, s.top, s.bits);
    assert (data + bs)[s.base..] == data[s.base..] + bs;
    assert |s.data| - s.base == s.strstart + s.lookahead;
  }

  /** Take n bytes of input into the window. */
  method Append(s: State, n: nat)
    requires s.Valid() && n <= |s.nextIn| && s.strstart + s.lookahead + n <= 2 * s.wsize
    modifies s`nextIn, s`lookahead, s`data, s.window
    ensures HasRead(s) && s.data == old(s.data) + old(s.nextIn)[..n] && s.lookahead == old(s.lookahead) + n
    ensures s.nextIn == old(s.nextIn)[n..] && Grows(old(s.View()), s.View(), s.top)
  {
    hide *;
    var bs := s.nextIn[..n];
    s.Sizes();
    s.Parts();
    s.ViewGrows(bs);
    s.MaxDistIs();
    ghost var data := s.data;
    CopyIn(s.window, s.strstart + s.lookahead, bs);
    s.lookahead := s.lookahead + |bs|;
    s.data := s.data + bs;
    s.nextIn := s.nextIn[n..];
    ReadWhole(s, data, bs);
    s.ViewIs();
  }

  lemma Taken(data: seq<byte>, input: seq<byte>, n: nat)
    requires n <= |input|
    ensures data + input[..n] + input[n..] == data + input && data <= data + input[..n]
  {
    assert input[..n] + input[n..] == input;
  }

  /** read_buf: as much input as there is room for. */
  method ReadBuf(s: State, more: nat)
    requires s.Valid() && s.strstart + s.lookahead + more <= 2 * s.wsize
    modifies s`nextIn, s`lookahead, s`data, s.window
    ensures HasRead(s) && s.data + s.nextIn == old(s.data + s.nextIn) && old(s.data) <= s.data
    ensures s.lookahead - old(s.lookahead) == |s.data| - |old(s.data)|
    ensures s.nextIn == [] || s.lookahead == old(s.lookahead) + more
    ensures Grows(old(s.View()), s.View(), s.top)
  {
    hide *;
    var n := |s.nextIn|;
    if n > more { n := more; }
    Taken(s.data, s.nextIn, n);
    Append(s, n);
  }

  /** The key from its first two bytes. */
  lemma FirstKey(s: State, str: nat)
    requires s.Holds() && s.base + str + 1 < |s.data|
    requires s.insH == Update(s.data[s.base + str], s.data[s.base + str + 1], s.bits)
    ensures s.KeyAt(str)
  {
    hide Chains, Update;
    s.At(str);
    s.At(str + 1);
  }

  lemma ReadParts(s: State)
    requires HasRead(s)
    ensures s.Shape() && s.Holds() && |s.data| == s.base + s.strstart + s.lookahead && s.insert <= s.strstart
    ensures s.top + s.insert <= s.base + s.strstart && s.window.Length == 2 * s.wsize
    ensures s.strstart + s.lookahead <= 2 * s.wsize
  {
  }

  lemma ReadValid(s: State)
    requires s.Holds() && |s.data| == s.base + s.strstart + s.lookahead && s.top + s.insert <= s.base + s.strstart
    requires s.insert <= s.strstart && (s.insert == 0 || s.lookahead + s.insert < 3)
    ensures s.Valid()
  {
  }

  lemma KeyReady(s: State)
    requires s.lookahead < 3 || s.KeyAt(s.strstart)
    ensures s.HashReady()
  {
  }

  /** Start the key afresh and insert the strings left over from before. */
  method InitHash(s: State)
    requires HasRead(s) && s.lookahead + s.insert >= 3
    modifies s`insH, s`insert, s`ins, s`top, s.head, s.prev
    ensures s.Valid() && s.HashReady() && Grows(old(s.View()), s.View(), old(s.top)) && s.top >= old(s.top)
  {
    hide *;
    ReadParts(s);
    s.ViewGrows([]);
    s.ViewIs();
    ghost var v, t := s.View(), s.top;
    var str := s.strstart - s.insert;
    s.At(str);
    s.At(str + 1);
    s.insH := s.window[str];
    s.insH := Update(s.insH, s.window[str + 1], s.bits);
    FirstKey(s, str);
    var going := true;
    while going && s.insert != 0
      invariant s.Holds() && str == s.strstart - s.insert && s.top + s.insert <= s.base + s.strstart
      invariant |s.data| == s.base + s.strstart + s.lookahead && s.insert <= s.strstart
      invariant going <==> s.lookahead + s.insert >= 3
      invariant s.KeyAt(str) && Grows(v, s.View(), t) && t <= s.top
      decreases s.insert
    {
      ghost var v', t' := s.View(), s.top;
      var _ := s.InsertString(str);
      GrowsOn(v, v', s.View(), t, t');
      str := str + 1;
      s.insert := s.insert - 1;
      if s.lookahead + s.insert < 3 { going := false; }
    }
    ReadValid(s);
    KeyReady(s);
  }

  /** What no step of fill_window changes: the absolute position, the input as a whole, where the block
      began, and the distance to the last match. */
  ghost predicate SamePlace(s: State, pos: int, all: seq<byte>, data: seq<byte>, block: int, dist: nat)
    reads s`strstart, s`base, s`data, s`nextIn, s`blockStart, s`matchStart
  {
    && s.base + s.strstart == pos && s.data + s.nextIn == all && data <= s.data
    && s.base + s.blockStart == block && Sub32(s.strstart, s.matchStart) == dist
  }

  lemma StillPlace(s: State, pos: int, all: seq<byte>, data: seq<byte>, data': seq<byte>, block: int, dist: nat)
    requires data <= data' <= s.data && s.data + s.nextIn == all && s.base + s.strstart == pos
    requires s.base + s.blockStart == block && Sub32(s.strstart, s.matchStart) == dist
    ensures SamePlace(s, pos, all, data, block, dist)
  {
  }

  lemma InPlace(s: State, pos: int, all: seq<byte>, data: seq<byte>, block: int, dist: nat)
    requires SamePlace(s, pos, all, data, block, dist)
    ensures data <= s.data && s.data + s.nextIn == all && s.base + s.strstart == pos
    ensures s.base + s.blockStart == block && Sub32(s.strstart, s.matchStart) == dist
  {
  }

  lemma SubSlide(a: int, b: int, w: int)
    ensures Sub32(a - w, Sub32(b, w)) == Sub32(a, b)
  {
  }

  /** The slide at the start of a round. */
  method MakeRoom(s: State, ghost pos: int, ghost all: seq<byte>, ghost data: seq<byte>, ghost block: int,
                  ghost dist: nat)
    returns (more: nat)
    requires s.Valid() && s.lookahead < 262 && SamePlace(s, pos, all, data, block, dist)
    modifies s`strstart, s`matchStart, s`blockStart, s`base, s.window, s.head, s.prev
    ensures s.Valid() && (old(s.HashReady()) ==> s.HashReady()) && SamePlace(s, pos, all, data, block, dist)
    ensures old(s.Rooted()) ==> s.Rooted()
    ensures s.strstart + s.lookahead + more == 2 * s.wsize && more >= 2 && s.strstart <= 2 * s.wsize - 262
    ensures s.strstart == 0 <==> old(s.strstart) == 0
  {
    hide *;
    s.Sizes();
    s.MaxDistIs();
    InPlace(s, pos, all, data, block, dist);
    more := 2 * s.wsize - s.lookahead - s.strstart;
    if s.strstart >= s.wsize + s.MaxDist() {
      SubSlide(s.strstart, s.matchStart, s.wsize);
      s.Slide();
      more := more + s.wsize;
      StillPlace(s, pos, all, data, s.data, block, dist);
    }
  }

  /** Read input and bring the index up to date. */
  method ReadMore(s: State, more: nat, ghost pos: int, ghost all: seq<byte>, ghost data: seq<byte>, ghost block: int,
                  ghost dist: nat)
    requires s.Valid() && s.strstart + s.lookahead + more == 2 * s.wsize && more >= 2 && s.nextIn != []
    requires SamePlace(s, pos, all, data, block, dist)
    modifies s`nextIn, s`lookahead, s`insH, s`insert, s`data, s`ins, s`top, s.window, s.head, s.prev
    ensures s.Valid() && s.HashReady() && SamePlace(s, pos, all, data, block, dist) && |s.nextIn| < |old(s.nextIn)|
    ensures s.nextIn == [] || s.strstart + s.lookahead == 2 * s.wsize
    ensures Grows(old(s.View()), s.View(), old(s.top)) && s.top >= old(s.top)
  {
    hide *;
    InPlace(s, pos, all, data, block, dist);
    ghost var before, v, t := s.data, s.View(), s.top;
    ReadBuf(s, more);
    ghost var v' := s.View();
    StillPlace(s, pos, all, data, before, block, dist);
    ReadParts(s);
    if s.lookahead + s.insert >= 3 {
      InitHash(s);
      GrowsOn(v, v', s.View(), t, t);
    } else {
      ReadValid(s);
      KeyReady(s);
    }
  }

  /** zmemzero. */
  method ZeroFill(window: array<byte>, from: nat, n: nat)
    requires from + n <= window.Length
    modifies window
    ensures window[..from] == old(window[..from])
  {
    for j := 0 to n
      invariant window[..from] == old(window[..from])
    {
      window[from + j] := 0;
    }
  }

  /** Zero bytes beyond the data. */
  method ZeroBeyond(s: State, from: nat, n: nat)
    requires s.Valid() && s.strstart + s.lookahead <= from && from + n <= 2 * s.wsize
    modifies s.window
    ensures s.Valid() && (old(s.HashReady()) ==> s.HashReady())
  {
    hide *;
    s.Sizes();
    s.Parts();
    ghost var a, b := 0, 0;
    ghost var ready := s.HashReady() && 3 <= s.lookahead;
    if ready {
      a, b := s.data[s.base + s.strstart], s.data[s.base + s.strstart + 1];
      s.IsReady(a, b);
    }
    ghost var w, end := s.window[..from], s.strstart + s.lookahead;
    assert w[..end] == s.window[..end];
    ZeroFill(s.window, from, n);
    assert s.window[..end] == w[..end];
    s.Whole();
    if s.lookahead < 3 { s.NotReady(); } else if ready { s.Ready(a, b); }
  }

  /** Zero up to WIN_INIT bytes after the data that were never written, for the match routines' overreads. */
  method InitHighWater(s: State)
    requires s.Valid()
    modifies s`highWater, s.window
    ensures s.Valid() && (old(s.HashReady()) ==> s.HashReady())
  {
    s.Sizes();
    hide State.Valid, State.HashReady, State.Holds, Pow2;
    if s.highWater < 2 * s.wsize {
      var curr := s.strstart + s.lookahead;
      if s.highWater < curr {
        var init := 2 * s.wsize - curr;
        if init > WIN_INIT { init := WIN_INIT; }
        ZeroBeyond(s, curr, init);
        s.highWater := curr + init;
      } else if s.highWater < curr + WIN_INIT {
        var init := curr + WIN_INIT - s.highWater;
        if init > 2 * s.wsize - s.highWater { init := 2 * s.wsize - s.highWater; }
        ZeroBeyond(s, s.highWater, init);
        s.highWater := s.highWater + init;
      }
    }
  }

  /** The whole routine. Afterwards there is enough lookahead unless the input has run out, and always room
      for the match routines to read ahead. */
  method Fill(s: State, ghost pos: int, ghost all: seq<byte>, ghost data: seq<byte>, ghost block: int, ghost dist: nat)
    requires s.Valid() && s.lookahead < 262 && SamePlace(s, pos, all, data, block, dist)
    modifies s`nextIn, s`strstart, s`lookahead, s`insH, s`insert, s`blockStart, s`highWater, s`matchStart,
             s`data, s`base, s`ins, s`top, s.window, s.head, s.prev
    ensures s.Valid() && (old(s.HashReady()) ==> s.HashReady()) && SamePlace(s, pos, all, data, block, dist)
    ensures s.lookahead >= 262 || s.nextIn == []
    ensures s.strstart <= 2 * s.wsize - 262 && (s.strstart == 0 <==> old(s.strstart) == 0)
    ensures Grows(old(s.View()), s.View(), old(s.top)) && s.top >= old(s.top) && (old(s.Rooted()) ==> s.Rooted())
  {
    hide *;
    ghost var ready, v, t, rooted := s.HashReady(), s.View(), s.top, s.Rooted();
    s.Sizes();
    s.ViewGrows([]);
    s.ViewIs();
    var going := true;
    while going
      invariant s.Valid() && (ready ==> s.HashReady()) && SamePlace(s, pos, all, data, block, dist)
      invariant (going ==> s.lookahead < 262) && (s.strstart == 0 <==> old(s.strstart) == 0)
      invariant !going ==> (s.lookahead >= 262 || s.nextIn == []) && s.strstart <= 2 * s.wsize - 262
      invariant Grows(v, s.View(), t) && t <= s.top && (rooted ==> s.Rooted())
      decreases going, |s.nextIn|
    {
      ghost var v', t' := s.View(), s.top;
      var more := MakeRoom(s, pos, all, data, block, dist);
      if s.nextIn == [] {
        going := false;
      } else {
        ReadMore(s, more, pos, all, data, block, dist);
        GrowsOn(v, v', s.View(), t, t');
        going := s.lookahead < 262 && s.nextIn != [];
      }
    }
    InitHighWater(s);
  }
}
