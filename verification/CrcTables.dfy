/** make_crc_table and crc32_z: the tables, and the byte-wise, little-endian and big-endian loops. */
module CrcTables {
  import opened Crc32

  /** Row k has the register for each byte followed by k zero bytes; rows 4 to 7 are rows 0 to 3 with their
      bytes swapped. */
  ghost predicate IsTable(t: array2<word>)
    reads t
  {
    && t.Length0 == 8 && t.Length1 == 256
    && forall k, n :: 0 <= k < 4 && 0 <= n < 256 ==> t[k, n] == Entry(n, k) && t[k + 4, n] == Swap(Entry(n, k))
  }

  function Entry(n: nat, k: nat): word
    requires n < 256
  {
    Steps(n as word, 8 * k + 8)
  }

  /** A word of one byte as an index. */
  function Index(w: word): (i: nat)
    requires w <= 0xff
    ensures i < 256
  {
    w as nat
  }

  lemma IndexEntry(w: word, k: nat)
    requires w <= 0xff
    ensures Entry(Index(w), k) == Steps(w, 8 * k + 8)
  {
    hide Steps;
    assert (w as nat) as word == w;
  }

  lemma LowByteSmall(w: word)
    ensures LowByte(w) <= 0xff && Shr8(Shr8(Shr8(w))) <= 0xff
  {
  }

  /** The terms of the polynomial below x^32. */
  const TERMS: seq<nat> := [0, 1, 2, 4, 5, 7, 8, 10, 11, 12, 16, 22, 23, 26]

  function Or(a: word, b: word): word { a | b }

  /** 1 << e. */
  function OneAt(e: nat): word
  {
    if e == 0 then 1 else Shl(OneAt(e - 1))
  }

  lemma Ones()
    ensures OneAt(5) == 0x20 && OneAt(8) == 0x100 && OneAt(9) == 0x200 && OneAt(15) == 0x8000
    ensures OneAt(19) == 0x8_0000 && OneAt(20) == 0x10_0000 && OneAt(21) == 0x20_0000 && OneAt(23) == 0x80_0000
    ensures OneAt(24) == 0x100_0000 && OneAt(26) == 0x400_0000 && OneAt(27) == 0x800_0000
    ensures OneAt(29) == 0x2000_0000 && OneAt(30) == 0x4000_0000 && OneAt(31) == 0x8000_0000
  {
    assert OneAt(2) == 4;
    assert OneAt(4) == 0x10;
    assert OneAt(6) == 0x40;
    assert OneAt(11) == 0x800;
    assert OneAt(13) == 0x2000;
    assert OneAt(17) == 0x2_0000;
  }

  /** The pattern of the first n terms, highest power in the lowest bit. */
  function Pattern(n: nat): word
    requires n <= |TERMS|
  {
    if n == 0 then 0 else Or(Pattern(n - 1), OneAt(31 - TERMS[n - 1]))
  }

  lemma Ors()
    ensures Or(0x0000_0000, 0x8000_0000) == 0x8000_0000
    ensures Or(0x8000_0000, 0x4000_0000) == 0xc000_0000
    ensures Or(0xc000_0000, 0x2000_0000) == 0xe000_0000
    ensures Or(0xe000_0000, 0x0800_0000) == 0xe800_0000
    ensures Or(0xe800_0000, 0x0400_0000) == 0xec00_0000
    ensures Or(0xec00_0000, 0x0100_0000) == 0xed00_0000
    ensures Or(0xed00_0000, 0x0080_0000) == 0xed80_0000
    ensures Or(0xed80_0000, 0x0020_0000) == 0xeda0_0000
    ensures Or(0xeda0_0000, 0x0010_0000) == 0xedb0_0000
    ensures Or(0xedb0_0000, 0x0008_0000) == 0xedb8_0000
    ensures Or(0xedb8_0000, 0x0000_8000) == 0xedb8_8000
    ensures Or(0xedb8_8000, 0x0000_0200) == 0xedb8_8200
    ensures Or(0xedb8_8200, 0x0000_0100) == 0xedb8_8300
    ensures Or(0xedb8_8300, 0x0000_0020) == 0xedb8_8320
  {
  }

  lemma PatternMore(n: nat, e: nat)
    requires n < |TERMS| && TERMS[n] == e
    ensures e <= 31 && Pattern(n + 1) == Or(Pattern(n), OneAt(31 - e))
  {
    hide Or, OneAt;
  }

  lemma PatternIs()
    ensures Pattern(14) == POLY && |TERMS| == 14 && Pattern(0) == 0
  {
    assert Pattern(0) == 0;
    hide Pattern, Or, OneAt;
    Ones();
    Ors();
    PatternMore(0, 0);
    PatternMore(1, 1);
    PatternMore(2, 2);
    PatternMore(3, 4);
    PatternMore(4, 5);
    PatternMore(5, 7);
    PatternMore(6, 8);
    PatternMore(7, 10);
    PatternMore(8, 11);
    PatternMore(9, 12);
    PatternMore(10, 16);
    PatternMore(11, 22);
    PatternMore(12, 23);
    PatternMore(13, 26);
  }

  method Polynomial() returns (poly: word)
    ensures poly == POLY
  {
    hide Or, OneAt;
    poly := 0;
    for n := 0 to |TERMS|
      invariant poly == Pattern(n)
    {
      poly := Or(poly, OneAt(31 - TERMS[n]));
    }
    PatternIs();
  }

  /** The register for a byte, bit by bit. */
  method EntryBits(n: nat, poly: word) returns (c: word)
    requires n < 256 && poly == POLY
    ensures c == Entry(n, 0)
  {
    hide Steps;
    c := n as word;
    StepsNone(c);
    for k := 0 to 8
      invariant c == Steps(n as word, k)
    {
      StepsMore(n as word, k);
      c := if Odd(c) then Xor(poly, Shr(c)) else Shr(c);
    }
  }

  lemma StepsNone(c: word)
    ensures Steps(c, 0) == c
  {
  }

  lemma StepsMore(c: word, k: nat)
    ensures Steps(c, k + 1) == Step(Steps(c, k))
  {
    hide Step;
  }

  /** One more zero byte, by table. */
  lemma NextEntry(n: nat, k: nat)
    requires n < 256
    ensures Xor(Steps(LowByte(Entry(n, k)), 8), Shr8(Entry(n, k))) == Entry(n, k + 1)
  {
    hide Steps, Xor, LowByte, Shr8;
    ByteByTable(Entry(n, k));
    StepsAdd(n as word, 8 * k + 8, 8);
  }

  ghost predicate FirstRow(t: array2<word>)
    reads t
  {
    t.Length0 == 8 && t.Length1 == 256 && forall m :: 0 <= m < 256 ==> t[0, m] == Entry(m, 0)
  }

  /** The first k rows and their swapped forms are in place for byte n. */
  ghost predicate Column(t: array2<word>, n: nat, k: nat)
    requires t.Length0 == 8 && t.Length1 == 256
    reads t
  {
    n < 256 && k <= 4 && forall j :: 0 <= j < k ==> t[j, n] == Entry(n, j) && t[j + 4, n] == Swap(Entry(n, j))
  }

  /** One more zero byte: the next row's entry. */
  method NextByTable(t: array2<word>, n: nat, k: nat, c: word) returns (r: word)
    requires FirstRow(t) && n < 256 && c == Entry(n, k)
    ensures r == Entry(n, k + 1)
  {
    hide Entry, Xor, Shr8, LowByte, Steps;
    LowByteSmall(c);
    IndexEntry(LowByte(c), 0);
    NextEntry(n, k);
    r := Xor(t[0, Index(LowByte(c))], Shr8(c));
  }

  /** Set an entry of the column and its swapped form. */
  method SetEntry(t: array2<word>, n: nat, k: nat, c: word)
    requires FirstRow(t) && k < 4 && Column(t, n, k) && c == Entry(n, k)
    modifies t
    ensures FirstRow(t) && Column(t, n, k + 1)
    ensures forall j, m :: 0 <= j < 8 && 0 <= m < 256 && m != n ==> t[j, m] == old(t[j, m])
  {
    hide Entry, Swap;
    t[k, n] := c;
    t[k + 4, n] := Swap(c);
  }

  /** Rows 1 to 3 and all swapped rows for one byte, from row 0. */
  method FillColumn(t: array2<word>, n: nat)
    requires FirstRow(t) && n < 256
    modifies t
    ensures FirstRow(t) && Column(t, n, 4)
    ensures forall k, m :: 0 <= k < 8 && 0 <= m < 256 && m != n ==> t[k, m] == old(t[k, m])
  {
    hide Entry, Swap;
    var c := t[0, n];
    SetEntry(t, n, 0, c);
    for k := 1 to 4
      invariant c == Entry(n, k - 1) && FirstRow(t) && Column(t, n, k)
      invariant forall j, m :: 0 <= j < 8 && 0 <= m < 256 && m != n ==> t[j, m] == old(t[j, m])
    {
      hide FirstRow, Column;
      c := NextByTable(t, n, k - 1, c);
      SetEntry(t, n, k, c);
    }
  }

  /** make_crc_table. */
  method MakeTable() returns (t: array2<word>)
    ensures fresh(t) && IsTable(t)
  {
    hide Entry, Swap;
    t := new word[8, 256];
    var poly := Polynomial();
    for n := 0 to 256
      invariant forall m :: 0 <= m < n ==> t[0, m] == Entry(m, 0)
    {
      t[0, n] := EntryBits(n, poly);
    }
    for n := 0 to 256
      invariant FirstRow(t)
      invariant forall k, m :: 0 <= k < 4 && 0 <= m < n ==> t[k, m] == Entry(m, k) && t[k + 4, m] == Swap(Entry(m, k))
    {
      FillColumn(t, n);
    }
  }

  // ---------------------------------------------------------------- a byte at a time

  lemma ShiftAway(c: word, w: word)
    requires w <= 0xff
    ensures Shr8(Xor(c, w)) == Shr8(c)
  {
  }

  /** A byte by table. */
  lemma FeedByTable(c: word, b: octet)
    ensures LowByte(Xor(c, Widen(b))) <= 0xff
    ensures Feed(c, b) == Xor(Entry(Index(LowByte(Xor(c, Widen(b)))), 0), Shr8(c))
  {
    hide *;
    var x := Xor(c, Widen(b));
    LowByteSmall(x);
    Feeds(c, b);
    ByteByTable(x);
    IndexEntry(LowByte(x), 0);
    ShiftAway(c, Widen(b));
  }

  /** DO1. */
  method FeedByte(t: array2<word>, c: word, b: octet) returns (r: word)
    requires IsTable(t)
    ensures r == Feed(c, b)
  {
    hide Entry, Swap, Xor, Shr8, LowByte, Feed;
    FeedByTable(c, b);
    r := Xor(t[0, Index(LowByte(Xor(c, Widen(b))))], Shr8(c));
  }

  lemma RegisterNext(c: word, bs: seq<octet>, i: nat)
    requires i < |bs|
    ensures Register(c, bs[..i + 1]) == Feed(Register(c, bs[..i]), bs[i])
  {
    hide Feed;
    assert bs[..i + 1][..i] == bs[..i];
  }

  /** Bytes i to j, one at a time. */
  method FeedBytes(t: array2<word>, c: word, bs: seq<octet>, i: nat, j: nat, ghost c0: word) returns (r: word)
    requires IsTable(t) && i <= j <= |bs| && c == Register(c0, bs[..i])
    ensures r == Register(c0, bs[..j])
  {
    hide *;
    r := c;
    for k := i to j
      invariant r == Register(c0, bs[..k])
    {
      RegisterNext(c0, bs, k);
      r := FeedByte(t, r, bs[k]);
    }
  }

  /** crc32_z without word access: eight bytes to a round, then the rest. */
  method CrcBytes(t: array2<word>, crc: word, bs: seq<octet>) returns (r: word)
    requires IsTable(t)
    ensures r == Crc(crc, bs)
  {
    hide IsTable, Not, Feed;
    var c := Not(crc);
    var i := 0;
    assert bs[..0] == [];
    while |bs| - i >= 8
      invariant 0 <= i <= |bs| && c == Register(Not(crc), bs[..i])
    {
      c := FeedBytes(t, c, bs, i, i + 8, Not(crc));
      i := i + 8;
    }
    c := FeedBytes(t, c, bs, i, |bs|, Not(crc));
    assert bs[..|bs|] == bs;
    r := Not(c);
  }

  // ---------------------------------------------------------------- four bytes at a time

  /** The four table entries for a word. */
  lemma WordByTable(x: word)
    ensures LowByte(x) <= 0xff && LowByte(Shr8(x)) <= 0xff && LowByte(Shr8(Shr8(x))) <= 0xff
    ensures Shr8(Shr8(Shr8(x))) <= 0xff
    ensures Steps(x, 32) == Xor(Xor(Xor(Entry(Index(LowByte(x)), 3), Entry(Index(LowByte(Shr8(x))), 2)),
                                    Entry(Index(LowByte(Shr8(Shr8(x)))), 1)),
                                Entry(Index(Shr8(Shr8(Shr8(x)))), 0))
  {
    hide *;
    LowByteSmall(x);
    LowByteSmall(Shr8(x));
    LowByteSmall(Shr8(Shr8(x)));
    FourTables(x);
    IndexEntry(LowByte(x), 3);
    IndexEntry(LowByte(Shr8(x)), 2);
    IndexEntry(LowByte(Shr8(Shr8(x))), 1);
    IndexEntry(Shr8(Shr8(Shr8(x))), 0);
  }

  /** DOLIT4. */
  method FeedLittle(t: array2<word>, c: word, w: word) returns (r: word)
    requires IsTable(t)
    ensures r == Steps(Xor(c, w), 32)
  {
    hide Entry, Swap, Xor, Shr8, LowByte, Steps;
    var x := Xor(c, w);
    WordByTable(x);
    r := Xor(Xor(Xor(t[3, Index(LowByte(x))], t[2, Index(LowByte(Shr8(x)))]),
                 t[1, Index(LowByte(Shr8(Shr8(x))))]),
             t[0, Index(Shr8(Shr8(Shr8(x))))]);
  }

  /** The register after four more bytes. */
  lemma RegisterFour(c: word, bs: seq<octet>, i: nat)
    requires i + 4 <= |bs|
    ensures Register(c, bs[..i + 4]) ==
              Steps(Xor(Register(c, bs[..i]), Load(bs[i], bs[i + 1], bs[i + 2], bs[i + 3])), 32)
  {
    hide *;
    RegisterNext(c, bs, i);
    RegisterNext(c, bs, i + 1);
    RegisterNext(c, bs, i + 2);
    RegisterNext(c, bs, i + 3);
    FourBytes(Register(c, bs[..i]), bs[i], bs[i + 1], bs[i + 2], bs[i + 3]);
  }

  /** Words of four bytes from i on, while there are at least step bytes. */
  method LittleWords(t: array2<word>, c: word, bs: seq<octet>, i0: nat, step: nat, ghost c0: word)
    returns (r: word, i: nat)
    requires IsTable(t) && i0 <= |bs| && c == Register(c0, bs[..i0]) && step > 0 && step % 4 == 0
    ensures i0 <= i <= |bs| && |bs| - i < step && r == Register(c0, bs[..i])
  {
    hide *;
    r, i := c, i0;
    while |bs| - i >= step
      invariant i0 <= i <= |bs| && r == Register(c0, bs[..i])
    {
      var j := 0;
      while j < step
        invariant j <= step && j % 4 == 0 && i + step <= |bs| && r == Register(c0, bs[..i + j])
      {
        RegisterFour(c0, bs, i + j);
        r := FeedLittle(t, r, Load(bs[i + j], bs[i + j + 1], bs[i + j + 2], bs[i + j + 3]));
        j := j + 4;
      }
      i := i + step;
    }
  }

  /** How many bytes come before the first aligned word; addr is the address of the buffer. */
  function Lead(addr: nat, len: nat): (k: nat)
    ensures k <= len && (k == len || (addr + k) % 4 == 0)
  {
    var k := (4 - addr % 4) % 4;
    if k <= len then k else len
  }

  /** crc32_little: bytes up to a word boundary, eight words at a time, words, and the rest. */
  method CrcLittle(t: array2<word>, crc: word, bs: seq<octet>, addr: nat) returns (r: word)
    requires IsTable(t)
    ensures r == Crc(crc, bs)
  {
    hide IsTable, Not, Feed, Load;
    assert bs[..0] == [];
    var i := Lead(addr, |bs|);
    var c := FeedBytes(t, Not(crc), bs, 0, i, Not(crc));
    c, i := LittleWords(t, c, bs, i, 32, Not(crc));
    c, i := LittleWords(t, c, bs, i, 4, Not(crc));
    c := FeedBytes(t, c, bs, i, |bs|, Not(crc));
    assert bs[..|bs|] == bs;
    r := Not(c);
  }

  // ---------------------------------------------------------------- the other byte order

  /** A byte into the swapped register: entry [4][(c >> 24) ^ b] and c << 8. */
  lemma FeedSwapped(c: word, b: octet)
    ensures Shr8(Shr8(Shr8(Swap(c)))) <= 0xff && Xor(Shr8(Shr8(Shr8(Swap(c)))), Widen(b)) <= 0xff
    ensures Swap(Feed(c, b)) == Xor(Swap(Entry(Index(Xor(Shr8(Shr8(Shr8(Swap(c)))), Widen(b))), 0)), Shl8(Swap(c)))
  {
    hide *;
    FeedByTable(c, b);
    SwapBytes(c);
    LowByteXor(c, Widen(b));
    LowByteSmall(c);
    SwapXor(Entry(Index(LowByte(Xor(c, Widen(b)))), 0), Shr8(c));
  }

  lemma LowByteXor(c: word, w: word)
    requires w <= 0xff
    ensures LowByte(Xor(c, w)) == Xor(LowByte(c), w) && Xor(LowByte(c), w) <= 0xff
  {
  }

  method FeedByteBig(t: array2<word>, c: word, b: octet, ghost lit: word) returns (r: word)
    requires IsTable(t) && c == Swap(lit)
    ensures r == Swap(Feed(lit, b))
  {
    hide Entry, Swap, Xor, Shr8, Shl8, LowByte, Feed;
    FeedSwapped(lit, b);
    r := Xor(t[4, Index(Xor(Shr8(Shr8(Shr8(c))), Widen(b)))], Shl8(c));
  }

  /** DOBIG4 mirrors DOLIT4. */
  lemma WordSwapped(x: word)
    ensures LowByte(Swap(x)) <= 0xff && LowByte(Shr8(Swap(x))) <= 0xff
    ensures LowByte(Shr8(Shr8(Swap(x)))) <= 0xff && Shr8(Shr8(Shr8(Swap(x)))) <= 0xff
    ensures Swap(Steps(x, 32)) ==
              Xor(Xor(Xor(Swap(Entry(Index(LowByte(Swap(x))), 0)), Swap(Entry(Index(LowByte(Shr8(Swap(x)))), 1))),
                      Swap(Entry(Index(LowByte(Shr8(Shr8(Swap(x))))), 2))),
                  Swap(Entry(Index(Shr8(Shr8(Shr8(Swap(x))))), 3)))
  {
    hide *;
    WordByTable(x);
    SwapBytes(x);
    LowByteSmall(Swap(x));
    LowByteSmall(Shr8(Swap(x)));
    LowByteSmall(Shr8(Shr8(Swap(x))));
    var a, b := Entry(Index(LowByte(x)), 3), Entry(Index(LowByte(Shr8(x))), 2);
    var c, d := Entry(Index(LowByte(Shr8(Shr8(x)))), 1), Entry(Index(Shr8(Shr8(Shr8(x)))), 0);
    SwapXor(Xor(Xor(a, b), c), d);
    SwapXor(Xor(a, b), c);
    SwapXor(a, b);
    XorFour(Swap(a), Swap(b), Swap(c), Swap(d));
  }

  lemma XorFour(a: word, b: word, c: word, d: word)
    ensures Xor(Xor(Xor(a, b), c), d) == Xor(Xor(Xor(d, c), b), a)
  {
    hide *;
    XorAssoc(Xor(a, b), c, d);
    XorComm(Xor(a, b), Xor(c, d));
    XorComm(c, d);
    XorComm(a, b);
    XorAssoc(Xor(d, c), b, a);
  }

  /** A word read with the first byte highest. */
  function LoadBig(b0: octet, b1: octet, b2: octet, b3: octet): word
  {
    Load(b3, b2, b1, b0)
  }

  lemma LoadSwapped(b0: octet, b1: octet, b2: octet, b3: octet)
    ensures LoadBig(b0, b1, b2, b3) == Swap(Load(b0, b1, b2, b3))
  {
    hide Swap, Xor, Shl8, Widen;
    var w0, w1, w2, w3 := Widen(b0), Widen(b1), Widen(b2), Widen(b3);
    SwapPlaces(w0);
    SwapPlaces(w1);
    SwapPlaces(w2);
    SwapPlaces(w3);
    var x1, x2, x3 := Shl8(w1), Shl8(Shl8(w2)), Shl8(Shl8(Shl8(w3)));
    SwapXor(Xor(w0, x1), Xor(x2, x3));
    SwapXor(w0, x1);
    SwapXor(x2, x3);
    XorComm(Xor(Swap(w0), Swap(x1)), Xor(Swap(x2), Swap(x3)));
    XorComm(Swap(w0), Swap(x1));
    XorComm(Swap(x2), Swap(x3));
  }

  /** Swapping moves a byte to the opposite place. */
  lemma SwapPlaces(w: word)
    requires w <= 0xff
    ensures Swap(w) == Shl8(Shl8(Shl8(w))) && Swap(Shl8(w)) == Shl8(Shl8(w))
    ensures Swap(Shl8(Shl8(w))) == Shl8(w) && Swap(Shl8(Shl8(Shl8(w)))) == w
  {
  }

  method FeedBig(t: array2<word>, c: word, w: word, ghost lit: word, ghost v: word) returns (r: word)
    requires IsTable(t) && c == Swap(lit) && w == Swap(v)
    ensures r == Swap(Steps(Xor(lit, v), 32))
  {
    hide Entry, Swap, Xor, Shr8, LowByte, Steps;
    var x := Xor(c, w);
    SwapXor(lit, v);
    WordSwapped(Xor(lit, v));
    r := Xor(Xor(Xor(t[4, Index(LowByte(x))], t[5, Index(LowByte(Shr8(x)))]),
                 t[6, Index(LowByte(Shr8(Shr8(x))))]),
             t[7, Index(Shr8(Shr8(Shr8(x))))]);
  }

  method FeedBytesBig(t: array2<word>, c: word, bs: seq<octet>, i: nat, j: nat, ghost c0: word) returns (r: word)
    requires IsTable(t) && i <= j <= |bs| && c == Swap(Register(c0, bs[..i]))
    ensures r == Swap(Register(c0, bs[..j]))
  {
    hide *;
    r := c;
    for k := i to j
      invariant r == Swap(Register(c0, bs[..k]))
    {
      RegisterNext(c0, bs, k);
      r := FeedByteBig(t, r, bs[k], Register(c0, bs[..k]));
    }
  }

  method BigWords(t: array2<word>, c: word, bs: seq<octet>, i0: nat, step: nat, ghost c0: word)
    returns (r: word, i: nat)
    requires IsTable(t) && i0 <= |bs| && c == Swap(Register(c0, bs[..i0])) && step > 0 && step % 4 == 0
    ensures i0 <= i <= |bs| && |bs| - i < step && r == Swap(Register(c0, bs[..i]))
  {
    hide *;
    r, i := c, i0;
    while |bs| - i >= step
      invariant i0 <= i <= |bs| && r == Swap(Register(c0, bs[..i]))
    {
      var j := 0;
      while j < step
        invariant j <= step && j % 4 == 0 && i + step <= |bs| && r == Swap(Register(c0, bs[..i + j]))
      {
        var k := i + j;
        RegisterFour(c0, bs, k);
        LoadSwapped(bs[k], bs[k + 1], bs[k + 2], bs[k + 3]);
        r := FeedBig(t, r, LoadBig(bs[k], bs[k + 1], bs[k + 2], bs[k + 3]),
                     Register(c0, bs[..k]), Load(bs[k], bs[k + 1], bs[k + 2], bs[k + 3]));
        j := j + 4;
      }
      i := i + step;
    }
  }

  /** crc32_big: the same with a swapped register. */
  method CrcBig(t: array2<word>, crc: word, bs: seq<octet>, addr: nat) returns (r: word)
    requires IsTable(t)
    ensures r == Crc(crc, bs)
  {
    hide IsTable, Not, Feed, Load, Swap;
    assert bs[..0] == [];
    SwapNot(crc);
    var i := Lead(addr, |bs|);
    var c := FeedBytesBig(t, Not(Swap(crc)), bs, 0, i, Not(crc));
    c, i := BigWords(t, c, bs, i, 32, Not(crc));
    c, i := BigWords(t, c, bs, i, 4, Not(crc));
    c := FeedBytesBig(t, c, bs, i, |bs|, Not(crc));
    assert bs[..|bs|] == bs;
    SwapNot(c);
    SwapSwap(Register(Not(crc), bs));
    r := Swap(Not(c));
  }
}
