/** CRC-32: the shift register of section 8 of RFC 1952, and that the byte table, the four-byte tables in
    both byte orders, and the GF(2) matrices of crc32_combine all compute it. */
module Crc32 {

  type word = bv32
  type octet = bv8

  const POLY: word := 0xedb88320

  // ---------------------------------------------------------------- words

  function Xor(a: word, b: word): word { a ^ b }
  function Shr(a: word): word { a >> 1 }
  function Shl(a: word): word { a << 1 }
  function Shr8(a: word): word { a >> 8 }
  function Shl8(a: word): word { a << 8 }
  function LowByte(a: word): word { a & 0xff }
  function Above(a: word): word { a & 0xffff_ff00 }
  function Not(a: word): word { !a }
  predicate Odd(a: word) { a & 1 == 1 }

  lemma XorAssoc(a: word, b: word, c: word)
    ensures Xor(Xor(a, b), c) == Xor(a, Xor(b, c))
  {
  }

  lemma XorZero(a: word)
    ensures Xor(a, 0) == a && Xor(0, a) == a && Xor(a, a) == 0
  {
  }

  lemma XorComm(a: word, b: word)
    ensures Xor(a, b) == Xor(b, a)
  {
  }

  lemma XorSwap(a: word, b: word, c: word, d: word)
    ensures Xor(Xor(a, b), Xor(c, d)) == Xor(Xor(a, c), Xor(b, d))
  {
    hide *;
    XorAssoc(a, b, Xor(c, d));
    XorAssoc(b, c, d);
    XorComm(b, c);
    XorAssoc(c, b, d);
    XorAssoc(a, c, Xor(b, d));
  }

  lemma XorCancel(p: word, a: word, b: word)
    ensures Xor(Xor(p, a), Xor(p, b)) == Xor(a, b)
  {
    hide *;
    XorSwap(p, a, p, b);
    XorZero(p);
    XorZero(Xor(a, b));
  }

  // ---------------------------------------------------------------- the shift register

  /** One bit: multiply by x modulo the polynomial. */
  function Step(c: word): word
  {
    if Odd(c) then Xor(POLY, Shr(c)) else Shr(c)
  }

  function Steps(c: word, n: nat): word
  {
    if n == 0 then c else Step(Steps(c, n - 1))
  }

  /** The register after a byte, and after a sequence of bytes: eight steps for each, low bit first. */
  function Feed(c: word, b: octet): word
  {
    Steps(Xor(c, b as word), 8)
  }

  function Register(c: word, bs: seq<octet>): word
  {
    if |bs| == 0 then c else Feed(Register(c, bs[..|bs| - 1]), bs[|bs| - 1])
  }

  /** The CRC of bytes that follow bytes with CRC crc. */
  function Crc(crc: word, bs: seq<octet>): word
  {
    Not(Register(Not(crc), bs))
  }

  lemma LowBit(a: word, b: word)
    ensures (a ^ b) & 1 == (a & 1) ^ (b & 1)
    ensures a & 1 == 0 || a & 1 == 1
  {
  }

  lemma OddXor(a: word, b: word)
    ensures Odd(Xor(a, b)) <==> Odd(a) != Odd(b)
  {
    LowBit(a, b);
    LowBit(b, a);
  }

  lemma ShrXor(a: word, b: word)
    ensures Shr(Xor(a, b)) == Xor(Shr(a), Shr(b))
  {
  }

  lemma StepXor(a: word, b: word)
    ensures Step(Xor(a, b)) == Xor(Step(a), Step(b))
  {
    hide Xor, Shr, Odd;
    OddXor(a, b);
    ShrXor(a, b);
    XorCancel(POLY, Shr(a), Shr(b));
    XorAssoc(POLY, Shr(a), Shr(b));
    XorComm(Shr(a), Xor(POLY, Shr(b)));
    XorAssoc(POLY, Shr(b), Shr(a));
    XorComm(Shr(b), Shr(a));
  }

  /** The register is linear. */
  lemma {:induction false} StepsXor(a: word, b: word, n: nat)
    ensures Steps(Xor(a, b), n) == Xor(Steps(a, n), Steps(b, n))
  {
    hide Step, Xor;
    if n > 0 {
      StepsXor(a, b, n - 1);
      StepXor(Steps(a, n - 1), Steps(b, n - 1));
    }
  }

  lemma {:induction false} StepsZero(n: nat)
    ensures Steps(0, n) == 0
  {
    if n > 0 {
      StepsZero(n - 1);
      assert Step(0) == 0;
    }
  }

  lemma {:induction false} StepsAdd(c: word, m: nat, n: nat)
    ensures Steps(c, m + n) == Steps(Steps(c, m), n)
  {
    hide Step;
    if n > 0 { StepsAdd(c, m, n - 1); }
  }

  lemma StepsUnroll(c: word)
    ensures Steps(c, 8) == Step(Step(Step(Step(Step(Step(Step(Step(c))))))))
  {
    hide Step;
    assert Steps(c, 2) == Step(Steps(c, 1)) == Step(Step(c));
    assert Steps(c, 4) == Step(Step(Steps(c, 2)));
    assert Steps(c, 6) == Step(Step(Steps(c, 4)));
  }

  /** A step on a word whose low bits, those of mask, are zero. */
  lemma ShiftOnce(y: word, mask: word, next: word)
    requires y & mask == 0 && mask & 1 == 1 && next == mask >> 1
    ensures Step(y) == Shr(y) && Shr(y) & next == 0
  {
    assert y & 1 == 0;
  }

  lemma Shifts(y: word)
    ensures Shr(Shr(Shr(Shr(Shr(Shr(Shr(Shr(y)))))))) == Shr8(y)
  {
  }

  /** Eight steps shift a register whose low byte is zero. */
  lemma ShiftOut(y: word)
    requires y & 0xff == 0
    ensures Steps(y, 8) == Shr8(y)
  {
    hide *;
    var y1 := Shr(y);
    var y2 := Shr(y1);
    var y3 := Shr(y2);
    var y4 := Shr(y3);
    ShiftOnce(y, 0xff, 0x7f);
    ShiftOnce(y1, 0x7f, 0x3f);
    ShiftOnce(y2, 0x3f, 0x1f);
    ShiftOnce(y3, 0x1f, 0x0f);
    ShiftOnce(y4, 0x0f, 0x07);
    ShiftOnce(Shr(y4), 0x07, 0x03);
    ShiftOnce(Shr(Shr(y4)), 0x03, 0x01);
    ShiftOnce(Shr(Shr(Shr(y4))), 0x01, 0x00);
    StepsUnroll(y);
    Shifts(y);
  }

  lemma SplitByte(x: word)
    ensures x == Xor(LowByte(x), Above(x)) && Above(x) & 0xff == 0 && Shr8(Above(x)) == Shr8(x)
  {
  }

  /** Eight steps by table: the low byte decides what is added, the rest is shifted. */
  lemma ByteByTable(x: word)
    ensures Steps(x, 8) == Xor(Steps(LowByte(x), 8), Shr8(x))
  {
    hide *;
    SplitByte(x);
    StepsXor(LowByte(x), Above(x), 8);
    ShiftOut(Above(x));
  }

  // ---------------------------------------------------------------- four bytes at a time

  function Widen(b: octet): (w: word)
    ensures w <= 0xff
  {
    b as word
  }

  /** Four bytes as a little-endian word. */
  function Load(b0: octet, b1: octet, b2: octet, b3: octet): word
  {
    Xor(Xor(Widen(b0), Shl8(Widen(b1))), Xor(Shl8(Shl8(Widen(b2))), Shl8(Shl8(Shl8(Widen(b3))))))
  }

  lemma ShiftBack(y: word)
    requires y <= 0xff_ffff
    ensures Steps(Shl8(y), 8) == y
  {
    hide *;
    UpAndDown(y);
    ShiftOut(Shl8(y));
  }

  lemma UpAndDown(y: word)
    requires y <= 0xff_ffff
    ensures Shl8(y) & 0xff == 0 && Shr8(Shl8(y)) == y
  {
  }

  lemma SmallShifts(w: word)
    requires w <= 0xff
    ensures w <= 0xff_ffff && Shl8(w) <= 0xff_ffff && Shl8(Shl8(w)) <= 0xff_ffff
  {
  }

  /** A byte fed in after n steps might as well have been added n steps earlier, shifted up. */
  lemma Absorb(x: word, n: nat, w: word, up: word)
    requires Steps(up, n) == w
    ensures Steps(Xor(Steps(x, n), w), 8) == Steps(Xor(x, up), n + 8)
  {
    hide *;
    StepsXor(x, up, n);
    StepsAdd(Xor(x, up), n, 8);
  }

  lemma FourBytes(c: word, b0: octet, b1: octet, b2: octet, b3: octet)
    ensures Feed(Feed(Feed(Feed(c, b0), b1), b2), b3) == Steps(Xor(c, Load(b0, b1, b2, b3)), 32)
  {
    hide *;
    var w0, w1, w2, w3 := Widen(b0), Widen(b1), Widen(b2), Widen(b3);
    SmallShifts(w1);
    SmallShifts(w2);
    SmallShifts(w3);
    ShiftBack(w1);
    ShiftBack(w2);
    ShiftBack(Shl8(w2));
    ShiftBack(w3);
    ShiftBack(Shl8(w3));
    ShiftBack(Shl8(Shl8(w3)));
    StepsAdd(Shl8(Shl8(w2)), 8, 8);
    StepsAdd(Shl8(Shl8(Shl8(w3))), 8, 8);
    StepsAdd(Shl8(Shl8(Shl8(w3))), 16, 8);
    var x1 := Xor(c, w0);
    var x2 := Xor(x1, Shl8(w1));
    var x3 := Xor(x2, Shl8(Shl8(w2)));
    Absorb(x1, 8, w1, Shl8(w1));
    Absorb(x2, 16, w2, Shl8(Shl8(w2)));
    Absorb(x3, 24, w3, Shl8(Shl8(Shl8(w3))));
    Feeds(c, b0);
    Feeds(Steps(x1, 8), b1);
    Feeds(Steps(x2, 16), b2);
    Feeds(Steps(x3, 24), b3);
    LoadIs(c, b0, b1, b2, b3);
  }

  lemma Feeds(c: word, b: octet)
    ensures Feed(c, b) == Steps(Xor(c, Widen(b)), 8)
  {
  }

  lemma LoadIs(c: word, b0: octet, b1: octet, b2: octet, b3: octet)
    ensures Xor(c, Load(b0, b1, b2, b3)) ==
              Xor(Xor(Xor(Xor(c, Widen(b0)), Shl8(Widen(b1))), Shl8(Shl8(Widen(b2)))), Shl8(Shl8(Shl8(Widen(b3)))))
  {
    hide Xor, Shl8, Widen;
    var x, y, z, t := Widen(b0), Shl8(Widen(b1)), Shl8(Shl8(Widen(b2))), Shl8(Shl8(Shl8(Widen(b3))));
    XorAssoc(c, Xor(x, y), Xor(z, t));
    XorAssoc(c, x, y);
    XorAssoc(Xor(Xor(c, x), y), z, t);
  }

  /** 32 steps by four tables, one for each byte. */
  lemma FourTables(x: word)
    ensures Steps(x, 32) == Xor(Xor(Xor(Steps(LowByte(x), 32), Steps(LowByte(Shr8(x)), 24)),
                                    Steps(LowByte(Shr8(Shr8(x))), 16)),
                                Steps(Shr8(Shr8(Shr8(x))), 8))
  {
    hide *;
    var y := Shr8(x);
    var z := Shr8(y);
    OneTable(x, 24);
    OneTable(y, 16);
    OneTable(z, 8);
    var a, b, c, d := Steps(LowByte(x), 32), Steps(LowByte(y), 24), Steps(LowByte(z), 16), Steps(Shr8(z), 8);
    assert Steps(x, 32) == Xor(a, Xor(b, Xor(c, d)));
    XorAssoc(b, c, d);
    XorAssoc(a, Xor(b, c), d);
    XorAssoc(a, b, c);
  }

  lemma OneTable(x: word, n: nat)
    ensures Steps(x, n + 8) == Xor(Steps(LowByte(x), n + 8), Steps(Shr8(x), n))
  {
    hide *;
    StepsAdd(x, 8, n);
    ByteByTable(x);
    StepsXor(Steps(LowByte(x), 8), Shr8(x), n);
    StepsAdd(LowByte(x), 8, n);
  }

  // ---------------------------------------------------------------- byte order

  /** ZSWAP32. */
  function Swap(x: word): word
  {
    ((x >> 24) & 0xff) | ((x >> 8) & 0xff00) | ((x & 0xff00) << 8) | ((x & 0xff) << 24)
  }

  lemma SwapSwap(x: word)
    ensures Swap(Swap(x)) == x
  {
  }

  lemma SwapXor(a: word, b: word)
    ensures Swap(Xor(a, b)) == Xor(Swap(a), Swap(b))
  {
  }

  lemma SwapNot(a: word)
    ensures Swap(Not(a)) == Not(Swap(a))
  {
    assert Swap(0xffff_ffff) == 0xffff_ffff;
    hide *;
    NotXor(a);
    NotXor(Swap(a));
    SwapXor(a, 0xffff_ffff);
  }

  lemma NotXor(a: word)
    ensures Not(a) == Xor(a, 0xffff_ffff)
  {
  }

  lemma SwapBytes(x: word)
    ensures LowByte(Swap(x)) == Shr8(Shr8(Shr8(x))) && LowByte(Shr8(Swap(x))) == LowByte(Shr8(Shr8(x)))
    ensures LowByte(Shr8(Shr8(Swap(x)))) == LowByte(Shr8(x)) && Shr8(Shr8(Shr8(Swap(x)))) == LowByte(x)
    ensures Shl8(Swap(x)) == Swap(Shr8(x))
  {
  }

  // ---------------------------------------------------------------- the check value

  /** The register goes from one value to another by a byte. */
  predicate FeedIs(c: word, b: octet, y: word)
  {
    Feed(c, b) == y
  }

  lemma FeedsBy(c: word, b: octet, x: word, y: word)
    requires c ^ (b as word) == x && Steps(x, 8) == y
    ensures FeedIs(c, b, y)
  {
    hide Steps;
  }

  lemma FirstFeeds()
    ensures FeedIs(0xffff_ffff, 0x31, 0x7c23_1048)
    ensures FeedIs(0x7c23_1048, 0x32, 0xb0ac_bb32)
    ensures FeedIs(0xb0ac_bb32, 0x33, 0x77b7_9c2d)
    ensures FeedIs(0x77b7_9c2d, 0x34, 0x641c_1f5c)
    ensures FeedIs(0x641c_1f5c, 0x35, 0x340a_c5e3)
  {
    assert Steps(0xffff_ffce, 8) == 0x7c23_1048;
    assert Steps(0x7c23_107a, 8) == 0xb0ac_bb32;
    assert Steps(0xb0ac_bb01, 8) == 0x77b7_9c2d;
    assert Steps(0x77b7_9c19, 8) == 0x641c_1f5c;
    assert Steps(0x641c_1f69, 8) == 0x340a_c5e3;
    hide Steps, FeedIs;
    FeedsBy(0xffff_ffff, 0x31, 0xffff_ffce, 0x7c23_1048);
    FeedsBy(0x7c23_1048, 0x32, 0x7c23_107a, 0xb0ac_bb32);
    FeedsBy(0xb0ac_bb32, 0x33, 0xb0ac_bb01, 0x77b7_9c2d);
    FeedsBy(0x77b7_9c2d, 0x34, 0x77b7_9c19, 0x641c_1f5c);
    FeedsBy(0x641c_1f5c, 0x35, 0x641c_1f69, 0x340a_c5e3);
  }

  lemma LastFeeds()
    ensures FeedIs(0x340a_c5e3, 0x36, 0xf68d_2c9e)
    ensures FeedIs(0xf68d_2c9e, 0x37, 0xaffc_9660)
    ensures FeedIs(0xaffc_9660, 0x38, 0x651f_2550)
    ensures FeedIs(0x651f_2550, 0x39, 0x340b_c6d9)
  {
    assert Steps(0x340a_c5d5, 8) == 0xf68d_2c9e;
    assert Steps(0xf68d_2ca9, 8) == 0xaffc_9660;
    assert Steps(0xaffc_9658, 8) == 0x651f_2550;
    assert Steps(0x651f_2569, 8) == 0x340b_c6d9;
    hide Steps, FeedIs;
    FeedsBy(0x340a_c5e3, 0x36, 0x340a_c5d5, 0xf68d_2c9e);
    FeedsBy(0xf68d_2c9e, 0x37, 0xf68d_2ca9, 0xaffc_9660);
    FeedsBy(0xaffc_9660, 0x38, 0xaffc_9658, 0x651f_2550);
    FeedsBy(0x651f_2550, 0x39, 0x651f_2569, 0x340b_c6d9);
  }

  lemma FedByte(bs: seq<octet>, i: nat, c: word, y: word)
    requires i < |bs| && Register(0xffff_ffff, bs[..i]) == c && FeedIs(c, bs[i], y)
    ensures Register(0xffff_ffff, bs[..i + 1]) == y
  {
    assert bs[..i + 1][..i] == bs[..i];
  }

  lemma RegisterNone(c: word)
    ensures Register(c, []) == c
  {
  }

  lemma CheckEnds(bs: seq<octet>)
    ensures Register(0xffff_ffff, bs) == 0x340b_c6d9 ==> Crc(0, bs) == 0xcbf4_3926
  {
    hide Register;
    assert Not(0) == 0xffff_ffff && Not(0x340b_c6d9) == 0xcbf4_3926;
  }

  /** The check value of this CRC: that of the nine digits. */
  lemma CheckValue(bs: seq<octet>)
    requires bs == [0x31, 0x32, 0x33, 0x34, 0x35, 0x36, 0x37, 0x38, 0x39]
    ensures Crc(0, bs) == 0xcbf4_3926
  {
    hide *;
    CheckEnds(bs);
    FirstFeeds();
    LastFeeds();
    RegisterNone(0xffff_ffff);
    assert bs[..0] == [] && bs[..9] == bs;
    FedByte(bs, 0, 0xffff_ffff, 0x7c23_1048);
    FedByte(bs, 1, 0x7c23_1048, 0xb0ac_bb32);
    FedByte(bs, 2, 0xb0ac_bb32, 0x77b7_9c2d);
    FedByte(bs, 3, 0x77b7_9c2d, 0x641c_1f5c);
    FedByte(bs, 4, 0x641c_1f5c, 0x340a_c5e3);
    FedByte(bs, 5, 0x340a_c5e3, 0xf68d_2c9e);
    FedByte(bs, 6, 0xf68d_2c9e, 0xaffc_9660);
    FedByte(bs, 7, 0xaffc_9660, 0x651f_2550);
    FedByte(bs, 8, 0x651f_2550, 0x340b_c6d9);
  }
}
