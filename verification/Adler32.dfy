/** Adler-32: the definition of section 2.2 of RFC 1950, byte by byte modulo BASE; adler32_z, which puts the
    modulo off as long as 32 bits allow; and adler32_combine_. */
module Adler32 {
  import opened Common
  import opened Lz77

  const BASE: nat := 65521
  const NMAX: nat := 5552
  const U32_MAX: nat := 0xFFFF_FFFF

  /** An unsigned 32-bit number: every value assigned to one is shown to fit. */
  type u32 = x: int | 0 <= x <= U32_MAX

  /** The two sums. */
  datatype Sums = Sums(a: nat, b: nat)

  function Add(s: Sums, c: byte): Sums
  {
    var a := (s.a + c) % BASE;
    Sums(a, (s.b + a) % BASE)
  }

  function Adler(s: Sums, bs: seq<byte>): Sums
  {
    if |bs| == 0 then s else Add(Adler(s, bs[..|bs| - 1]), bs[|bs| - 1])
  }

  predicate Reduced(s: Sums)
  {
    s.a < BASE && s.b < BASE
  }

  /** The checksum as one number, and back. */
  function Pack(s: Sums): nat
    requires Reduced(s)
  {
    s.a + 65536 * s.b
  }

  function Unpack(x: nat): Sums
  {
    Sums(x % 65536, x / 65536 % 65536)
  }

  lemma PackUnpack(s: Sums)
    requires Reduced(s)
    ensures Unpack(Pack(s)) == s && Pack(s) <= U32_MAX
  {
  }

  lemma {:induction false} AdlerReduced(s: Sums, bs: seq<byte>)
    requires Reduced(s)
    ensures Reduced(Adler(s, bs))
  {
    if |bs| > 0 { AdlerReduced(s, bs[..|bs| - 1]); }
  }

  lemma AdlerNext(s: Sums, bs: seq<byte>, i: nat)
    requires i < |bs|
    ensures Adler(s, bs[..i + 1]) == Add(Adler(s, bs[..i]), bs[i])
  {
    assert bs[..i + 1][..i] == bs[..i];
  }

  // ---------------------------------------------------------------- putting the modulo off

  /** Twice the largest second sum after k bytes without a modulo. */
  function Limit(k: nat): nat
  {
    2 * (k + 1) * (BASE - 1) + 255 * k * (k + 1)
  }

  lemma LimitNext(k: nat)
    ensures Limit(k + 1) == Limit(k) + 2 * (BASE - 1 + 255 * (k + 1))
  {
  }

  lemma {:induction false} LimitMono(j: nat, k: nat)
    requires j <= k
    ensures Limit(j) <= Limit(k)
    decreases k
  {
    if j < k {
      LimitNext(k - 1);
      LimitMono(j, k - 1);
    }
  }

  /** NMAX is the largest number of bytes for which the sums are sure to fit in 32 bits. */
  lemma NmaxIsLargest(n: nat)
    ensures n <= NMAX <==> Limit(n) <= 2 * U32_MAX + 1
  {
    assert Limit(NMAX) <= 2 * U32_MAX + 1 < Limit(NMAX + 1);
    if n <= NMAX { LimitMono(n, NMAX); } else { LimitMono(NMAX + 1, n); }
  }

  /** Unreduced sums after k bytes of a block: they stand for the reduced ones, and are not too large. */
  ghost predicate Deferred(s: Sums, adler: int, sum2: int, k: nat)
  {
    && 0 <= adler <= BASE - 1 + 255 * k && 0 <= 2 * sum2 <= Limit(k)
    && adler % BASE == s.a && sum2 % BASE == s.b
  }

  lemma ModSum(x: int, y: int)
    ensures (x % BASE + y) % BASE == (x + y) % BASE
  {
  }

  lemma DeferredNext(s: Sums, adler: int, sum2: int, k: nat, c: byte)
    requires Deferred(s, adler, sum2, k) && k < NMAX
    ensures Deferred(Add(s, c), adler + c, sum2 + (adler + c), k + 1)
    ensures adler + c <= U32_MAX && sum2 + (adler + c) <= U32_MAX
  {
    LimitNext(k);
    NmaxIsLargest(k + 1);
    ModSum(adler, c);
    ModSum(sum2, adler + c);
    ModSum(adler + c, sum2 % BASE);
  }

  /** DO1 on bytes i to j, fewer than NMAX of them. */
  method SumUp(bs: seq<byte>, i: nat, j: nat, adler0: u32, sum20: u32, ghost s0: Sums)
    returns (adler: u32, sum2: u32)
    requires i <= j <= |bs| && j - i <= NMAX && adler0 < BASE && sum20 < BASE
    requires Adler(s0, bs[..i]) == Sums(adler0, sum20)
    ensures Deferred(Adler(s0, bs[..j]), adler, sum2, j - i)
  {
    hide Add, Adler;
    adler, sum2 := adler0, sum20;
    assert Deferred(Adler(s0, bs[..i]), adler, sum2, 0);
    hide Deferred, Limit;
    for k := i to j
      invariant Deferred(Adler(s0, bs[..k]), adler, sum2, k - i)
    {
      DeferredNext(Adler(s0, bs[..k]), adler, sum2, k - i, bs[k]);
      AdlerNext(s0, bs, k);
      adler := adler + bs[k];
      sum2 := sum2 + adler;
    }
  }

  /** A block and the modulo at its end. */
  method Block(bs: seq<byte>, i: nat, j: nat, adler0: u32, sum20: u32, ghost s0: Sums)
    returns (adler: u32, sum2: u32)
    requires i <= j <= |bs| && j - i <= NMAX && adler0 < BASE && sum20 < BASE
    requires Adler(s0, bs[..i]) == Sums(adler0, sum20)
    ensures adler < BASE && sum2 < BASE && Adler(s0, bs[..j]) == Sums(adler, sum2)
  {
    hide Adler;
    adler, sum2 := SumUp(bs, i, j, adler0, sum20, s0);
    adler := adler % BASE;
    sum2 := sum2 % BASE;
  }

  /** A single byte: two conditional subtractions. */
  method OneByte(s: Sums, c: byte) returns (adler: u32, sum2: u32)
    requires Reduced(s)
    ensures Sums(adler, sum2) == Add(s, c)
  {
    adler := s.a + c;
    if adler >= BASE { adler := adler - BASE; }
    sum2 := s.b + adler;
    if sum2 >= BASE { sum2 := sum2 - BASE; }
  }

  /** Fewer than 16 bytes: the first sum needs no division. */
  method FewBytes(s: Sums, bs: seq<byte>) returns (adler: u32, sum2: u32)
    requires Reduced(s) && |bs| < 16
    ensures Sums(adler, sum2) == Adler(s, bs)
  {
    hide Adler;
    AdlerNone(s);
    assert bs[..0] == [] && bs[..|bs|] == bs;
    adler, sum2 := SumUp(bs, 0, |bs|, s.a, s.b, s);
    if adler >= BASE { adler := adler - BASE; }
    sum2 := sum2 % BASE;
  }

  /** Blocks of NMAX bytes, and what is left. */
  method ManyBytes(s: Sums, bs: seq<byte>) returns (adler: u32, sum2: u32)
    requires Reduced(s)
    ensures Sums(adler, sum2) == Adler(s, bs)
  {
    hide Adler;
    AdlerNone(s);
    assert bs[..0] == [];
    adler, sum2 := s.a, s.b;
    var i := 0;
    while |bs| - i >= NMAX
      invariant 0 <= i <= |bs| && adler < BASE && sum2 < BASE && Adler(s, bs[..i]) == Sums(adler, sum2)
    {
      adler, sum2 := Block(bs, i, i + NMAX, adler, sum2, s);
      i := i + NMAX;
    }
    if i < |bs| { adler, sum2 := Block(bs, i, |bs|, adler, sum2, s); }
    assert bs[..|bs|] == bs;
  }

  /** adler32_z on a buffer that is not null. */
  method AdlerZ(adler0: u32, bs: seq<byte>) returns (r: u32)
    requires Reduced(Unpack(adler0))
    ensures Reduced(Adler(Unpack(adler0), bs)) && r == Pack(Adler(Unpack(adler0), bs))
  {
    var s := Unpack(adler0);
    AdlerReduced(s, bs);
    PackUnpack(Adler(s, bs));
    var adler, sum2;
    if |bs| == 1 {
      assert Adler(s, bs) == Add(s, bs[0]) by { assert bs[..0] == []; }
      adler, sum2 := OneByte(s, bs[0]);
    } else if |bs| < 16 {
      adler, sum2 := FewBytes(s, bs);
    } else {
      adler, sum2 := ManyBytes(s, bs);
    }
    r := adler + 65536 * sum2;
  }

  lemma AdlerNone(s: Sums)
    ensures Adler(s, []) == s
  {
  }

  // ---------------------------------------------------------------- combining

  lemma {:induction false} AdlerAppend(s: Sums, x: seq<byte>, y: seq<byte>)
    ensures Adler(s, x + y) == Adler(Adler(s, x), y)
  {
    hide Add;
    if |y| == 0 {
      assert x + y == x;
    } else {
      AdlerAppend(s, x, y[..|y| - 1]);
      assert (x + y)[..|x + y| - 1] == x + y[..|y| - 1];
    }
  }

  /** The start values enter the sums linearly: the first once, the second with it for every byte. */
  lemma {:induction false} AdlerFrom(a: nat, b: nat, bs: seq<byte>)
    requires a < BASE && b < BASE
    ensures var r, t := Adler(Sums(a, b), bs), Adler(Sums(1, 0), bs);
            r.a == (t.a + a - 1) % BASE && r.b == (t.b + b + |bs| * (a - 1)) % BASE
  {
    if |bs| > 0 {
      AdlerFrom(a, b, bs[..|bs| - 1]);
      AdlerFromNext(a, b, bs);
    }
  }

  lemma AdlerFromNext(a: nat, b: nat, bs: seq<byte>)
    requires |bs| > 0
    requires var r, t := Adler(Sums(a, b), bs[..|bs| - 1]), Adler(Sums(1, 0), bs[..|bs| - 1]);
             r.a == (t.a + a - 1) % BASE && r.b == (t.b + b + (|bs| - 1) * (a - 1)) % BASE
    ensures var r, t := Adler(Sums(a, b), bs), Adler(Sums(1, 0), bs);
            r.a == (t.a + a - 1) % BASE && r.b == (t.b + b + |bs| * (a - 1)) % BASE
  {
    hide *;
    var n := |bs| - 1;
    AdlerNext(Sums(a, b), bs, n);
    AdlerNext(Sums(1, 0), bs, n);
    assert bs[..n + 1] == bs;
    FromNext(Adler(Sums(a, b), bs[..n]), Adler(Sums(1, 0), bs[..n]), a, b, n, bs[n]);
  }

  lemma FromNext(r: Sums, t: Sums, a: nat, b: nat, n: nat, c: byte)
    requires r.a == (t.a + a - 1) % BASE && r.b == (t.b + b + n * (a - 1)) % BASE
    ensures Add(r, c).a == (Add(t, c).a + a - 1) % BASE
    ensures Add(r, c).b == (Add(t, c).b + b + (n + 1) * (a - 1)) % BASE
  {
    var k := n * (a - 1);
    assert (n + 1) * (a - 1) == k + (a - 1);
    FromNextLinear(r, t, a, b, k, c);
  }

  lemma ModSums(x: int, y: int)
    ensures (x % BASE + y % BASE) % BASE == (x + y) % BASE
  {
    ModSum(x, y % BASE);
    ModSum(y, x);
  }

  lemma FromNextLinear(r: Sums, t: Sums, a: nat, b: nat, k: int, c: byte)
    requires r.a == (t.a + a - 1) % BASE && r.b == (t.b + b + k) % BASE
    ensures Add(r, c).a == (Add(t, c).a + a - 1) % BASE
    ensures Add(r, c).b == (Add(t, c).b + b + k + (a - 1)) % BASE
  {
    ModSum(t.a + a - 1, c);
    ModSum(t.a + c, a - 1);
    ModSums(t.b + b + k, t.a + a - 1 + c);
    ModSum(t.a + c, t.b);
    ModSum(t.b + t.a + c, b + k + (a - 1));
  }

  /** The sums of x followed by y, from those of x and y and the length of y. */
  lemma CombineIs(x: seq<byte>, y: seq<byte>)
    ensures var s, t, r := Adler(Sums(1, 0), x), Adler(Sums(1, 0), y), Adler(Sums(1, 0), x + y);
            && Reduced(s) && Reduced(t) && r.a == (t.a + s.a - 1) % BASE && r.b == (t.b + s.b + |y| * (s.a - 1)) % BASE
  {
    hide Adler;
    var s := Adler(Sums(1, 0), x);
    AdlerReduced(Sums(1, 0), x);
    AdlerReduced(Sums(1, 0), y);
    AdlerAppend(Sums(1, 0), x, y);
    AdlerFrom(s.a, s.b, y);
  }

  /** The closed form of adler32_combine_, before its subtractions. */
  lemma ClosedForm(a1: nat, b1: nat, b2: nat, len: nat)
    requires a1 < BASE
    ensures len % BASE * a1 <= U32_MAX
    ensures (len % BASE * a1 % BASE + b1 + b2 + BASE - len % BASE) % BASE == (b2 + b1 + len * (a1 - 1)) % BASE
  {
    var rem := len % BASE;
    Product(rem, a1);
    var q := len / BASE;
    ModSum(rem * a1, b1 + b2 + BASE - rem);
    assert len == q * BASE + rem;
    Expand(q, rem, a1);
    WholeMultiple(q * (a1 - 1) - 1, rem * a1 + b1 + b2 + BASE - rem);
  }

  lemma Product(x: nat, y: nat)
    requires x < BASE && y < BASE
    ensures x * y <= 65520 * 65520
  {
    ProductMono(x, 65520, y);
    ProductMono(y, 65520, 65520);
  }

  lemma ProductMono(x: nat, x': nat, y: nat)
    requires x <= x'
    ensures x * y <= x' * y && y * x <= y * x'
  {
  }

  lemma Expand(q: nat, rem: nat, a1: nat)
    ensures (q * BASE + rem) * (a1 - 1) == (q * (a1 - 1)) * BASE + rem * a1 - rem
  {
    assert (q * BASE + rem) * (a1 - 1) == (q * BASE) * (a1 - 1) + rem * (a1 - 1);
    assert (q * BASE) * (a1 - 1) == (q * (a1 - 1)) * BASE;
    assert rem * (a1 - 1) == rem * a1 - rem;
  }

  lemma WholeMultiple(k: int, x: int)
    ensures (k * BASE + x) % BASE == x % BASE
  {
  }

  /** Two subtractions are enough for each sum. */
  method Reduce(full1: u32, full2: u32) returns (sum1: u32, sum2: u32)
    requires full1 < 3 * BASE && full2 < 4 * BASE
    ensures sum1 == full1 % BASE && sum2 == full2 % BASE
  {
    sum1, sum2 := full1, full2;
    if sum1 >= BASE { sum1 := sum1 - BASE; }
    if sum1 >= BASE { sum1 := sum1 - BASE; }
    if sum2 >= 2 * BASE { sum2 := sum2 - 2 * BASE; }
    if sum2 >= BASE { sum2 := sum2 - BASE; }
  }

  method CombineSums(s: Sums, t: Sums, len2: nat) returns (r: Sums)
    requires Reduced(s) && Reduced(t)
    ensures Reduced(r) && r.a == (t.a + s.a - 1) % BASE && r.b == (t.b + s.b + len2 * (s.a - 1)) % BASE
  {
    var rem := len2 % BASE;
    ClosedForm(s.a, s.b, t.b, len2);
    var sum1: u32 := s.a;
    var sum2: u32 := rem * sum1;
    sum2 := sum2 % BASE;
    sum1 := sum1 + t.a + BASE - 1;
    sum2 := sum2 + s.b + t.b + BASE - rem;
    WholeMultiple(1, t.a + s.a - 1);
    sum1, sum2 := Reduce(sum1, sum2);
    r := Sums(sum1, sum2);
  }

  /** adler32_combine_. Its conditional subtractions bring both sums below BASE. */
  method Combine(adler1: u32, adler2: u32, len2: int) returns (r: u32)
    requires Reduced(Unpack(adler1)) && Reduced(Unpack(adler2))
    ensures len2 < 0 ==> r == U32_MAX
    ensures len2 >= 0 ==> Reduced(Unpack(r)) && r == Pack(Unpack(r))
    ensures forall x, y ::
              Unpack(adler1) == Adler(Sums(1, 0), x) && Unpack(adler2) == Adler(Sums(1, 0), y) && len2 == |y| ==>
              Unpack(r) == Adler(Sums(1, 0), x + y)
  {
    hide Adler, Unpack, Pack;
    if len2 < 0 { return U32_MAX; }
    var s, t := Unpack(adler1), Unpack(adler2);
    var sums := CombineSums(s, t, len2);
    PackUnpack(sums);
    r := Pack(sums);
    forall x, y | s == Adler(Sums(1, 0), x) && t == Adler(Sums(1, 0), y) && len2 == |y|
      ensures sums == Adler(Sums(1, 0), x + y)
    {
      CombineIs(x, y);
    }
  }

  // ---------------------------------------------------------------- the modulus

  predicate Divides(d: nat, n: nat)
    requires d > 0
  {
    n % d == 0
  }

  ghost predicate Prime(n: nat)
  {
    n >= 2 && forall d :: 2 <= d < n ==> !Divides(d, n)
  }

  /** None of the k numbers from lo on divides n. */
  predicate NoDivisor(n: nat, lo: nat, k: nat)
    requires lo > 0
  {
    k == 0 || (!Divides(lo + k - 1, n) && NoDivisor(n, lo, k - 1))
  }

  lemma {:induction false} NoDivisorAt(n: nat, lo: nat, k: nat, d: nat)
    requires 0 < lo <= d < lo + k && NoDivisor(n, lo, k)
    ensures !Divides(d, n)
  {
    if d < lo + k - 1 { NoDivisorAt(n, lo, k - 1, d); }
  }

  lemma TrialDivision(d: nat)
    requires 2 <= d < 256
    ensures !Divides(d, BASE)
  {
    assert NoDivisor(65521, 2, 6);
    assert NoDivisor(65521, 8, 8);
    assert NoDivisor(65521, 16, 8);
    assert NoDivisor(65521, 24, 8);
    assert NoDivisor(65521, 32, 8);
    assert NoDivisor(65521, 40, 8);
    assert NoDivisor(65521, 48, 8);
    assert NoDivisor(65521, 56, 8);
    assert NoDivisor(65521, 64, 8);
    assert NoDivisor(65521, 72, 8);
    assert NoDivisor(65521, 80, 8);
    assert NoDivisor(65521, 88, 8);
    assert NoDivisor(65521, 96, 8);
    assert NoDivisor(65521, 104, 8);
    assert NoDivisor(65521, 112, 8);
    assert NoDivisor(65521, 120, 8);
    assert NoDivisor(65521, 128, 8);
    assert NoDivisor(65521, 136, 8);
    assert NoDivisor(65521, 144, 8);
    assert NoDivisor(65521, 152, 8);
    assert NoDivisor(65521, 160, 8);
    assert NoDivisor(65521, 168, 8);
    assert NoDivisor(65521, 176, 8);
    assert NoDivisor(65521, 184, 8);
    assert NoDivisor(65521, 192, 8);
    assert NoDivisor(65521, 200, 8);
    assert NoDivisor(65521, 208, 8);
    assert NoDivisor(65521, 216, 8);
    assert NoDivisor(65521, 224, 8);
    assert NoDivisor(65521, 232, 8);
    assert NoDivisor(65521, 240, 8);
    assert NoDivisor(65521, 248, 8);
    if d < 8 {
      NoDivisorAt(BASE, 2, 6, d);
    } else {
      NoDivisorAt(BASE, d / 8 * 8, 8, d);
    }
  }

  /** A divisor above the square root leaves one below it. */
  lemma Codivisor(n: nat, d: nat, q: nat)
    requires 256 <= d < n < 65536 && n == q * d
    ensures 2 <= q < 256 && Divides(q, n)
  {
    if q >= 256 {
      Monotone(256, 256, d);
      Monotone(d, 256, q);
    } else {
      assert q != 0 && q != 1;
      Quotient(n, q, d, 0);
    }
  }

  lemma NotPrime(n: nat, d: nat)
    requires 2 <= d < n && Divides(d, n)
    ensures !Prime(n)
  {
  }

  /** BASE is the largest prime below 65536. */
  lemma BaseIsLargestPrime()
    ensures Prime(BASE)
    ensures forall n :: BASE < n < 65536 ==> !Prime(n)
  {
    forall d | 2 <= d < BASE ensures !Divides(d, BASE) {
      if d < 256 {
        TrialDivision(d);
      } else if Divides(d, BASE) {
        Codivisor(BASE, d, BASE / d);
        TrialDivision(BASE / d);
      }
    }
    NotPrime(65522, 2);
    NotPrime(65523, 3);
    NotPrime(65524, 2);
    NotPrime(65525, 5);
    NotPrime(65526, 2);
    NotPrime(65527, 7);
    NotPrime(65528, 2);
    NotPrime(65529, 3);
    NotPrime(65530, 2);
    NotPrime(65531, 19);
    NotPrime(65532, 2);
    NotPrime(65533, 13);
    NotPrime(65534, 2);
    NotPrime(65535, 3);
  }

  const WIKIPEDIA: seq<byte> := [0x57, 0x69, 0x6B, 0x69, 0x70, 0x65, 0x64, 0x69, 0x61]

  lemma SumNext(text: seq<byte>, i: nat, s: Sums, t: Sums)
    requires i < |text| && Adler(Sums(1, 0), text[..i]) == s && t.a < BASE && t.b < BASE
    requires s.a + text[i] == t.a && s.b + t.a == t.b
    ensures Adler(Sums(1, 0), text[..i + 1]) == t
  {
    hide Adler;
    AdlerNext(Sums(1, 0), text, i);
  }

  /** A sum worked out: that of "Wikipedia" is 11E60398 in base 16. */
  lemma KnownSum()
    ensures Adler(Sums(1, 0), WIKIPEDIA) == Sums(0x0398, 0x11E6) && Pack(Sums(0x0398, 0x11E6)) == 0x11E6_0398
  {
    hide Adler;
    var text := WIKIPEDIA;
    assert text[..0] == [] && text[..9] == text;
    AdlerNone(Sums(1, 0));
    SumNext(text, 0, Sums(1, 0), Sums(88, 88));
    SumNext(text, 1, Sums(88, 88), Sums(193, 281));
    SumNext(text, 2, Sums(193, 281), Sums(300, 581));
    SumNext(text, 3, Sums(300, 581), Sums(405, 986));
    SumNext(text, 4, Sums(405, 986), Sums(517, 1503));
    SumNext(text, 5, Sums(517, 1503), Sums(618, 2121));
    SumNext(text, 6, Sums(618, 2121), Sums(718, 2839));
    SumNext(text, 7, Sums(718, 2839), Sums(823, 3662));
    SumNext(text, 8, Sums(823, 3662), Sums(920, 4582));
  }
}
