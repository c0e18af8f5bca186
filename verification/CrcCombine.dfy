/** crc32_combine_: the operator that appends zero bytes, as matrices over GF(2) squared again and again. */
module CrcCombine {
  import opened Crc32

  /** 1 << n, by doubling. */
  function Unit(v: word, n: nat): word
  {
    if n == 0 then v else Shl(Unit(v, n - 1))
  }

  /** What is left of v after n right shifts. */
  function Rest(v: word, n: nat): word
  {
    if n == 0 then v else Rest(Shr(v), n - 1)
  }

  /** Column n of the matrix is the image of the n-th unit vector under k steps of the register. */
  ghost predicate Operator(mat: seq<word>, k: nat)
  {
    |mat| == 32 && forall n :: 0 <= n < 32 ==> mat[n] == Steps(Unit(1, n), k)
  }

  lemma ShlXor(a: word, b: word)
    ensures Shl(Xor(a, b)) == Xor(Shl(a), Shl(b))
  {
  }

  lemma {:induction false} UnitXor(a: word, b: word, n: nat)
    ensures Unit(Xor(a, b), n) == Xor(Unit(a, n), Unit(b, n))
  {
    hide Xor, Shl;
    if n > 0 {
      UnitXor(a, b, n - 1);
      ShlXor(Unit(a, n - 1), Unit(b, n - 1));
    }
  }

  lemma {:induction false} UnitZero(n: nat)
    ensures Unit(0, n) == 0
  {
    if n > 0 { UnitZero(n - 1); }
  }

  lemma {:induction false} UnitShl(v: word, n: nat)
    ensures Unit(Shl(v), n) == Unit(v, n + 1)
  {
    hide Shl;
    if n > 0 { UnitShl(v, n - 1); }
  }

  /** The low bit and the rest. */
  lemma SplitBit(v: word)
    ensures v == Xor(if Odd(v) then 1 else 0, Shl(Shr(v)))
  {
    assert v & 1 == 0 || v & 1 == 1;
    assert v == (v & 1) ^ ((v >> 1) << 1);
  }

  lemma {:induction false} RestNothing(v: word)
    ensures Rest(v, 32) == 0
  {
    RestEight(v);
    RestAdd(v, 8, 8);
    RestEight(Shr8(v));
    RestAdd(v, 16, 8);
    RestEight(Shr8(Shr8(v)));
    RestAdd(v, 24, 8);
    RestEight(Shr8(Shr8(Shr8(v))));
    assert Shr8(Shr8(Shr8(Shr8(v)))) == 0;
  }

  lemma {:induction false} RestAdd(v: word, m: nat, n: nat)
    ensures Rest(v, m + n) == Rest(Rest(v, m), n)
    decreases m
  {
    hide Shr;
    if m > 0 { RestAdd(Shr(v), m - 1, n); }
  }

  lemma RestEight(v: word)
    ensures Rest(v, 8) == Shr8(v)
  {
    hide Shr, Shr8;
    var x := Shr(Shr(Shr(Shr(v))));
    assert Rest(v, 8) == Rest(Shr(Shr(v)), 6) == Rest(x, 4);
    var y := Shr(Shr(x));
    assert Rest(x, 4) == Rest(Shr(x), 3) == Rest(y, 2) == Rest(Shr(y), 1) == Rest(Shr(Shr(y)), 0);
    Shifts(v);
  }

  /** One bit of a vector contributes its column. */
  lemma TimesBit(v: word, n: nat, k: nat)
    ensures Steps(Unit(v, n), k) == Xor(if Odd(v) then Steps(Unit(1, n), k) else 0, Steps(Unit(Shr(v), n + 1), k))
  {
    hide Xor, Shr, Shl, Odd, Steps, Unit;
    SplitBit(v);
    var bit: word := if Odd(v) then 1 else 0;
    UnitXor(bit, Shl(Shr(v)), n);
    UnitShl(Shr(v), n);
    StepsXor(Unit(bit, n), Unit(Shl(Shr(v)), n), k);
    UnitZero(n);
    StepsZero(k);
  }

  /** gf2_matrix_times: the sum of the columns that the vector selects is the operator applied to it. */
  method Times(mat: seq<word>, vec: word, ghost k: nat) returns (sum: word)
    requires Operator(mat, k)
    ensures sum == Steps(vec, k)
  {
    hide Xor, Shr, Odd, Steps, Unit, Rest;
    sum := 0;
    var v, n := vec, 0;
    RestNothing(vec);
    XorZero(Steps(vec, k));
    assert Unit(vec, 0) == vec by { UnitNone(vec); }
    while v != 0
      invariant 0 <= n <= 32 && Rest(v, 32 - n) == 0
      invariant Steps(vec, k) == Xor(sum, Steps(Unit(v, n), k))
      decreases 32 - n
    {
      RestNone(v, 32 - n);
      TimesBit(v, n, k);
      XorAssoc(sum, if Odd(v) then mat[n] else 0, Steps(Unit(Shr(v), n + 1), k));
      XorZero(sum);
      if Odd(v) { sum := Xor(sum, mat[n]); }
      v := Shr(v);
      n := n + 1;
    }
    UnitZero(n);
    StepsZero(k);
    XorZero(sum);
  }

  lemma UnitNone(v: word)
    ensures Unit(v, 0) == v
  {
  }

  lemma RestNone(v: word, n: nat)
    requires Rest(v, n) == 0 && v != 0
    ensures n > 0 && Rest(Shr(v), n - 1) == 0
  {
  }

  /** gf2_matrix_square: twice as many steps. */
  method Square(mat: array<word>, square: array<word>, ghost k: nat)
    requires square != mat && square.Length == 32 && mat.Length == 32 && Operator(mat[..], k)
    modifies square
    ensures Operator(square[..], 2 * k)
  {
    hide Steps, Unit;
    for n := 0 to 32
      invariant forall j :: 0 <= j < n ==> square[j] == Steps(Unit(1, j), 2 * k)
    {
      StepsAdd(Unit(1, n), k, k);
      square[n] := Times(mat[..], mat[n], k);
    }
  }

  /** The units before the last have room to double. */
  lemma UnitRoom(n: nat)
    requires n <= 30
    ensures Shr(Unit(1, n + 1)) == Unit(1, n) && !Odd(Unit(1, n + 1))
  {
    UnitBelow(n);
    RoomToDouble(Unit(1, n));
  }

  lemma RoomToDouble(v: word)
    requires v <= 0x4000_0000
    ensures Shr(Shl(v)) == v && !Odd(Shl(v))
  {
  }

  lemma {:induction false} UnitBelow(n: nat)
    requires n <= 30
    ensures Unit(1, n) <= 0x4000_0000
  {
    assert Unit(1, 8) == 0x100 by { Eight(1); }
    assert Unit(1, 16) == 0x1_0000 by { UnitAdd(1, 8, 8); Eight(0x100); }
    assert Unit(1, 24) == 0x100_0000 by { UnitAdd(1, 16, 8); Eight(0x1_0000); }
    hide *;
    if n < 8 {
      Few(1, n);
    } else if n < 16 {
      UnitAdd(1, 8, n - 8);
      Few(0x100, n - 8);
    } else if n < 24 {
      UnitAdd(1, 16, n - 16);
      Few(0x1_0000, n - 16);
    } else {
      UnitAdd(1, 24, n - 24);
      FewMore(n - 24);
    }
  }

  lemma Eight(v: word)
    requires v <= 0x1_0000
    ensures Unit(v, 8) == v << 8
  {
    assert Unit(v, 1) == v << 1;
    assert Unit(v, 2) == v << 2;
    assert Unit(v, 3) == v << 3;
    assert Unit(v, 4) == v << 4;
    assert Unit(v, 5) == v << 5;
    assert Unit(v, 6) == v << 6;
    assert Unit(v, 7) == v << 7;
  }

  lemma Few(v: word, n: nat)
    requires v <= 0x1_0000 && n < 8
    ensures Unit(v, n) <= 0x4000_0000
  {
    assert Unit(v, 1) == v << 1;
    assert Unit(v, 2) == v << 2;
    assert Unit(v, 3) == v << 3;
    assert Unit(v, 4) == v << 4;
    assert Unit(v, 5) == v << 5;
    assert Unit(v, 6) == v << 6;
    assert Unit(v, 7) == v << 7;
  }

  lemma FewMore(n: nat)
    requires n <= 6
    ensures Unit(0x100_0000, n) <= 0x4000_0000
  {
    assert Unit(0x100_0000, 1) == 0x200_0000;
    assert Unit(0x100_0000, 2) == 0x400_0000;
    assert Unit(0x100_0000, 3) == 0x800_0000;
    assert Unit(0x100_0000, 4) == 0x1000_0000;
    assert Unit(0x100_0000, 5) == 0x2000_0000;
    assert Unit(0x100_0000, 6) == 0x4000_0000;
  }

  lemma {:induction false} UnitAdd(v: word, m: nat, n: nat)
    ensures Unit(v, m + n) == Unit(Unit(v, m), n)
  {
    hide Shl;
    if n > 0 { UnitAdd(v, m, n - 1); }
  }

  /** The operator for one zero bit. */
  method OneBit(odd: array<word>)
    requires odd.Length == 32
    modifies odd
    ensures Operator(odd[..], 1)
  {
    hide Unit;
    odd[0] := POLY;
    var row: word := 1;
    assert Steps(Unit(1, 0), 1) == POLY && Unit(1, 0) == 1 by { FirstColumn(); }
    for n := 1 to 32
      invariant odd[0] == Steps(Unit(1, 0), 1) && row == Unit(1, n - 1)
      invariant forall j :: 0 <= j < n ==> odd[j] == Steps(Unit(1, j), 1)
    {
      hide *;
      odd[n] := row;
      Column(n);
      row := Shl(row);
    }
  }

  lemma FirstColumn()
    ensures Steps(Unit(1, 0), 1) == POLY && Unit(1, 0) == 1
  {
    assert Steps(1, 1) == Step(Steps(1, 0)) == Step(1);
    assert POLY ^ 0 == POLY;
  }

  lemma Column(n: nat)
    requires 1 <= n <= 31
    ensures Steps(Unit(1, n), 1) == Unit(1, n - 1) && Unit(1, n) == Shl(Unit(1, n - 1))
  {
    hide Shl, Shr, Odd, Xor;
    UnitRoom(n - 1);
    assert Steps(Unit(1, n), 1) == Step(Steps(Unit(1, n), 0));
  }

  // ---------------------------------------------------------------- combining

  /** 2 k len more steps, by the low bit of len and the rest. */
  lemma StepsBit(c: word, k: nat, len: nat)
    ensures Steps(c, 2 * k * len) == Steps(if len % 2 == 1 then Steps(c, 2 * k) else c, 4 * k * (len / 2))
  {
    hide Steps;
    var h := len / 2;
    if len % 2 == 1 {
      OddTimes(k, h);
      StepsAdd(c, 2 * k, 4 * k * h);
    } else {
      EvenTimes(k, h);
    }
  }

  lemma OddTimes(k: nat, h: nat)
    ensures 2 * k * (2 * h + 1) == 2 * k + 4 * k * h
  {
  }

  lemma EvenTimes(k: nat, h: nat)
    ensures 2 * k * (2 * h) == 4 * k * h
  {
  }

  /** One round: square into the other matrix, apply it if the low bit of len is set, drop that bit. */
  method Round(from: array<word>, into: array<word>, crc: word, len: nat, ghost k: nat) returns (r: word, rest: nat)
    requires from != into && from.Length == 32 && into.Length == 32 && Operator(from[..], k)
    modifies into
    ensures Operator(into[..], 2 * k) && rest == len / 2
    ensures Steps(crc, 2 * k * len) == Steps(r, 4 * k * rest)
  {
    hide *;
    StepsBit(crc, k, len);
    Square(from, into, k);
    r := crc;
    if len % 2 == 1 {
      r := Times(into[..], crc, 2 * k);
    }
    rest := len / 2;
  }

  /** The matrices' steps, applied len2 times eight. */
  method AppendZeros(crc: word, len2: nat) returns (r: word)
    requires len2 > 0
    ensures r == Steps(crc, 8 * len2)
  {
    hide Operator, Steps;
    var even, odd := new word[32], new word[32];
    OneBit(odd);
    Square(odd, even, 1);
    Square(even, odd, 2);
    var len := len2;
    r := crc;
    ghost var k: nat := 4;
    var inEven := false;
    while len != 0
      invariant 0 <= len && Steps(crc, 8 * len2) == Steps(r, 2 * k * len)
      invariant if inEven then Operator(even[..], k) else Operator(odd[..], k)
    {
      if inEven {
        r, len := Round(even, odd, r, len, k);
      } else {
        r, len := Round(odd, even, r, len, k);
      }
      inEven := !inEven;
      k := 2 * k;
    }
    assert Steps(r, 2 * k * 0) == r by { NoSteps(r); }
  }

  lemma NoSteps(c: word)
    ensures Steps(c, 0) == c
  {
  }

  /** The effect of the register's start value on the result does not depend on the bytes. */
  lemma {:induction false} RegisterXor(x: word, y: word, bs: seq<octet>)
    ensures Register(Xor(x, y), bs) == Xor(Steps(x, 8 * |bs|), Register(y, bs))
  {
    hide Xor, Steps, Feed;
    if |bs| == 0 {
      NoSteps(x);
    } else {
      var n := |bs| - 1;
      var u, v, b := Steps(x, 8 * n), Register(y, bs[..n]), bs[n];
      RegisterXor(x, y, bs[..n]);
      Feeds(Xor(u, v), b);
      Feeds(v, b);
      XorAssoc(u, v, Widen(b));
      StepsXor(u, Xor(v, Widen(b)), 8);
      StepsAdd(x, 8 * n, 8);
    }
  }

  lemma {:induction false} RegisterAppend(c: word, a: seq<octet>, b: seq<octet>)
    ensures Register(c, a + b) == Register(Register(c, a), b)
  {
    hide Feed;
    if |b| == 0 {
      assert a + b == a;
    } else {
      RegisterAppend(c, a, b[..|b| - 1]);
      assert (a + b)[..|a + b| - 1] == a + b[..|b| - 1];
    }
  }

  lemma Complement(a: word, b: word)
    ensures Xor(Not(a), 0xffff_ffff) == a && Not(Xor(a, b)) == Xor(a, Not(b)) && Not(Not(a)) == a
    ensures Not(0) == 0xffff_ffff
  {
  }

  /** Continuing a CRC is the CRC of the whole. */
  lemma CrcAppend(crc: word, a: seq<octet>, b: seq<octet>)
    ensures Crc(Crc(crc, a), b) == Crc(crc, a + b)
  {
    hide Register, Not;
    RegisterAppend(Not(crc), a, b);
    Complement(Register(Not(crc), a), 0);
  }

  /** What combining has to compute. */
  lemma CombineIs(a: seq<octet>, b: seq<octet>)
    ensures Crc(0, a + b) == Xor(Steps(Crc(0, a), 8 * |b|), Crc(0, b))
  {
    hide Register, Steps, Xor, Not;
    var ones: word := 0xffff_ffff;
    var r := Register(ones, a);
    Complement(r, 0);
    RegisterAppend(ones, a, b);
    RegisterXor(Not(r), ones, b);
    Complement(Steps(Not(r), 8 * |b|), Register(ones, b));
  }

  /** crc32_combine_: the CRC of two sequences from their CRCs and the length of the second. */
  method Combine(crc1: word, crc2: word, len2: int) returns (r: word)
    ensures len2 <= 0 ==> r == crc1
    ensures forall a, b :: crc1 == Crc(0, a) && crc2 == Crc(0, b) && len2 == |b| ==> r == Crc(0, a + b)
  {
    hide Crc, Steps, Xor;
    if len2 <= 0 {
      r := crc1;
      forall a, b: seq<octet> | crc1 == Crc(0, a) && crc2 == Crc(0, b) && len2 == |b| ensures r == Crc(0, a + b) {
        assert a + b == a;
      }
    } else {
      r := AppendZeros(crc1, len2);
      r := Xor(r, crc2);
      forall a, b | crc1 == Crc(0, a) && crc2 == Crc(0, b) && len2 == |b| ensures r == Crc(0, a + b) {
        CombineIs(a, b);
      }
    }
  }
}
