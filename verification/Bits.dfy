/** Machine-word operations on natural numbers, defined bit by bit: shifts, masks and bit reversal.
    High(x, n) is x >> n, Low(x, n) is x & ((1 << n) - 1), Shl(x, n) is x << n without truncation. */
module Bits {

  function Pow2(n: nat): (r: nat)
    ensures r > 0
  {
    if n == 0 then 1 else 2 * Pow2(n - 1)
  }

  function High(x: nat, n: nat): (r: nat)
  {
    if n == 0 then x else High(x / 2, n - 1)
  }

  function Low(x: nat, n: nat): (r: nat)
    ensures r < Pow2(n)
    ensures r <= x
  {
    if n == 0 then 0 else x % 2 + 2 * Low(x / 2, n - 1)
  }

  function Shl(x: nat, n: nat): (r: nat)
  {
    if n == 0 then x else 2 * Shl(x, n - 1)
  }

  /** The n low bits of x in reverse order. */
  function Rev(x: nat, n: nat): (r: nat)
    ensures r < Pow2(n)
  {
    if n == 0 then 0 else (if x % 2 == 1 then Pow2(n - 1) else 0) + Rev(x / 2, n - 1)
  }

  // ---------------------------------------------------------------- shifts and masks

  lemma {:induction false} Pow2Mono(a: nat, b: nat)
    requires a <= b
    ensures Pow2(a) <= Pow2(b)
    decreases b
  {
    if a < b { Pow2Mono(a, b - 1); }
  }

  /** A word splits into its low bits and its high bits. */
  lemma {:induction false} SplitWord(x: nat, n: nat)
    ensures x == Low(x, n) + Shl(High(x, n), n)
  {
    if n > 0 {
      SplitWord(x / 2, n - 1);
    }
  }

  lemma {:induction false} JoinWord(l: nat, h: nat, n: nat)
    requires l < Pow2(n)
    ensures Low(l + Shl(h, n), n) == l && High(l + Shl(h, n), n) == h
  {
    if n > 0 {
      JoinWord(l / 2, h, n - 1);
      assert (l + Shl(h, n)) / 2 == l / 2 + Shl(h, n - 1);
    }
  }

  lemma {:induction false} LowSmall(x: nat, n: nat)
    requires x < Pow2(n)
    ensures Low(x, n) == x && High(x, n) == 0
  {
    if n > 0 { LowSmall(x / 2, n - 1); }
  }

  lemma {:induction false} HighHigh(x: nat, a: nat, b: nat)
    ensures High(High(x, a), b) == High(x, a + b)
  {
    if a > 0 { HighHigh(x / 2, a - 1, b); }
  }

  lemma {:induction false} LowLow(x: nat, m: nat, n: nat)
    requires m <= n
    ensures Low(Low(x, n), m) == Low(x, m)
  {
    if m > 0 {
      LowLow(x / 2, m - 1, n - 1);
      assert Low(x, n) / 2 == Low(x / 2, n - 1);
    }
  }

  lemma {:induction false} HighLow(x: nat, m: nat, n: nat)
    requires m <= n
    ensures High(Low(x, n), m) == Low(High(x, m), n - m)
  {
    if m > 0 {
      HighLow(x / 2, m - 1, n - 1);
      assert Low(x, n) / 2 == Low(x / 2, n - 1);
    }
  }

  lemma {:induction false} ShlZero(n: nat)
    ensures Shl(0, n) == 0
  {
    if n > 0 { ShlZero(n - 1); }
  }

  lemma {:induction false} ShlMono(a: nat, b: nat, n: nat)
    ensures a <= b <==> Shl(a, n) <= Shl(b, n)
    ensures a < b <==> Shl(a, n) < Shl(b, n)
  {
    if n > 0 { ShlMono(a, b, n - 1); }
  }

  lemma {:induction false} ShlAdd(a: nat, b: nat, n: nat)
    ensures Shl(a + b, n) == Shl(a, n) + Shl(b, n)
  {
    if n > 0 { ShlAdd(a, b, n - 1); }
  }

  lemma {:induction false} ShlSucc(c: nat, n: nat)
    ensures Shl(c + 1, n) == Shl(c, n) + Pow2(n)
  {
    if n > 0 { ShlSucc(c, n - 1); }
  }

  lemma {:induction false} ShlShl(c: nat, a: nat, b: nat)
    ensures Shl(Shl(c, a), b) == Shl(c, a + b)
  {
    if b > 0 { ShlShl(c, a, b - 1); }
  }

  lemma {:induction false} ShlPow2(a: nat, b: nat)
    ensures Shl(Pow2(a), b) == Pow2(a + b)
  {
    if b > 0 { ShlPow2(a, b - 1); }
  }

  /** x >> n is c exactly when x lies in the n-bit cell that starts at c << n. */
  lemma HighCell(x: nat, n: nat, c: nat)
    ensures High(x, n) == c <==> Shl(c, n) <= x < Shl(c, n) + Pow2(n)
  {
    SplitWord(x, n);
    ShlMono(High(x, n), c, n);
    ShlMono(c, High(x, n), n);
    ShlMono(High(x, n) + 1, c, n);
    ShlMono(c + 1, High(x, n), n);
    ShlSucc(c, n);
    ShlSucc(High(x, n), n);
  }

  // ---------------------------------------------------------------- bit reversal

  /** Adding a power of two at or above bit m leaves the low m bits alone. */
  lemma {:induction false} LowAddPow2(r: nat, m: nat, k: nat)
    requires m <= k
    ensures Low(r + Pow2(k), m) == Low(r, m)
    ensures High(r + Pow2(k), m) == High(r, m) + Pow2(k - m)
  {
    if m > 0 {
      LowAddPow2(r / 2, m - 1, k - 1);
      assert (r + Pow2(k)) / 2 == r / 2 + Pow2(k - 1);
    }
  }

  /** The low m bits of a reversed word are its top m bits, reversed. */
  lemma {:induction false} RevPrefix(x: nat, n: nat, m: nat)
    requires m <= n
    ensures Low(Rev(x, n), m) == Rev(High(x, n - m), m)
  {
    hide *;
    if m < n {
      RevStep(x, n);
      HighStep(x, n - m);
      RevPrefix(x / 2, n - 1, m);
      LowAddPow2(Rev(x / 2, n - 1), m, n - 1);
    } else {
      HighNone(x);
      LowSmall(Rev(x, n), n);
    }
  }

  lemma RevStep(x: nat, n: nat)
    requires n > 0
    ensures Rev(x, n) == (if x % 2 == 1 then Pow2(n - 1) else 0) + Rev(x / 2, n - 1)
  {
  }

  lemma HighStep(x: nat, n: nat)
    requires n > 0
    ensures High(x, n) == High(x / 2, n - 1)
  {
  }

  lemma HighNone(x: nat)
    ensures High(x, 0) == x
  {
  }

  /** The bits above the low m of a reversed word are its low bits, reversed. */
  lemma {:induction false} RevSuffix(x: nat, n: nat, m: nat)
    requires m <= n
    ensures High(Rev(x, n), m) == Rev(Low(x, n - m), n - m)
  {
    hide *;
    if m < n {
      RevStep(x, n);
      RevStep(Low(x, n - m), n - m);
      LowStep(x, n - m);
      RevSuffix(x / 2, n - 1, m);
      LowAddPow2(Rev(x / 2, n - 1), m, n - 1);
    } else {
      HighAll(x, n);
    }
  }

  lemma LowStep(x: nat, n: nat)
    requires n > 0
    ensures Low(x, n) % 2 == x % 2 && Low(x, n) / 2 == Low(x / 2, n - 1)
  {
  }

  lemma HighAll(x: nat, n: nat)
    ensures High(Rev(x, n), n) == Rev(Low(x, 0), 0)
  {
    LowSmall(Rev(x, n), n);
  }

  /** The top bit of an n-bit word, and what is below it. */
  lemma {:induction false} TopBit(x: nat, n: nat)
    requires n > 0 && x < Pow2(n)
    ensures High(x, n - 1) == (if x >= Pow2(n - 1) then 1 else 0)
    ensures x == Low(x, n - 1) + (if x >= Pow2(n - 1) then Pow2(n - 1) else 0)
  {
    if n > 1 { TopBit(x / 2, n - 1); }
  }

  /** Reversing twice is the identity on n-bit words. */
  lemma {:induction false} RevRev(x: nat, n: nat)
    requires x < Pow2(n)
    ensures Rev(Rev(x, n), n) == x
  {
    if n > 0 {
      TopBit(x, n);
      RevPrefix(x, n, 1);
      RevSuffix(x, n, 1);
      assert Rev(x, n) % 2 == High(x, n - 1) && Rev(x, n) / 2 == Rev(Low(x, n - 1), n - 1);
      RevRev(Low(x, n - 1), n - 1);
    }
  }

  lemma RevInjective(x: nat, y: nat, n: nat)
    requires x < Pow2(n) && y < Pow2(n) && Rev(x, n) == Rev(y, n)
    ensures x == y
  {
    RevRev(x, n);
    RevRev(y, n);
  }

  /** Trailing zeros of a word are leading zeros of its reverse. */
  lemma {:induction false} RevShift(c: nat, l: nat, j: nat)
    ensures Rev(Shl(c, j), l + j) == Rev(c, l)
  {
    if j > 0 {
      RevShift(c, l, j - 1);
    }
  }
}
