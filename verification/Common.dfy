/** What several parts share: optional values, and pieces put together. */
module Common {

  datatype Option<+T> = None | Some(value: T)

  function Concat<T>(pieces: seq<seq<T>>): seq<T>
  {
    if |pieces| == 0 then [] else Concat(pieces[..|pieces| - 1]) + pieces[|pieces| - 1]
  }

  lemma ConcatNone<T>(pieces: seq<seq<T>>)
    ensures Concat(pieces[..0]) == []
  {
  }

  lemma ConcatNext<T>(pieces: seq<seq<T>>, k: nat)
    requires k < |pieces|
    ensures Concat(pieces[..k + 1]) == Concat(pieces[..k]) + pieces[k]
  {
    assert pieces[..k + 1][..k] == pieces[..k];
  }

  lemma {:induction false} ConcatPrefix<T>(pieces: seq<seq<T>>, k: nat)
    requires k <= |pieces|
    ensures Concat(pieces[..k]) <= Concat(pieces)
    decreases |pieces| - k
  {
    if k == |pieces| {
      assert pieces[..k] == pieces;
    } else {
      ConcatNext(pieces, k);
      ConcatPrefix(pieces, k + 1);
    }
  }

  /** Quotient and remainder are the only ones. */
  lemma Quotient(v: nat, m: nat, q: nat, r: nat)
    requires m > 0 && v == m * q + r && r < m
    ensures v / m == q && v % m == r
  {
    assert m * (v / m - q) == r - v % m by { Difference(m, v / m, q); }
    Multiple(m, v / m - q);
  }

  lemma Difference(m: nat, a: nat, b: nat)
    ensures m * (a - b) == m * a - m * b
  {
  }

  /** A multiple of m that lies within m of zero is zero. */
  lemma Multiple(m: nat, k: int)
    requires m > 0 && m * k < m && 0 < m * k + m
    ensures k == 0
  {
    if k > 0 {
      Monotone(m, 1, k);
    } else if k < 0 {
      Monotone(m, k, -1);
    }
  }

  lemma Monotone(m: nat, a: int, b: int)
    requires a <= b
    ensures m * a <= m * b
  {
  }
}
