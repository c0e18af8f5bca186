/** LZ77 tokens and their expansion: what both the compressor and the decompressor are measured against. */
module Lz77 {
  import opened Common

  type byte = b: int | 0 <= b < 256

  datatype Token = Literal(b: byte) | Match(len: nat, dist: nat)

  /** Copy len bytes from dist back, one at a time: the source may run into what is being written. */
  function Copy(h: seq<byte>, dist: nat, len: nat): (r: seq<byte>)
    requires 1 <= dist <= |h|
    ensures |r| == |h| + len
    decreases len
  {
    if len == 0 then h
    else
      var r := Copy(h, dist, len - 1);
      r + [r[|r| - dist]]
  }

  lemma {:induction false} CopyExtends(h: seq<byte>, dist: nat, len: nat)
    requires 1 <= dist <= |h|
    ensures h <= Copy(h, dist, len)
  {
    if len > 0 { CopyExtends(h, dist, len - 1); }
  }

  /** The output after one more token; a distance must stay within the output. */
  function Apply(h: seq<byte>, t: Token): Option<seq<byte>>
  {
    match t
    case Literal(b) => Some(h + [b])
    case Match(len, dist) => if 1 <= dist <= |h| then Some(Copy(h, dist, len)) else None
  }

  /** The output after a list of tokens, from the history h on. */
  function Expand(h: seq<byte>, ts: seq<Token>): Option<seq<byte>>
  {
    if |ts| == 0 then Some(h)
    else
      match Expand(h, ts[..|ts| - 1])
      case None => None
      case Some(m) => Apply(m, ts[|ts| - 1])
  }

  /** How many bytes a token, and a list of tokens, adds to the output. */
  function Adds(t: Token): nat
  {
    match t
    case Literal(_) => 1
    case Match(len, _) => len
  }

  function Length(ts: seq<Token>): nat
  {
    if |ts| == 0 then 0 else Length(ts[..|ts| - 1]) + Adds(ts[|ts| - 1])
  }

  lemma LengthSnoc(ts: seq<Token>, t: Token)
    ensures Length(ts + [t]) == Length(ts) + Adds(t)
  {
    assert (ts + [t])[..|ts|] == ts;
  }

  lemma {:induction false} ExpandLength(h: seq<byte>, ts: seq<Token>)
    requires Expand(h, ts).Some?
    ensures |Expand(h, ts).value| == |h| + Length(ts)
    decreases |ts|
  {
    if |ts| > 0 { ExpandLength(h, ts[..|ts| - 1]); }
  }

  lemma ExpandSnoc(h: seq<byte>, ts: seq<Token>, t: Token)
    requires Expand(h, ts).Some?
    ensures Expand(h, ts + [t]) == Apply(Expand(h, ts).value, t)
  {
    assert (ts + [t])[..|ts|] == ts;
  }

  /** A copy is the one extension in which every new byte equals the byte dist before it. */
  lemma {:induction false} CopyUnique(h: seq<byte>, dist: nat, len: nat, r: seq<byte>)
    requires 1 <= dist <= |h| && |r| == |h| + len && r[..|h|] == h
    requires forall i :: |h| <= i < |r| ==> r[i] == r[i - dist]
    ensures r == Copy(h, dist, len)
  {
    if len == 0 {
      assert r == r[..|h|];
    } else {
      var q := r[..|r| - 1];
      assert q[..|h|] == r[..|h|];
      forall i | |h| <= i < |q| ensures q[i] == q[i - dist] {
        assert q[i] == r[i] && q[i - dist] == r[i - dist];
      }
      CopyUnique(h, dist, len - 1, q);
      assert r[|r| - 1] == r[|r| - 1 - dist] == q[|q| - dist];
      assert r == q + [r[|r| - 1]];
    }
  }

  /** Each byte of a copy equals the byte dist before it. */
  lemma {:induction false} CopyAt(h: seq<byte>, dist: nat, len: nat, i: nat)
    requires 1 <= dist <= |h| <= i < |h| + len
    ensures Copy(h, dist, len)[i] == Copy(h, dist, len)[i - dist]
  {
    if i < |h| + len - 1 { CopyAt(h, dist, len - 1, i); }
  }

  /** Copies compose. */
  lemma {:induction false} CopyCopy(h: seq<byte>, dist: nat, a: nat, b: nat)
    requires 1 <= dist <= |h|
    ensures Copy(Copy(h, dist, a), dist, b) == Copy(h, dist, a + b)
  {
    if b > 0 { CopyCopy(h, dist, a, b - 1); }
  }

  /** The data at position n repeats what stands d before, for len bytes. */
  ghost predicate MatchAt(data: seq<byte>, n: nat, d: nat, len: nat)
  {
    && 1 <= d <= n && n + len <= |data|
    && forall k :: n <= k < n + len ==> data[k] == data[k - d]
  }
}
