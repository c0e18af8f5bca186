/** The buffers in which the compressor records tokens for the current block, and what the tokens cover. */
module TokenBuffer {
  import opened Common
  import opened Lz77
  import opened LongestMatch
  import DecodeTable
  import BlockData
  import Bits

  type ushort = n: int | 0 <= n < 0x1_0000

  /** An entry of the two buffers as a token: a literal has distance 0. */
  function TokenOf(d: ushort, l: byte): Token
  {
    if d == 0 then Literal(l) else Match(l + 3, d)
  }

  function TokensOf(ds: seq<ushort>, ls: seq<byte>): (ts: seq<Token>)
    requires |ds| == |ls|
    ensures |ts| == |ds| && forall i :: 0 <= i < |ds| ==> ts[i] == TokenOf(ds[i], ls[i])
  {
    seq(|ds|, i requires 0 <= i < |ds| => TokenOf(ds[i], ls[i]))
  }

  // ---------------------------------------------------------------- the codes of tokens

  const L_CODES: nat := 286
  const D_CODES: nat := 30

  /** The last of the first n codes whose base is not above x. */
  function CodeFor(base: seq<nat>, x: nat, n: nat): (c: nat)
    requires 0 < n <= |base|
    ensures c < n && (c > 0 ==> base[c] <= x) && (c + 1 < n ==> x < base[c + 1])
  {
    if n == 1 || base[n - 1] <= x then n - 1 else CodeFor(base, x, n - 1)
  }

  /** The literal or length code of a token, and the distance code of a match. */
  function LitCode(t: Token): (s: nat)
    ensures s < L_CODES && s != 256
  {
    match t case Literal(b) => b case Match(len, _) => 257 + CodeFor(DecodeTable.LBASE, len, 29)
  }

  function DistCode(t: Token): (s: nat)
    requires t.Match?
    ensures s < D_CODES
  {
    CodeFor(DecodeTable.DBASE, t.dist, 30)
  }

  /** The codes counted for a match are those from which a decoder gets it back: their bases and extra bits reach it. */
  lemma CodesReach(len: nat, dist: nat)
    requires 3 <= len <= 258 && 1 <= dist <= 32768
    ensures var s := LitCode(Match(len, dist));
            257 <= s && DecodeTable.LBASE[s - 257] <= len < DecodeTable.LBASE[s - 257] +
              Bits.Pow2(BlockData.ExtraLen(s))
    ensures var d := DistCode(Match(len, dist));
            DecodeTable.DBASE[d] <= dist < DecodeTable.DBASE[d] + Bits.Pow2(BlockData.ExtraDist(d))
  {
    LengthReach(LitCode(Match(len, dist)) - 257, len);
    DistanceReach(DistCode(Match(len, dist)), dist);
  }

  lemma LengthReach(c: nat, len: nat)
    requires c < 29 && 3 <= len <= 258 && (c > 0 ==> DecodeTable.LBASE[c] <= len)
    requires c + 1 < 29 ==> len < DecodeTable.LBASE[c + 1]
    ensures DecodeTable.LBASE[c] <= len < DecodeTable.LBASE[c] + Bits.Pow2(BlockData.ExtraLen(c + 257))
  {
    assert Bits.Pow2(0) == 1 && Bits.Pow2(1) == 2 && Bits.Pow2(2) == 4;
    assert Bits.Pow2(3) == 8 && Bits.Pow2(4) == 16;
    assert Bits.Pow2(5) == 32;
    if {
      case c < 8 => assert BlockData.ExtraLen(c + 257) == 0;
      case 8 <= c < 12 => assert BlockData.ExtraLen(c + 257) == 1;
      case 12 <= c < 16 => assert BlockData.ExtraLen(c + 257) == 2;
      case 16 <= c < 20 => assert BlockData.ExtraLen(c + 257) == 3;
      case 20 <= c < 24 => assert BlockData.ExtraLen(c + 257) == 4;
      case 24 <= c < 28 => assert BlockData.ExtraLen(c + 257) == 5;
      case c == 28 =>
    }
  }

  lemma DistanceReach(d: nat, dist: nat)
    requires d < 30 && 1 <= dist <= 32768 && (d > 0 ==> DecodeTable.DBASE[d] <= dist)
    requires d + 1 < 30 ==> dist < DecodeTable.DBASE[d + 1]
    ensures DecodeTable.DBASE[d] <= dist < DecodeTable.DBASE[d] + Bits.Pow2(BlockData.ExtraDist(d))
  {
    assert Bits.Pow2(0) == 1 && Bits.Pow2(1) == 2 && Bits.Pow2(2) == 4;
    assert Bits.Pow2(3) == 8 && Bits.Pow2(4) == 16;
    assert Bits.Pow2(5) == 32 && Bits.Pow2(6) == 64;
    assert Bits.Pow2(7) == 128 && Bits.Pow2(8) == 256;
    assert Bits.Pow2(9) == 512 && Bits.Pow2(10) == 1024;
    assert Bits.Pow2(11) == 2048 && Bits.Pow2(12) == 4096;
    assert Bits.Pow2(13) == 8192;
  }

  /** How many tokens have a code. */
  function LitCount(ts: seq<Token>, s: nat): nat
  {
    if |ts| == 0 then 0 else LitCount(ts[..|ts| - 1], s) + (if LitCode(ts[|ts| - 1]) == s then 1 else 0)
  }

  function DistCount(ts: seq<Token>, s: nat): nat
  {
    if |ts| == 0 then 0
    else DistCount(ts[..|ts| - 1], s) + (if ts[|ts| - 1].Match? && DistCode(ts[|ts| - 1]) == s then 1 else 0)
  }

  /** The frequencies are those of the tokens; the end of the block occurs once. */
  ghost predicate Counts(lFreq: seq<nat>, dFreq: seq<nat>, ts: seq<Token>)
  {
    && |lFreq| == L_CODES && |dFreq| == D_CODES
    && (forall s :: 0 <= s < L_CODES ==> lFreq[s] == LitCount(ts, s) + (if s == 256 then 1 else 0))
    && (forall s :: 0 <= s < D_CODES ==> dFreq[s] == DistCount(ts, s))
  }

  lemma CountsLiteral(lFreq: seq<nat>, dFreq: seq<nat>, ts: seq<Token>, c: byte)
    requires Counts(lFreq, dFreq, ts)
    ensures Counts(lFreq[c := lFreq[c] + 1], dFreq, ts + [Literal(c)])
  {
    assert (ts + [Literal(c)])[..|ts|] == ts;
  }

  lemma CountsMatch(lFreq: seq<nat>, dFreq: seq<nat>, ts: seq<Token>, t: Token)
    requires Counts(lFreq, dFreq, ts) && t.Match?
    ensures Counts(lFreq[LitCode(t) := lFreq[LitCode(t)] + 1], dFreq[DistCode(t) := dFreq[DistCode(t)] + 1], ts + [t])
  {
    hide LitCode, DistCode;
    assert (ts + [t])[..|ts|] == ts;
  }

  // ---------------------------------------------------------------- the buffer

  class Buffer {
    const dBuf: array<ushort>
    const lBuf: array<byte>
    var lastLit: nat
    /** The frequencies of the literal/length and distance codes in the current block. */
    var lFreq: seq<nat>
    var dFreq: seq<nat>
    /** The tokens of the blocks written so far. */
    ghost var flushed: seq<Token>

    predicate Room()
      reads this`lastLit
    {
      dBuf.Length == lBuf.Length && lastLit < lBuf.Length
    }

    /** One slot stays free: a block is flushed when only that is left. The frequencies are those of the tokens. */
    ghost predicate Valid()
      reads this`lastLit, this`lFreq, this`dFreq, dBuf, lBuf
    {
      Room() && Counts(lFreq, dFreq, Pending())
    }

    ghost function Pending(): seq<Token>
      reads this`lastLit, dBuf, lBuf
      requires Room()
    {
      TokensOf(dBuf[..lastLit], lBuf[..lastLit])
    }

    /** All tokens recorded. */
    ghost function All(): seq<Token>
      reads this`lastLit, this`lFreq, this`dFreq, this`flushed, dBuf, lBuf
      requires Valid()
    {
      flushed + Pending()
    }

    constructor (size: nat)
      requires 2 <= size
      ensures Valid() && lastLit + 1 < lBuf.Length && fresh(dBuf) && fresh(lBuf) && flushed == [] && All() == []
      ensures lBuf.Length == size
    {
      dBuf := new ushort[size];
      lBuf := new byte[size];
      lastLit, flushed := 0, [];
      lFreq, dFreq := NoLiterals(), NoDistances();
    }

    /** init_block. */
    static function NoLiterals(): (f: seq<nat>)
      ensures |f| == L_CODES && forall s :: 0 <= s < L_CODES ==> f[s] == if s == 256 then 1 else 0
    {
      seq(L_CODES, s => if s == 256 then 1 else 0)
    }

    static function NoDistances(): (f: seq<nat>)
      ensures |f| == D_CODES && forall s :: 0 <= s < D_CODES ==> f[s] == 0
    {
      seq(D_CODES, s => 0)
    }

    method Record(d: ushort, l: byte) returns (full: bool)
      requires Room() && lastLit + 1 < lBuf.Length
      modifies this`lastLit, dBuf, lBuf
      ensures Room() && Pending() == old(Pending()) + [TokenOf(d, l)] && lastLit == old(lastLit) + 1
      ensures full <==> lastLit == lBuf.Length - 1
    {
      ghost var before := TokensOf(dBuf[..lastLit], lBuf[..lastLit]);
      dBuf[lastLit] := d;
      lBuf[lastLit] := l;
      lastLit := lastLit + 1;
      full := lastLit == lBuf.Length - 1;
      assert TokensOf(dBuf[..lastLit], lBuf[..lastLit]) == before + [TokenOf(d, l)];
    }

    /** _tr_tally_lit. */
    method TallyLit(c: byte) returns (full: bool)
      requires Valid() && lastLit + 1 < lBuf.Length
      modifies this`lastLit, this`lFreq, dBuf, lBuf
      ensures Valid() && All() == old(All()) + [Literal(c)] && lastLit == old(lastLit) + 1
      ensures full <==> lastLit == lBuf.Length - 1
    {
      hide Counts, Pending;
      CountsLiteral(lFreq, dFreq, Pending(), c);
      CountsSize(lFreq, dFreq, Pending());
      full := Record(0, c);
      lFreq := lFreq[c := lFreq[c] + 1];
    }

    /** _tr_tally_dist: both numbers are cut to the width of their buffers. */
    method TallyDist(distance: nat, length: nat) returns (full: bool)
      requires Valid() && lastLit + 1 < lBuf.Length && 1 <= distance <= 32768 && length < 256
      modifies this`lastLit, this`lFreq, this`dFreq, dBuf, lBuf
      ensures Valid() && All() == old(All()) + [Match(length + 3, distance)] && lastLit == old(lastLit) + 1
      ensures full <==> lastLit == lBuf.Length - 1
    {
      hide Counts, Pending, LitCode, DistCode, CodeFor;
      var t := Match(length + 3, distance);
      Narrow(distance, length);
      CountsMatch(lFreq, dFreq, Pending(), t);
      CountsSize(lFreq, dFreq, Pending());
      full := Record(distance % 0x1_0000, length % 256);
      lFreq := lFreq[LitCode(t) := lFreq[LitCode(t)] + 1];
      dFreq := dFreq[DistCode(t) := dFreq[DistCode(t)] + 1];
    }

    /** _tr_flush_block as far as the buffers go: the block is written and a new one begun. */
    method Flush()
      requires Valid()
      modifies this`lastLit, this`lFreq, this`dFreq, this`flushed
      ensures Valid() && lastLit == 0 && flushed == old(All()) && All() == old(All())
    {
      flushed := All();
      lastLit := 0;
      lFreq, dFreq := NoLiterals(), NoDistances();
      assert flushed + TokensOf(dBuf[..0], lBuf[..0]) == flushed;
    }
  }

  lemma Narrow(distance: nat, length: nat)
    requires 1 <= distance <= 32768 && length < 256
    ensures TokenOf(distance % 0x1_0000, length % 256) == Match(length + 3, distance)
  {
  }

  lemma CountsSize(lFreq: seq<nat>, dFreq: seq<nat>, ts: seq<Token>)
    requires Counts(lFreq, dFreq, ts)
    ensures |lFreq| == L_CODES && |dFreq| == D_CODES
  {
  }

  // ---------------------------------------------------------------- what tokens cover

  /** Matches are of 3 to 258 bytes, no further back than far. */
  predicate Within(ts: seq<Token>, far: int)
  {
    forall k :: 0 <= k < |ts| && ts[k].Match? ==> 3 <= ts[k].len <= 258 && 1 <= ts[k].dist <= far
  }

  /** The tokens expand to the first n bytes of the data, and none reaches further back than far. */
  ghost predicate Covers(ts: seq<Token>, data: seq<byte>, n: int, far: int)
  {
    0 <= n <= |data| && Expand([], ts) == Some(data[..n]) && Within(ts, far)
  }

  lemma CoversNone(data: seq<byte>, far: int)
    ensures Covers([], data, 0, far)
  {
  }

  lemma CoversLiteral(ts: seq<Token>, data: seq<byte>, n: nat, far: int)
    requires Covers(ts, data, n, far) && n < |data|
    ensures Covers(ts + [Literal(data[n])], data, n + 1, far)
  {
    ExpandSnoc([], ts, Literal(data[n]));
    assert data[..n + 1] == data[..n] + [data[n]];
  }

  lemma CoversMatch(ts: seq<Token>, data: seq<byte>, n: nat, d: nat, len: nat, far: int)
    requires Covers(ts, data, n, far) && MatchAt(data, n, d, len) && 3 <= len <= 258 && d <= far
    ensures Covers(ts + [Match(len, d)], data, n + len, far)
  {
    ExpandSnoc([], ts, Match(len, d));
    var r := data[..n + len];
    assert r[..n] == data[..n];
    forall i | n <= i < |r| ensures r[i] == r[i - d] { assert data[i] == data[i - d]; }
    CopyUnique(data[..n], d, len, r);
  }

  lemma CoversMore(ts: seq<Token>, data: seq<byte>, data': seq<byte>, n: nat, far: int)
    requires Covers(ts, data, n, far) && data <= data'
    ensures Covers(ts, data', n, far)
  {
    hide Within;
    assert data'[..n] == data[..n];
  }

  lemma MatchMore(data: seq<byte>, data': seq<byte>, n: nat, d: nat, len: nat)
    requires MatchAt(data, n, d, len) && data <= data'
    ensures MatchAt(data', n, d, len)
  {
    forall k | n <= k < n + len ensures data'[k] == data'[k - d] {
      assert data'[k] == data[k] && data'[k - d] == data[k - d];
    }
  }
}
