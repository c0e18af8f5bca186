/** An encoder for deflate streams, from the text of section 3.2 of RFC 1951: fixed and dynamic codes, length and
    distance codes with their extra bits, the header of a dynamic block, stored blocks. It is written from the text's
    formulas and none of the decoder's tables, and what it encodes inflates to what was encoded. */
module DeflateEncoder {
  import opened Common
  import opened Bits
  import opened Huffman
  import opened DecodeTable
  import opened Lz77
  import opened BlockData
  import opened DeflateFormat
  import opened InflateTable
  import opened BitStrings

  // ---------------------------------------------------------------- codes

  /** A Huffman code of so many bits; none if there are no bits. */
  datatype Sym = Sym(code: nat, len: nat)

  /** The table of section 3.2.6. */
  function FixedCode(s: nat): Sym
    requires s < 288
  {
    if s < 144 then Sym(48 + s, 8)
    else if s < 256 then Sym(400 + (s - 144), 9)
    else if s < 280 then Sym(s - 256, 7)
    else Sym(192 + (s - 280), 8)
  }

  function FixedLiterals(): (codes: seq<Sym>)
    ensures |codes| == 288
  {
    seq(288, s requires 0 <= s < 288 => FixedCode(s))
  }

  /** Distance codes are numbers of five bits. */
  function FixedDists(): (codes: seq<Sym>)
    ensures |codes| == 32
  {
    seq(32, d requires 0 <= d < 32 => Sym(d, 5))
  }

  /** The codes that lengths stand for. */
  function Canonical(lens: seq<nat>): (codes: seq<Sym>)
    ensures |codes| == |lens| && forall s :: 0 <= s < |lens| ==> codes[s] == Sym(CodeOf(lens, s), lens[s])
  {
    seq(|lens|, s requires 0 <= s < |lens| => Sym(CodeOf(lens, s), lens[s]))
  }

  lemma {:induction false} CountRun(lens: seq<nat>, a: nat, b: nat, l: nat, x: nat)
    requires a <= b <= |lens| && forall s :: a <= s < b ==> lens[s] == x
    ensures CountBelow(lens, b, l) == CountBelow(lens, a, l) + (if x == l then b - a else 0)
    decreases b - a
  {
    if a < b { CountRun(lens, a, b - 1, l, x); }
  }

  /** How many of the first n fixed lengths are l. */
  lemma FixedCounts(n: nat, l: nat)
    requires n <= 288
    ensures CountBelow(FixedLengths(), n, l) ==
            if l == 8 then (if n < 144 then n else if n < 280 then 144 else n - 136)
            else if l == 9 then (if n < 144 then 0 else if n < 256 then n - 144 else 112)
            else if l == 7 then (if n < 256 then 0 else if n < 280 then n - 256 else 24)
            else 0
  {
    var ll := FixedLengths();
    assert CountBelow(ll, 0, l) == 0;
    hide CountBelow;
    if n <= 144 {
      CountRun(ll, 0, n, l, 8);
    } else if n <= 256 {
      CountRun(ll, 0, 144, l, 8);
      CountRun(ll, 144, n, l, 9);
    } else if n <= 280 {
      CountRun(ll, 0, 144, l, 8);
      CountRun(ll, 144, 256, l, 9);
      CountRun(ll, 256, n, l, 7);
    } else {
      CountRun(ll, 0, 144, l, 8);
      CountRun(ll, 144, 256, l, 9);
      CountRun(ll, 256, 280, l, 7);
      CountRun(ll, 280, n, l, 8);
    }
  }

  lemma NextIs(lens: seq<nat>, l: nat)
    requires l > 1
    ensures NextCode(lens, l) == 2 * (NextCode(lens, l - 1) + CountBelow(lens, |lens|, l - 1))
  {
  }

  /** No fixed length is below seven. */
  lemma {:induction false} ShortNext(l: nat)
    requires l <= 7
    ensures NextCode(FixedLengths(), l) == 0
  {
    hide CountBelow, FixedLengths;
    if l > 1 {
      ShortNext(l - 1);
      NextIs(FixedLengths(), l);
      FixedCounts(288, l - 1);
    }
  }

  lemma FixedNext()
    ensures NextCode(FixedLengths(), 7) == 0 && NextCode(FixedLengths(), 8) == 48
    ensures NextCode(FixedLengths(), 9) == 400
  {
    hide *;
    ShortNext(7);
    NextIs(FixedLengths(), 8);
    NextIs(FixedLengths(), 9);
    FixedCounts(288, 7);
    FixedCounts(288, 8);
  }

  /** The fixed lengths stand for the codes of the table. */
  lemma FixedLiteralCodes()
    ensures Canonical(FixedLengths()) == FixedLiterals()
  {
    FixedNext();
    forall s | 0 <= s < 288 ensures Canonical(FixedLengths())[s] == FixedCode(s) {
      FixedCounts(s, FixedLengths()[s]);
    }
  }

  lemma FixedDistanceCodes()
    ensures Canonical(FixedDistances()) == FixedDists()
  {
    var dl := FixedDistances();
    assert NextCode(dl, 5) == 0 by { DistanceNext(5); }
    forall d | 0 <= d < 32 ensures CodeOf(dl, d) == d {
      assert CountBelow(dl, 0, 5) == 0;
      CountRun(dl, 0, d, 5, 5);
    }
  }

  lemma {:induction false} DistanceNext(l: nat)
    requires l <= 5
    ensures NextCode(FixedDistances(), l) == 0
  {
    if l > 1 {
      DistanceNext(l - 1);
      assert CountBelow(FixedDistances(), 0, l - 1) == 0;
      CountRun(FixedDistances(), 0, 32, l - 1, 5);
    }
  }

  // ---------------------------------------------------------------- tokens

  /** A symbol, and extra bits after it. */
  datatype Parts = Parts(symbol: nat, extra: nat, bits: nat)

  /** Eight lengths have a symbol each; from there on every four symbols share a number of extra bits, which grows by
      one; the longest match has a symbol of its own. */
  function LengthParts(len: nat): Parts
    requires 3 <= len <= 258
  {
    var l := len - 3;
    if len == 258 then Parts(285, 0, 0)
    else if l < 8 then Parts(257 + l, 0, 0)
    else if l < 16 then Parts(261 + l / 2, l % 2, 1)
    else if l < 32 then Parts(265 + l / 4, l % 4, 2)
    else if l < 64 then Parts(269 + l / 8, l % 8, 3)
    else if l < 128 then Parts(273 + l / 16, l % 16, 4)
    else Parts(277 + l / 32, l % 32, 5)
  }

  /** The number of extra bits of a distance: one less than those of the distance less one, but for the highest. */
  function DistBits(x: nat): nat
    requires x < 32768
  {
    if x < 4 then 0 else 1 + DistBits(x / 2)
  }

  /** Four distances have a symbol each; from there on every two symbols share a number of extra bits. */
  function DistParts(dist: nat): Parts
    requires 1 <= dist <= 32768
  {
    var x := dist - 1;
    var e := DistBits(x);
    Parts(2 * e + High(x, e), Low(x, e), e)
  }

  /** Both codes have what the token needs. */
  predicate Encodable(lit: seq<Sym>, dist: seq<Sym>, t: Token)
  {
    match t
    case Literal(b) => b < |lit| && lit[b].len > 0
    case Match(len, d) =>
      && 3 <= len <= 258 && 1 <= d <= 32768
      && LengthParts(len).symbol < |lit| && lit[LengthParts(len).symbol].len > 0
      && DistParts(d).symbol < |dist| && dist[DistParts(d).symbol].len > 0
  }

  function SymBits(s: Sym): (bs: seq<bit>)
    ensures |bs| == s.len
  {
    CodeBits(s.code, s.len)
  }

  function LengthBits(lit: seq<Sym>, len: nat): (bs: seq<bit>)
    requires 3 <= len <= 258 && LengthParts(len).symbol < |lit|
  {
    var p := LengthParts(len);
    SymBits(lit[p.symbol]) + Plain(p.extra, p.bits)
  }

  function DistanceBits(dist: seq<Sym>, d: nat): (bs: seq<bit>)
    requires 1 <= d <= 32768 && DistParts(d).symbol < |dist|
  {
    var p := DistParts(d);
    SymBits(dist[p.symbol]) + Plain(p.extra, p.bits)
  }

  function TokenBits(lit: seq<Sym>, dist: seq<Sym>, t: Token): seq<bit>
    requires Encodable(lit, dist, t)
  {
    match t
    case Literal(b) => SymBits(lit[b])
    case Match(len, d) => LengthBits(lit, len) + DistanceBits(dist, d)
  }

  predicate AllEncodable(lit: seq<Sym>, dist: seq<Sym>, ts: seq<Token>)
  {
    256 < |lit| && lit[256].len > 0 && forall i :: 0 <= i < |ts| ==> Encodable(lit, dist, ts[i])
  }

  function TokensBits(lit: seq<Sym>, dist: seq<Sym>, ts: seq<Token>): seq<bit>
    requires AllEncodable(lit, dist, ts)
  {
    if |ts| == 0 then []
    else TokensBits(lit, dist, ts[..|ts| - 1]) + TokenBits(lit, dist, ts[|ts| - 1])
  }

  /** The tokens and the end of the block. */
  function DataBits(lit: seq<Sym>, dist: seq<Sym>, ts: seq<Token>): seq<bit>
    requires AllEncodable(lit, dist, ts)
  {
    TokensBits(lit, dist, ts) + SymBits(lit[256])
  }

  // ---------------------------------------------------------------- the tables agree

  lemma FewBits(x: nat, n: nat)
    requires n <= 5 && x < (if n == 0 then 1 else if n == 1 then 2 else if n == 2 then 4 else if n == 3 then 8
                            else if n == 4 then 16 else 32)
    ensures x < Pow2(n)
  {
    assert Pow2(1) == 2 && Pow2(2) == 4 && Pow2(3) == 8;
    assert Pow2(4) == 16;
    assert Pow2(5) == 32;
  }

  /** The bases of the lengths with e extra bits. */
  lemma LengthBases(e: nat, q: nat, w: nat)
    requires 1 <= e <= 5 && 4 <= q <= 7
    requires w == if e == 1 then 2 else if e == 2 then 4 else if e == 3 then 8 else if e == 4 then 16 else 32
    ensures LBASE[4 * e + q] == 3 + q * w && ExtraLen(257 + 4 * e + q) == e
  {
    if q == 4 {
      assert LBASE[4 * e + 4] == 3 + 4 * w;
    } else if q == 5 {
      assert LBASE[4 * e + 5] == 3 + 5 * w;
    } else if q == 6 {
      assert LBASE[4 * e + 6] == 3 + 6 * w;
    } else {
      assert LBASE[4 * e + 7] == 3 + 7 * w;
    }
  }

  lemma ShortLength(len: nat)
    requires 3 <= len <= 10 || len == 258
    ensures var s := if len == 258 then 285 else 254 + len;
            LengthParts(len) == Parts(s, 0, 0) && LBASE[s - 257] == len && ExtraLen(s) == 0
    ensures Pow2(0) == 1
  {
  }

  lemma LongLength(len: nat)
    requires 11 <= len <= 257
    ensures var p := LengthParts(len);
            && 257 <= p.symbol <= 285 && LBASE[p.symbol - 257] + p.extra == len
            && p.bits == ExtraLen(p.symbol) && p.extra < Pow2(p.bits)
  {
    hide LBASE, Pow2, ExtraLen;
    var l, p := len - 3, LengthParts(len);
    FewBits(p.extra, p.bits);
    if l < 16 {
      LengthBases(1, l / 2, 2);
    } else if l < 32 {
      LengthBases(2, l / 4, 4);
    } else if l < 64 {
      LengthBases(3, l / 8, 8);
    } else if l < 128 {
      LengthBases(4, l / 16, 16);
    } else {
      LengthBases(5, l / 32, 32);
    }
  }

  lemma LengthPartsAre(len: nat)
    requires 3 <= len <= 258
    ensures var p := LengthParts(len);
            && 257 <= p.symbol <= 285 && LBASE[p.symbol - 257] + p.extra == len
            && p.bits == ExtraLen(p.symbol) && p.extra < Pow2(p.bits)
  {
    hide LengthParts, LBASE, ExtraLen, Pow2;
    if 11 <= len <= 257 { LongLength(len); } else { ShortLength(len); }
  }

  /** The highest two bits tell symbols with the same extra bits apart. */
  lemma {:induction false} DistBitsAre(x: nat)
    requires 4 <= x < 32768
    ensures var e := DistBits(x); 1 <= e <= 13 && 2 <= High(x, e) <= 3 && x == Low(x, e) + Shl(High(x, e), e)
    ensures DistBits(x) <= 13
  {
    SplitWord(x, DistBits(x));
    if x < 8 {
      assert High(x, 1) == x / 2;
    } else {
      DistBitsAre(x / 2);
      DistBitsBound(x, 13);
    }
  }

  lemma {:induction false} DistBitsBound(x: nat, n: nat)
    requires x < 32768 && x < 4 * Pow2(n)
    ensures DistBits(x) <= n
    decreases n
  {
    if n > 0 && x >= 4 { DistBitsBound(x / 2, n - 1); }
  }

  lemma Shifts()
    ensures Shl(2, 1) == 4 && Shl(3, 1) == 6
    ensures Shl(2, 2) == 8 && Shl(3, 2) == 12
    ensures Shl(2, 3) == 16 && Shl(3, 3) == 24
    ensures Shl(2, 4) == 32 && Shl(3, 4) == 48
    ensures Shl(2, 5) == 64 && Shl(3, 5) == 96
    ensures Shl(2, 6) == 128 && Shl(3, 6) == 192
    ensures Shl(2, 7) == 256 && Shl(3, 7) == 384
    ensures Shl(2, 8) == 512 && Shl(3, 8) == 768
    ensures Shl(2, 9) == 1024 && Shl(3, 9) == 1536
    ensures Shl(2, 10) == 2048 && Shl(3, 10) == 3072
    ensures Shl(2, 11) == 4096 && Shl(3, 11) == 6144
    ensures Shl(2, 12) == 8192 && Shl(3, 12) == 12288
    ensures Shl(2, 13) == 16384 && Shl(3, 13) == 24576
  {
  }

  /** The bases of the distances. */
  lemma DistBases(e: nat)
    requires 1 <= e <= 13
    ensures DBASE[2 * e + 2] == Shl(2, e) + 1 && DBASE[2 * e + 3] == Shl(3, e) + 1
    ensures ExtraDist(2 * e + 2) == e == ExtraDist(2 * e + 3)
  {
    hide Shl, DBASE, ExtraDist;
    Shifts();
    if e <= 6 { NearBases(e); } else { FarBases(e); }
  }

  lemma NearBases(e: nat)
    requires 1 <= e <= 6
    ensures ExtraDist(2 * e + 2) == e == ExtraDist(2 * e + 3)
    ensures e == 1 ==> DBASE[4] == 5 && DBASE[5] == 7
    ensures e == 2 ==> DBASE[6] == 9 && DBASE[7] == 13
    ensures e == 3 ==> DBASE[8] == 17 && DBASE[9] == 25
    ensures e == 4 ==> DBASE[10] == 33 && DBASE[11] == 49
    ensures e == 5 ==> DBASE[12] == 65 && DBASE[13] == 97
    ensures e == 6 ==> DBASE[14] == 129 && DBASE[15] == 193
  {
  }

  lemma FarBases(e: nat)
    requires 7 <= e <= 13
    ensures ExtraDist(2 * e + 2) == e == ExtraDist(2 * e + 3)
    ensures e == 7 ==> DBASE[16] == 257 && DBASE[17] == 385
    ensures e == 8 ==> DBASE[18] == 513 && DBASE[19] == 769
    ensures e == 9 ==> DBASE[20] == 1025 && DBASE[21] == 1537
    ensures e == 10 ==> DBASE[22] == 2049 && DBASE[23] == 3073
    ensures e == 11 ==> DBASE[24] == 4097 && DBASE[25] == 6145
    ensures e == 12 ==> DBASE[26] == 8193 && DBASE[27] == 12289
    ensures e == 13 ==> DBASE[28] == 16385 && DBASE[29] == 24577
  {
  }

  lemma DistPartsAre(dist: nat)
    requires 1 <= dist <= 32768
    ensures var p := DistParts(dist);
            && p.symbol < 30 && DBASE[p.symbol] + p.extra == dist
            && p.bits == ExtraDist(p.symbol) && p.extra < Pow2(p.bits)
  {
    var x := dist - 1;
    if x < 4 {
      NearDist(dist);
    } else {
      FarDist(dist);
    }
  }

  lemma NearDist(dist: nat)
    requires 1 <= dist <= 4
    ensures DistParts(dist) == Parts(dist - 1, 0, 0) && DBASE[dist - 1] == dist && ExtraDist(dist - 1) == 0
    ensures Pow2(0) == 1
  {
    assert High(dist - 1, 0) == dist - 1 && Low(dist - 1, 0) == 0;
  }

  lemma FarDist(dist: nat)
    requires 5 <= dist <= 32768
    ensures var p := DistParts(dist);
            && p.symbol < 30 && DBASE[p.symbol] + p.extra == dist
            && p.bits == ExtraDist(p.symbol) && p.extra < Pow2(p.bits)
  {
    hide High, Low, Shl, Pow2, DistBits, DBASE, ExtraDist;
    DistBitsAre(dist - 1);
    DistBases(DistBits(dist - 1));
  }

  // ---------------------------------------------------------------- what the bits are read as

  lemma SymbolStarts(lens: seq<nat>, s: nat, z: nat)
    requires s < |lens| && lens[s] > 0 && Starts(z, SymBits(Canonical(lens)[s]))
    ensures Matches(lens, s, z)
  {
    hide CodeOf, CodeBits, Starts;
    StartsCode(z, CodeOf(lens, s), lens[s]);
  }

  lemma LengthStarts(ll: seq<nat>, z: nat, len: nat)
    requires 3 <= len <= 258 && LengthParts(len).symbol < |ll| && ll[LengthParts(len).symbol] > 0
    requires Starts(z, LengthBits(Canonical(ll), len))
    ensures LengthAt(ll, z, LengthParts(len).symbol, len, |LengthBits(Canonical(ll), len)|)
  {
    LengthPartsAre(len);
    hide Starts, Canonical, Plain, CodeBits, CodeOf, Matches, LengthParts, ExtraLen, Pow2, Low, High;
    var p := LengthParts(len);
    var code := SymBits(Canonical(ll)[p.symbol]);
    StartsSplit(z, code, Plain(p.extra, p.bits));
    SymbolStarts(ll, p.symbol, z);
    StartsPlain(High(z, ll[p.symbol]), p.extra, p.bits);
  }

  lemma DistanceStarts(dl: seq<nat>, z: nat, d: nat)
    requires 1 <= d <= 32768 && DistParts(d).symbol < |dl| && dl[DistParts(d).symbol] > 0
    requires Starts(z, DistanceBits(Canonical(dl), d))
    ensures DistanceAt(dl, z, DistParts(d).symbol, d, |DistanceBits(Canonical(dl), d)|)
  {
    DistPartsAre(d);
    hide Starts, Canonical, Plain, CodeBits, CodeOf, Matches, DistParts, ExtraDist, Pow2, Low, High;
    var p := DistParts(d);
    var code := SymBits(Canonical(dl)[p.symbol]);
    StartsSplit(z, code, Plain(p.extra, p.bits));
    SymbolStarts(dl, p.symbol, z);
    StartsPlain(High(z, dl[p.symbol]), p.extra, p.bits);
  }

  lemma TokenStarts(ll: seq<nat>, dl: seq<nat>, z: nat, t: Token)
    requires Encodable(Canonical(ll), Canonical(dl), t) && Starts(z, TokenBits(Canonical(ll), Canonical(dl), t))
    ensures ItemAt(ll, dl, z, Tok(t), |TokenBits(Canonical(ll), Canonical(dl), t)|)
  {
    hide Starts, LengthAt, DistanceAt, SymBits, LengthBits, DistanceBits, LengthParts, DistParts, Matches;
    match t
    case Literal(b) => SymbolStarts(ll, b, z);
    case Match(len, d) =>
      var a, c := LengthBits(Canonical(ll), len), DistanceBits(Canonical(dl), d);
      StartsSplit(z, a, c);
      LengthStarts(ll, z, len);
      DistanceStarts(dl, High(z, |a|), d);
  }

  lemma {:induction false} TokensStart(ll: seq<nat>, dl: seq<nat>, z: nat, ts: seq<Token>)
    requires AllEncodable(Canonical(ll), Canonical(dl), ts)
    requires Starts(z, TokensBits(Canonical(ll), Canonical(dl), ts))
    ensures TokensAt(ll, dl, z, ts, |TokensBits(Canonical(ll), Canonical(dl), ts)|)
    decreases |ts|
  {
    hide Starts, TokenBits, Canonical, Encodable, ItemAt, High;
    if |ts| > 0 {
      var lit, dist, last := Canonical(ll), Canonical(dl), |ts| - 1;
      var a, c := TokensBits(lit, dist, ts[..last]), TokenBits(lit, dist, ts[last]);
      StartsSplit(z, a, c);
      TokensStart(ll, dl, z, ts[..last]);
      TokenStarts(ll, dl, High(z, |a|), ts[last]);
      TokensSnoc(ll, dl, z, ts[..last], |a|, ts[last], |c|);
      assert ts[..last] + [ts[last]] == ts;
    }
  }

  /** Encoded data are read back, and expand to what the tokens stand for. */
  lemma DataStart(ll: seq<nat>, dl: seq<nat>, z: nat, ts: seq<Token>, h: seq<byte>, h': seq<byte>)
    requires AllEncodable(Canonical(ll), Canonical(dl), ts) && Expand(h, ts) == Some(h')
    requires Starts(z, DataBits(Canonical(ll), Canonical(dl), ts))
    ensures CodedAt(ll, dl, z, h, h', |DataBits(Canonical(ll), Canonical(dl), ts)|)
  {
    hide Starts, TokensBits, Encodable, TokensAt, High, Expand, SymBits, Matches;
    var lit, dist := Canonical(ll), Canonical(dl);
    var a, c := TokensBits(lit, dist, ts), SymBits(lit[256]);
    StartsSplit(z, a, c);
    TokensStart(ll, dl, z, ts);
    SymbolStarts(ll, 256, High(z, |a|));
    assert ItemAt(ll, dl, High(z, |a|), EndOfBlock, |a| + |c| - |a|);
  }

  // ---------------------------------------------------------------- dynamic headers

  /** One step in the list of code lengths: a length; the one before again, 3 to 6 times; zero 3 to 10 times; zero 11 to
      138 times. */
  datatype Op = Len(v: nat) | Again(k: nat) | Zeros(k: nat) | ManyZeros(k: nat)

  function OpSymbol(op: Op): nat
  {
    match op case Len(v) => v case Again(_) => 16 case Zeros(_) => 17 case ManyZeros(_) => 18
  }

  /** The extra bits of a step: how many more times than the fewest possible. */
  function OpExtra(op: Op): seq<bit>
  {
    match op
    case Len(_) => []
    case Again(k) => Plain(if k >= 3 then k - 3 else 0, 2)
    case Zeros(k) => Plain(if k >= 3 then k - 3 else 0, 3)
    case ManyZeros(k) => Plain(if k >= 11 then k - 11 else 0, 7)
  }

  /** The lengths after one more step. */
  function Apply1(lens: seq<nat>, op: Op): seq<nat>
  {
    match op
    case Len(v) => lens + [v]
    case Again(k) => if |lens| == 0 then lens else lens + seq(k, i => lens[|lens| - 1])
    case Zeros(k) => lens + seq(k, i => 0)
    case ManyZeros(k) => lens + seq(k, i => 0)
  }

  function Lengths(ops: seq<Op>): seq<nat>
  {
    if |ops| == 0 then [] else Apply1(Lengths(ops[..|ops| - 1]), ops[|ops| - 1])
  }

  /** The step is possible, and the code-length code has its symbol. */
  predicate Possible(cl: seq<nat>, lens: seq<nat>, op: Op)
  {
    && OpSymbol(op) < |cl| && cl[OpSymbol(op)] > 0
    && match op
       case Len(v) => v <= 15
       case Again(k) => 3 <= k <= 6 && |lens| > 0
       case Zeros(k) => 3 <= k <= 10
       case ManyZeros(k) => 11 <= k <= 138
  }

  predicate AllPossible(cl: seq<nat>, ops: seq<Op>)
  {
    forall i :: 0 <= i < |ops| ==> Possible(cl, Lengths(ops[..i]), ops[i])
  }

  function OpsBits(cl: seq<nat>, ops: seq<Op>): seq<bit>
    requires AllPossible(cl, ops)
  {
    if |ops| == 0 then []
    else
      var last := |ops| - 1;
      assert forall i :: 0 <= i < last ==> ops[..last][..i] == ops[..i];
      OpsBits(cl, ops[..last]) + (SymBits(Canonical(cl)[OpSymbol(ops[last])]) + OpExtra(ops[last]))
  }

  /** The order in which the lengths of the code-length code are sent: the three that repeat, zero, and then from eight
      upwards and from seven downwards in turn. */
  function Place(k: nat): nat
    requires k < 19
  {
    if k < 3 then 16 + k else if k == 3 then 0 else if k % 2 == 0 then 8 + (k - 4) / 2 else 7 - (k - 5) / 2
  }

  /** The first k of them, three bits each. */
  function PlacesBits(cl: seq<nat>, k: nat): (bs: seq<bit>)
    requires k <= 19 == |cl|
    ensures |bs| == 3 * k
  {
    if k == 0 then [] else PlacesBits(cl, k - 1) + Plain(cl[Place(k - 1)], 3)
  }

  /** The numbers of literal/length and distance codes and of code-length lengths sent; those lengths; and the steps
      that give all other lengths. */
  datatype Header = Header(nlen: nat, ndist: nat, ncode: nat, cl: seq<nat>, ops: seq<Op>)

  function Literals(h: Header): seq<nat>
  {
    if h.nlen <= |Lengths(h.ops)| then Lengths(h.ops)[..h.nlen] else []
  }

  function Distances(h: Header): seq<nat>
  {
    if h.nlen <= |Lengths(h.ops)| then Lengths(h.ops)[h.nlen..] else []
  }

  ghost predicate ValidHeader(h: Header)
  {
    && 257 <= h.nlen <= 286 && 1 <= h.ndist <= 30 && 4 <= h.ncode <= 19 && |h.cl| == 19
    && (forall v :: 0 <= v < 19 ==> h.cl[v] < 8)
    && (forall k :: h.ncode <= k < 19 ==> h.cl[Place(k)] == 0)
    && ValidLengths(h.cl) && !Refused(CODES, h.cl)
    && AllPossible(h.cl, h.ops) && |Lengths(h.ops)| == h.nlen + h.ndist
    && Literals(h)[256] != 0 && ValidLengths(Literals(h)) && ValidLengths(Distances(h))
    && !Refused(LENS, Literals(h)) && !Refused(DISTS, Distances(h))
  }

  function SizesBits(h: Header): (bs: seq<bit>)
    requires 257 <= h.nlen && 1 <= h.ndist && 4 <= h.ncode
    ensures |bs| == 14
  {
    Plain(h.nlen - 257, 5) + (Plain(h.ndist - 1, 5) + Plain(h.ncode - 4, 4))
  }

  function HeaderBits(h: Header): seq<bit>
    requires ValidHeader(h)
  {
    SizesBits(h) + (PlacesBits(h.cl, h.ncode) + OpsBits(h.cl, h.ops))
  }

  // ---------------------------------------------------------------- what a header is read as

  lemma PlacesAre(k: nat)
    requires k < 19
    ensures Place(k) == ORDER[k] < 19
  {
  }

  lemma {:induction false} PlacesStart(z: nat, cl: seq<nat>, n: nat, k: nat)
    requires k < n <= 19 == |cl| && (forall v :: 0 <= v < 19 ==> cl[v] < 8) && Starts(z, PlacesBits(cl, n))
    ensures Low(High(z, 3 * k), 3) == cl[Place(k)]
    decreases n
  {
    assert Pow2(3) == 8;
    hide Starts, Low, High, Place, Pow2;
    StartsSplit(z, PlacesBits(cl, n - 1), Plain(cl[Place(n - 1)], 3));
    if k < n - 1 {
      PlacesStart(z, cl, n - 1, k);
    } else {
      StartsPlain(High(z, 3 * k), cl[Place(k)], 3);
    }
  }

  lemma SizesStart(z: nat, h: Header)
    requires 257 <= h.nlen <= 286 && 1 <= h.ndist <= 30 && 4 <= h.ncode <= 19 && Starts(z, SizesBits(h))
    ensures Low(z, 5) == h.nlen - 257 && Low(High(z, 5), 5) == h.ndist - 1 && Low(High(z, 10), 4) == h.ncode - 4
  {
    assert Pow2(5) == 32 && Pow2(4) == 16;
    hide Starts, Low, High, Pow2, Plain;
    var a, b, c := Plain(h.nlen - 257, 5), Plain(h.ndist - 1, 5), Plain(h.ncode - 4, 4);
    StartsSplit(z, a, b + c);
    StartsSplit(High(z, 5), b, c);
    HighHigh(z, 5, 5);
    StartsPlain(z, h.nlen - 257, 5);
    StartsPlain(High(z, 5), h.ndist - 1, 5);
    StartsPlain(High(z, 10), h.ncode - 4, 4);
  }

  lemma PlaceRead(z: nat, cl: seq<nat>, n: nat, k: nat)
    requires k < 19 == |cl| && n <= 19 && (forall v :: 0 <= v < 19 ==> cl[v] < 8)
    requires (forall i :: n <= i < 19 ==> cl[Place(i)] == 0) && Starts(High(z, 14), PlacesBits(cl, n))
    ensures |ORDER| == 19 && ORDER[k] < 19 && cl[ORDER[k]] == if k < n then Low(High(z, 14 + 3 * k), 3) else 0
  {
    hide *;
    OrderDistinct();
    PlacesAre(k);
    if k < n {
      PlacesStart(High(z, 14), cl, n, k);
      HighHigh(z, 14, 3 * k);
    } else {
      assert cl[Place(k)] == 0;
    }
  }

  lemma CodeCodeStarts(z: nat, h: Header)
    requires ValidHeader(h) && Starts(z, SizesBits(h)) && Starts(High(z, 14), PlacesBits(h.cl, h.ncode))
    ensures CodeCodeAt(z, h.cl, 14 + 3 * h.ncode)
  {
    hide Starts, Low, High, Place, ORDER, Lengths, AllPossible, Refused, ValidLengths, PlacesBits, SizesBits;
    SizesStart(z, h);
    OrderDistinct();
    forall k | 0 <= k < 19
      ensures h.cl[ORDER[k]] == if k < h.ncode then Low(High(z, 14 + 3 * k), 3) else 0
    {
      PlaceRead(z, h.cl, h.ncode, k);
    }
  }

  /** What the extra bits of a step are read as. */
  ghost predicate ExtraRead(op: Op, z: nat, w: nat)
  {
    match op
    case Len(_) => true
    case Again(k) => 3 <= k <= 6 && Low(High(z, w), 2) == k - 3
    case Zeros(k) => 3 <= k <= 10 && Low(High(z, w), 3) == k - 3
    case ManyZeros(k) => 11 <= k <= 138 && Low(High(z, w), 7) == k - 11
  }

  lemma ExtraStarts(op: Op, z: nat, w: nat, cl: seq<nat>, lens: seq<nat>)
    requires Possible(cl, lens, op) && Starts(High(z, w), OpExtra(op))
    ensures ExtraRead(op, z, w)
  {
    assert Pow2(2) == 4 && Pow2(3) == 8;
    assert Pow2(7) == 128;
    hide Starts, Low, High, Pow2, Plain;
    match op
    case Len(_) =>
    case Again(k) => StartsPlain(High(z, w), k - 3, 2);
    case Zeros(k) => StartsPlain(High(z, w), k - 3, 3);
    case ManyZeros(k) => StartsPlain(High(z, w), k - 11, 7);
  }

  lemma StepIs(op: Op, z: nat, w: nat, cl: seq<nat>, lens: seq<nat>)
    requires Possible(cl, lens, op) && ExtraRead(op, z, w)
    ensures StepOf(z, OpSymbol(op), w, lens, Apply1(lens, op), w + |OpExtra(op)|) && |lens| < |Apply1(lens, op)|
  {
    hide Low, High, Plain;
    match op
    case Len(_) =>
    case Again(k) => assert seq(k, i => lens[|lens| - 1]) == Repeat(lens[|lens| - 1], k);
    case Zeros(k) => assert seq(k, i => 0) == Repeat(0, k);
    case ManyZeros(k) => assert seq(k, i => 0) == Repeat(0, k);
  }

  lemma OpStarts(cl: seq<nat>, z: nat, lens: seq<nat>, op: Op)
    requires Possible(cl, lens, op) && Starts(z, SymBits(Canonical(cl)[OpSymbol(op)]) + OpExtra(op))
    ensures LengthStep(cl, z, lens, Apply1(lens, op), |SymBits(Canonical(cl)[OpSymbol(op)]) + OpExtra(op)|)
    ensures |lens| < |Apply1(lens, op)|
  {
    PossibleSymbol(cl, lens, op);
    hide Starts, StepOf, Matches, Canonical, OpExtra, OpSymbol, Apply1, Possible;
    var v := OpSymbol(op);
    StartsSplit(z, SymBits(Canonical(cl)[v]), OpExtra(op));
    CanonicalLength(cl, v);
    SymbolStarts(cl, v, z);
    ExtraStarts(op, z, cl[v], cl, lens);
    StepIs(op, z, cl[v], cl, lens);
    assert LengthSymbol(cl, z, v, cl[v]);
  }

  lemma PossibleSymbol(cl: seq<nat>, lens: seq<nat>, op: Op)
    requires Possible(cl, lens, op)
    ensures OpSymbol(op) < |cl| && cl[OpSymbol(op)] > 0
  {
  }

  lemma CanonicalLength(lens: seq<nat>, s: nat)
    requires s < |lens|
    ensures Canonical(lens)[s].len == lens[s]
  {
  }

  lemma {:induction false} OpsStart(cl: seq<nat>, z: nat, ops: seq<Op>)
    requires AllPossible(cl, ops) && Starts(z, OpsBits(cl, ops))
    ensures LengthsAt(cl, z, Lengths(ops), |OpsBits(cl, ops)|)
    decreases |ops|
  {
    if |ops| > 0 {
      var last := |ops| - 1;
      assert forall i :: 0 <= i < last ==> ops[..last][..i] == ops[..i];
      assert Possible(cl, Lengths(ops[..last]), ops[last]);
      hide Starts, High, Possible, LengthStep, SymBits, OpExtra, Canonical, Apply1;
      var a := OpsBits(cl, ops[..last]);
      var c := SymBits(Canonical(cl)[OpSymbol(ops[last])]) + OpExtra(ops[last]);
      StartsSplit(z, a, c);
      OpsStart(cl, z, ops[..last]);
      OpStarts(cl, High(z, |a|), Lengths(ops[..last]), ops[last]);
      LengthsMore(cl, z, Lengths(ops[..last]), |a|, Lengths(ops), |c|);
    }
  }

  /** An encoded header is read back. */
  lemma HeaderStarts(z: nat, h: Header)
    requires ValidHeader(h) && Starts(z, HeaderBits(h))
    ensures HeaderAt(z, Literals(h), Distances(h), |HeaderBits(h)|)
  {
    hide Starts, Low, High, Place, ORDER, AllPossible, Refused, ValidLengths, LengthsAt, Lengths, CodeCodeAt, SizesBits,
      PlacesBits, OpsBits;
    var a, b, c := SizesBits(h), PlacesBits(h.cl, h.ncode), OpsBits(h.cl, h.ops);
    StartsSplit(z, a, b + c);
    StartsSplit(High(z, 14), b, c);
    HighHigh(z, 14, |b|);
    SizesStart(z, h);
    CodeCodeStarts(z, h);
    OpsStart(h.cl, High(z, 14 + |b|), h.ops);
    assert Literals(h) + Distances(h) == Lengths(h.ops);
    assert HeaderWith(z, h.cl, 14 + |b|, |c|, Literals(h), Distances(h), |HeaderBits(h)|);
  }

  // ---------------------------------------------------------------- blocks

  datatype Block = Stored(bytes: seq<byte>) | Fixed(ts: seq<Token>) | Dynamic(head: Header, ts: seq<Token>)

  ghost predicate ValidBlock(b: Block)
  {
    match b
    case Stored(bytes) => |bytes| <= 0xFFFF
    case Fixed(ts) => AllEncodable(FixedLiterals(), FixedDists(), ts)
    case Dynamic(h, ts) =>
      ValidHeader(h) && AllEncodable(Canonical(Literals(h)), Canonical(Distances(h)), ts)
  }

  function Kind(b: Block): nat
  {
    match b case Stored(_) => 0 case Fixed(_) => 1 case Dynamic(_, _) => 2
  }

  /** Zeros up to the next byte boundary. */
  function Padding(p: nat): (bs: seq<bit>)
    ensures |bs| == Align(p) - p
  {
    seq(Align(p) - p, i => 0)
  }

  /** A stored block: its length, the complement of it, and the bytes. */
  function StoredBits(bytes: seq<byte>): seq<bit>
    requires |bytes| <= 0xFFFF
  {
    Plain(|bytes|, 16) + (Plain(0xFFFF - |bytes|, 16) + ByteBits(bytes))
  }

  /** What follows the three type bits, at bit p. */
  function BodyBits(b: Block, p: nat): seq<bit>
    requires ValidBlock(b)
  {
    match b
    case Stored(bytes) => Padding(p) + StoredBits(bytes)
    case Fixed(ts) => DataBits(FixedLiterals(), FixedDists(), ts)
    case Dynamic(h, ts) => HeaderBits(h) + DataBits(Canonical(Literals(h)), Canonical(Distances(h)), ts)
  }

  /** A block that begins at bit p: whether it is the last, its type, and its body. */
  function BlockBits(b: Block, p: nat, last: bool): seq<bit>
    requires ValidBlock(b)
  {
    [if last then 1 else 0] + (Plain(Kind(b), 2) + BodyBits(b, p + 3))
  }

  /** The output after a block. */
  function BlockOutput(h: seq<byte>, b: Block): Option<seq<byte>>
  {
    match b
    case Stored(bytes) => Some(h + bytes)
    case Fixed(ts) => Expand(h, ts)
    case Dynamic(_, ts) => Expand(h, ts)
  }

  lemma Pow8()
    ensures Pow2(8) == 256
  {
    assert Pow2(4) == 16;
  }

  lemma ByteBitsHead(bytes: seq<byte>)
    requires |bytes| > 0
    ensures ByteBits(bytes) == Plain(bytes[0], 8) + ByteBits(bytes[1..])
  {
    hide Plain;
  }

  lemma BytesOfHead(z: nat, k: nat)
    ensures BytesOf(z, 0) == []
    ensures k > 0 ==> BytesOf(z, k) == [Low(z, 8)] + BytesOf(High(z, 8), k - 1)
  {
    hide Low, High;
  }

  lemma {:induction false} BytesStart(z: nat, bytes: seq<byte>)
    requires Starts(z, ByteBits(bytes))
    ensures BytesOf(z, |bytes|) == bytes
    decreases |bytes|
  {
    hide *;
    BytesOfHead(z, |bytes|);
    if |bytes| > 0 {
      ByteBitsHead(bytes);
      Pow8();
      StartsSplit(z, Plain(bytes[0], 8), ByteBits(bytes[1..]));
      StartsPlain(z, bytes[0], 8);
      BytesStart(High(z, 8), bytes[1..]);
      assert [bytes[0]] + bytes[1..] == bytes;
    }
  }

  lemma StoredStarts(z: nat, bytes: seq<byte>, h: seq<byte>)
    requires |bytes| <= 0xFFFF && Starts(z, StoredBits(bytes))
    ensures StoredAt(z, h, h + bytes, |StoredBits(bytes)|)
  {
    Pow16();
    hide Starts, Low, High, Plain, Pow2, BytesOf, ByteBits;
    var n := |bytes|;
    StartsSplit(z, Plain(n, 16), Plain(0xFFFF - n, 16) + ByteBits(bytes));
    StartsSplit(High(z, 16), Plain(0xFFFF - n, 16), ByteBits(bytes));
    HighHigh(z, 16, 16);
    StartsPlain(z, n, 16);
    StartsPlain(High(z, 16), 0xFFFF - n, 16);
    BytesStart(High(z, 32), bytes);
  }

  lemma Pow16()
    ensures Pow2(16) == 65536
  {
    assert Pow2(4) == 16;
    assert Pow2(8) == 256;
    assert Pow2(12) == 4096;
  }

  /** The body of a block is read back. */
  lemma BodyStarts(z: nat, p: nat, b: Block, h: seq<byte>, h': seq<byte>)
    requires ValidBlock(b) && BlockOutput(h, b) == Some(h') && Starts(High(z, p), BodyBits(b, p))
    ensures var p' := p + |BodyBits(b, p)|;
            match b
            case Stored(bytes) => Align(p) <= p' && StoredAt(High(z, Align(p)), h, h', p' - Align(p))
            case Fixed(ts) => CodedAt(FixedLengths(), FixedDistances(), High(z, p), h, h', p' - p)
            case Dynamic(head, ts) =>
              var q := |HeaderBits(head)|;
              && p + q <= p' && HeaderAt(High(z, p), Literals(head), Distances(head), q)
              && CodedAt(Literals(head), Distances(head), High(z, p + q), h, h', p' - (p + q))
  {
    hide Starts, High, StoredAt, CodedAt, HeaderAt, DataBits, HeaderBits, StoredBits, AllEncodable, ValidHeader, Expand,
      FixedLengths, FixedDistances, FixedLiterals, FixedDists, Literals, Distances, Canonical, Align;
    match b
    case Stored(bytes) =>
      StartsSplit(High(z, p), Padding(p), StoredBits(bytes));
      HighHigh(z, p, |Padding(p)|);
      StoredStarts(High(z, Align(p)), bytes, h);
    case Fixed(ts) =>
      FixedLiteralCodes();
      FixedDistanceCodes();
      DataStart(FixedLengths(), FixedDistances(), High(z, p), ts, h, h');
    case Dynamic(head, ts) =>
      var lit, dist := Canonical(Literals(head)), Canonical(Distances(head));
      StartsSplit(High(z, p), HeaderBits(head), DataBits(lit, dist, ts));
      HeaderStarts(High(z, p), head);
      HighHigh(z, p, |HeaderBits(head)|);
      DataStart(Literals(head), Distances(head), High(z, p + |HeaderBits(head)|), ts, h, h');
  }

  /** The three bits that a block begins with. */
  lemma TypeStarts(z: nat, p: nat, b: Block, last: bool)
    requires ValidBlock(b) && Starts(High(z, p), BlockBits(b, p, last))
    ensures last <==> Low(High(z, p), 1) == 1
    ensures Low(High(z, p + 1), 2) == Kind(b) && Starts(High(z, p + 3), BodyBits(b, p + 3))
  {
    hide *;
    var first: bit := if last then 1 else 0;
    BlockBitsAre(b, p, last);
    ThreeBits(z, p, first, Kind(b), BodyBits(b, p + 3));
  }

  lemma BlockBitsAre(b: Block, p: nat, last: bool)
    requires ValidBlock(b)
    ensures BlockBits(b, p, last) == [if last then 1 else 0] + (Plain(Kind(b), 2) + BodyBits(b, p + 3)) && Kind(b) < 4
  {
    hide BodyBits;
  }

  lemma ThreeBits(z: nat, p: nat, first: bit, kind: nat, rest: seq<bit>)
    requires kind < 4 && Starts(High(z, p), [first] + (Plain(kind, 2) + rest))
    ensures Low(High(z, p), 1) == first && Low(High(z, p + 1), 2) == kind && Starts(High(z, p + 3), rest)
  {
    assert Pow2(2) == 4;
    hide Starts, High, Low, Plain, Pow2;
    OneBitLow(High(z, p), first, Plain(kind, 2) + rest);
    StartsSplit(High(z, p), [first], Plain(kind, 2) + rest);
    HighHigh(z, p, 1);
    StartsSplit(High(z, p + 1), Plain(kind, 2), rest);
    HighHigh(z, p + 1, 2);
    StartsPlain(High(z, p + 1), kind, 2);
  }

  lemma OneBitLow(y: nat, b: bit, rest: seq<bit>)
    requires Starts(y, [b] + rest)
    ensures Low(y, 1) == b
  {
    assert Low(y / 2, 0) == 0;
  }

  /** A block is read back. */
  lemma BlockStarts(z: nat, p: nat, b: Block, last: bool, h: seq<byte>, h': seq<byte>)
    requires ValidBlock(b) && BlockOutput(h, b) == Some(h') && Starts(High(z, p), BlockBits(b, p, last))
    ensures BlockAt(z, p, h, h', p + |BlockBits(b, p, last)|, last)
  {
    hide Starts, High, Low, BodyBits, StoredAt, CodedAt, HeaderAt, HeaderBits, FixedLengths, FixedDistances, Literals,
      Distances, Align, BlockOutput, AllEncodable, ValidHeader;
    TypeStarts(z, p, b, last);
    BodyStarts(z, p + 3, b, h, h');
    var p' := p + |BlockBits(b, p, last)|;
    assert p' == p + 3 + |BodyBits(b, p + 3)|;
    if b.Dynamic? {
      DynamicIf(z, p, Literals(b.head), Distances(b.head), |HeaderBits(b.head)|, h, h', p');
    }
  }

  lemma DynamicIf(z: nat, p: nat, ll: seq<nat>, dl: seq<nat>, q: nat, h: seq<byte>, h': seq<byte>, p': nat)
    requires p + 3 + q <= p' && HeaderAt(High(z, p + 3), ll, dl, q)
    requires CodedAt(ll, dl, High(z, p + 3 + q), h, h', p' - (p + 3 + q))
    ensures exists ll: seq<nat>, dl: seq<nat>, q: nat :: DynamicAt(z, p, ll, dl, q, h, h', p')
  {
    hide HeaderAt, CodedAt, High;
    assert DynamicAt(z, p, ll, dl, q, h, h', p');
  }

  // ---------------------------------------------------------------- streams

  ghost predicate ValidBlocks(blocks: seq<Block>)
  {
    forall i :: 0 <= i < |blocks| ==> ValidBlock(blocks[i])
  }

  /** The first k blocks of a stream, of which the one at the end of the list is marked as the last. */
  function StreamBits(blocks: seq<Block>, k: nat): seq<bit>
    requires k <= |blocks| && ValidBlocks(blocks)
  {
    if k == 0 then []
    else
      var before := StreamBits(blocks, k - 1);
      before + BlockBits(blocks[k - 1], |before|, k == |blocks|)
  }

  function Output(blocks: seq<Block>, k: nat): Option<seq<byte>>
    requires k <= |blocks|
  {
    if k == 0 then Some([])
    else
      match Output(blocks, k - 1)
      case None => None
      case Some(h) => BlockOutput(h, blocks[k - 1])
  }

  lemma StreamMore(blocks: seq<Block>, k: nat)
    requires 0 < k <= |blocks| && ValidBlocks(blocks) && Output(blocks, k).Some?
    ensures var before, b := StreamBits(blocks, k - 1), blocks[k - 1];
            && ValidBlock(b) && StreamBits(blocks, k) == before + BlockBits(b, |before|, k == |blocks|)
            && Output(blocks, k - 1).Some? && BlockOutput(Output(blocks, k - 1).value, b) == Output(blocks, k)
  {
    hide BlockBits, BlockOutput, ValidBlock;
  }

  lemma BlocksMore(z: nat, k: nat, h: seq<byte>, p: nat, h': seq<byte>, p': nat, last: bool)
    requires BlocksAt(z, k, h, p, false) && BlockAt(z, p, h, h', p', last)
    ensures BlocksAt(z, k + 1, h', p', last)
  {
    hide BlockAt;
  }

  lemma NoBlocks(z: nat, blocks: seq<Block>)
    requires ValidBlocks(blocks)
    ensures StreamBits(blocks, 0) == [] && Output(blocks, 0) == Some([]) && BlocksAt(z, 0, [], 0, false)
  {
  }

  lemma {:induction false} BlocksStart(z: nat, blocks: seq<Block>, k: nat)
    requires k <= |blocks| && ValidBlocks(blocks) && Output(blocks, k).Some? && Starts(z, StreamBits(blocks, k))
    ensures BlocksAt(z, k, Output(blocks, k).value, |StreamBits(blocks, k)|, k > 0 && k == |blocks|)
    decreases k
  {
    hide *;
    if k == 0 {
      NoBlocks(z, blocks);
    } else {
      StreamMore(blocks, k);
      var before, b := StreamBits(blocks, k - 1), blocks[k - 1];
      StartsSplit(z, before, BlockBits(b, |before|, k == |blocks|));
      BlocksStart(z, blocks, k - 1);
      BlockStarts(z, |before|, b, k == |blocks|, Output(blocks, k - 1).value, Output(blocks, k).value);
      BlocksMore(z, k - 1, Output(blocks, k - 1).value, |before|, Output(blocks, k).value, |StreamBits(blocks, k)|,
                 k == |blocks|);
    }
  }

  /** What is encoded inflates to what it stands for, whatever follows it. */
  lemma EncodedInflates(z: nat, blocks: seq<Block>)
    requires |blocks| > 0 && ValidBlocks(blocks) && Output(blocks, |blocks|).Some?
    requires Starts(z, StreamBits(blocks, |blocks|))
    ensures Inflates(z, Output(blocks, |blocks|).value, |StreamBits(blocks, |blocks|)|)
  {
    hide BlocksAt, Starts, StreamBits, Output, ValidBlocks;
    BlocksStart(z, blocks, |blocks|);
  }

  // ---------------------------------------------------------------- bytes as literals

  /** Bytes as one literal each. */
  function AsLiterals(bytes: seq<byte>): (ts: seq<Token>)
    ensures |ts| == |bytes|
  {
    seq(|bytes|, i requires 0 <= i < |bytes| => Literal(bytes[i]))
  }

  lemma {:induction false} LiteralsExpand(h: seq<byte>, bytes: seq<byte>)
    ensures Expand(h, AsLiterals(bytes)) == Some(h + bytes)
    decreases |bytes|
  {
    var n := |bytes|;
    if n == 0 {
      assert h + bytes == h;
    } else {
      LiteralsExpand(h, bytes[..n - 1]);
      assert AsLiterals(bytes)[..n - 1] == AsLiterals(bytes[..n - 1]);
      assert h + bytes[..n - 1] + [bytes[n - 1]] == h + bytes;
    }
  }

  /** One block of literals with the fixed codes: the type bits 1 1 0; for each byte the code 48 + b in 8 bits or
      256 + b in 9; and seven zeros. */
  function LiteralStream(bytes: seq<byte>): seq<bit>
  {
    [1, 1, 0] + (LiteralBits(bytes) + [0, 0, 0, 0, 0, 0, 0])
  }

  function LiteralBits(bytes: seq<byte>): seq<bit>
  {
    if |bytes| == 0 then []
    else
      var b: nat := bytes[|bytes| - 1];
      LiteralBits(bytes[..|bytes| - 1]) + (if b < 144 then CodeBits(48 + b, 8) else CodeBits(256 + b, 9))
  }

  lemma {:induction false} LiteralTokens(bytes: seq<byte>)
    ensures AllEncodable(FixedLiterals(), FixedDists(), AsLiterals(bytes))
    ensures TokensBits(FixedLiterals(), FixedDists(), AsLiterals(bytes)) == LiteralBits(bytes)
    decreases |bytes|
  {
    hide CodeBits, FixedDists;
    var n := |bytes|;
    if n > 0 {
      LiteralTokens(bytes[..n - 1]);
      assert AsLiterals(bytes)[..n - 1] == AsLiterals(bytes[..n - 1]);
    }
  }

  lemma OneBlock(b: Block)
    requires ValidBlock(b)
    ensures ValidBlocks([b]) && Output([b], 1) == BlockOutput([], b)
    ensures StreamBits([b], 1) == [1] + (Plain(Kind(b), 2) + BodyBits(b, 3))
  {
    hide BodyBits, BlockOutput, Plain, ValidBlock, Kind;
    var none := StreamBits([b], 0);
    assert none == [] && Output([b], 0) == Some([]);
    assert StreamBits([b], 1) == none + BlockBits(b, |none|, true);
  }

  lemma JoinBits(rest: seq<bit>)
    ensures [1] + ([1, 0] + rest) == [1, 1, 0] + rest
  {
  }

  lemma LiteralBody(ts: seq<Token>, p: nat)
    requires AllEncodable(FixedLiterals(), FixedDists(), ts)
    ensures ValidBlock(Fixed(ts)) && BlockOutput([], Fixed(ts)) == Expand([], ts) && Kind(Fixed(ts)) == 1
    ensures BodyBits(Fixed(ts), p) ==
            TokensBits(FixedLiterals(), FixedDists(), ts) + SymBits(FixedLiterals()[256])
  {
    hide TokensBits, AllEncodable, Expand, SymBits, FixedLiterals, FixedDists;
  }

  /** Such a stream is that of one block. */
  lemma LiteralBlock(bytes: seq<byte>)
    ensures var blocks := [Fixed(AsLiterals(bytes))];
            && ValidBlocks(blocks) && Output(blocks, 1) == Some(bytes) && StreamBits(blocks, 1) == LiteralStream(bytes)
  {
    hide *;
    LiteralTokens(bytes);
    LiteralsExpand([], bytes);
    assert [] + bytes == bytes;
    EndBits();
    LiteralBody(AsLiterals(bytes), 3);
    OneBlock(Fixed(AsLiterals(bytes)));
    JoinBits(LiteralBits(bytes) + [0, 0, 0, 0, 0, 0, 0]);
    LiteralStreamIs(bytes);
  }

  lemma LiteralStreamIs(bytes: seq<byte>)
    ensures LiteralStream(bytes) == [1, 1, 0] + (LiteralBits(bytes) + [0, 0, 0, 0, 0, 0, 0])
  {
  }

  lemma EndBits()
    ensures SymBits(FixedLiterals()[256]) == [0, 0, 0, 0, 0, 0, 0] && Plain(1, 2) == [1, 0]
  {
    assert CodeBits(0, 3) == [0, 0, 0];
    assert CodeBits(0, 5) == [0, 0, 0, 0, 0];
    assert CodeBits(0, 7) == [0, 0, 0, 0, 0, 0, 0];
    assert Plain(1, 2) == [1] + Plain(0, 1) && Plain(0, 1) == [0] + Plain(0, 0);
  }

  /** Every sequence of bytes is inflated from its stream of literals. */
  lemma LiteralsInflate(z: nat, bytes: seq<byte>)
    requires Starts(z, LiteralStream(bytes))
    ensures Inflates(z, bytes, |LiteralStream(bytes)|)
  {
    hide *;
    LiteralBlock(bytes);
    EncodedInflates(z, [Fixed(AsLiterals(bytes))]);
  }
}
