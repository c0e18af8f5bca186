/** inflateBack hands out what an encoder of the text of RFC 1951 put in. */
module InflateEncoded {
  import opened Common
  import opened Bits
  import opened Lz77
  import opened BlockData
  import opened BitReader
  import opened BitStrings
  import opened DeflateFormat
  import opened DeflateUnique
  import opened DeflateRefusal
  import opened DeflateStray
  import opened DeflateEncoder
  import opened InflateBack

  /** The tables for the codes of a dynamic block are within the sizes that the decoder sets aside for them. */
  ghost predicate TablesFit(b: Block)
  {
    b.Dynamic? ==> !DoesNotFit(Literals(b.head), Distances(b.head))
  }

  function TokensOf(b: Block): seq<Token>
  {
    if b.Stored? then [] else b.ts
  }

  predicate Near(ts: seq<Token>, wsize: nat)
  {
    forall i :: 0 <= i < |ts| && ts[i].Match? ==> ts[i].dist <= wsize
  }

  /** No match is longer than the window; with 32K none can be. */
  predicate Reachable(b: Block, wsize: nat)
  {
    32768 <= wsize || Near(TokensOf(b), wsize)
  }

  /** A list of blocks that can be encoded, with distances that stay within the output and the window, and with tables
      that fit. */
  ghost predicate Encodes(blocks: seq<Block>, wsize: nat)
  {
    && |blocks| > 0 && ValidBlocks(blocks) && Output(blocks, |blocks|).Some?
    && forall i :: 0 <= i < |blocks| ==> TablesFit(blocks[i]) && Reachable(blocks[i], wsize)
  }

  lemma {:induction false} StreamPrefix(blocks: seq<Block>, k: nat, n: nat)
    requires k <= n <= |blocks| && ValidBlocks(blocks) && Output(blocks, n).Some?
    ensures StreamBits(blocks, k) <= StreamBits(blocks, n) && Output(blocks, k).Some?
    decreases n - k
  {
    hide *;
    if k < n {
      StreamMore(blocks, n);
      StreamPrefix(blocks, k, n - 1);
    }
  }

  lemma {:induction false} BlockHere(z: nat, blocks: seq<Block>, k: nat)
    requires k < |blocks| && ValidBlocks(blocks) && Output(blocks, |blocks|).Some?
    requires Starts(z, StreamBits(blocks, |blocks|))
    ensures Starts(z, StreamBits(blocks, k)) && Output(blocks, k).Some? && Output(blocks, k + 1).Some?
    ensures ValidBlock(blocks[k])
    ensures var p := |StreamBits(blocks, k)|; Starts(High(z, p), BlockBits(blocks[k], p, k + 1 == |blocks|))
  {
    hide *;
    StreamPrefix(blocks, k, |blocks|);
    StreamPrefix(blocks, k + 1, |blocks|);
    StreamMore(blocks, k + 1);
    PrefixStarts(z, StreamBits(blocks, |blocks|), StreamBits(blocks, k));
    PrefixStarts(z, StreamBits(blocks, |blocks|), StreamBits(blocks, k + 1));
    StartsSplit(z, StreamBits(blocks, k), BlockBits(blocks[k], |StreamBits(blocks, k)|, k + 1 == |blocks|));
  }

  /** A block that was encoded has no table that does not fit. */
  lemma BlockFits(z: nat, p: nat, b: Block, last: bool, h: seq<byte>, h': seq<byte>)
    requires ValidBlock(b) && TablesFit(b) && BlockOutput(h, b) == Some(h') && Starts(High(z, p), BlockBits(b, p, last))
    ensures !BigBlock(z, p)
  {
    TypeStarts(z, p, b, last);
    hide Starts, High, Low, BlockBits, BodyBits, HeaderAt, DoesNotFit, HeaderBits, Literals, Distances, CodedAt,
      BlockOutput, ValidHeader, AllEncodable;
    if BigBlock(z, p) {
      BodyStarts(z, p + 3, b, h, h');
      var ll: seq<nat>, dl: seq<nat>, n: nat :| HeaderAt(High(z, p + 3), ll, dl, n) && DoesNotFit(ll, dl);
      HeaderUnique(High(z, p + 3), ll, dl, n, Literals(b.head), Distances(b.head), |HeaderBits(b.head)|);
    }
  }

  /** A match that follows tokens in encoded data is one of those encoded. */
  lemma MatchEncoded(ll: seq<nat>, dl: seq<nat>, z: nat, ts: seq<Token>, ts': seq<Token>, m: nat, t: Token, k: nat)
    requires BlockCodes(ll, dl) && AllEncodable(Canonical(ll), Canonical(dl), ts)
    requires Starts(z, DataBits(Canonical(ll), Canonical(dl), ts))
    requires TokensAt(ll, dl, z, ts', m) && ItemAt(ll, dl, High(z, m), Tok(t), k)
    ensures t in ts
  {
    DataParts(ll, dl, z, ts);
    hide *;
    var n := |TokensBits(Canonical(ll), Canonical(dl), ts)|;
    TokensSnoc(ll, dl, z, ts', m, t, k);
    NotShorter(ll, dl, z, ts, n, |SymBits(Canonical(ll)[256])|, ts' + [t], m + k);
    var m', k' := TokensPrefix(ll, dl, z, ts, n, |ts'|);
    TokensUnique(ll, dl, z, ts', m, ts[..|ts'|], m');
    ItemUnique(ll, dl, High(z, m), Tok(t), k, Tok(ts[|ts'|]), k');
  }

  lemma DataParts(ll: seq<nat>, dl: seq<nat>, z: nat, ts: seq<Token>)
    requires AllEncodable(Canonical(ll), Canonical(dl), ts)
    requires Starts(z, DataBits(Canonical(ll), Canonical(dl), ts))
    ensures 256 < |Canonical(ll)|
    ensures var n := |TokensBits(Canonical(ll), Canonical(dl), ts)|;
            && TokensAt(ll, dl, z, ts, n)
            && ItemAt(ll, dl, High(z, n), EndOfBlock, |SymBits(Canonical(ll)[256])|)
  {
    hide Starts, TokensBits, Encodable, TokensAt, High, SymBits;
    var a, c := TokensBits(Canonical(ll), Canonical(dl), ts), SymBits(Canonical(ll)[256]);
    StartsSplit(z, a, c);
    TokensStart(ll, dl, z, ts);
    SymbolStarts(ll, 256, High(z, |a|));
  }

  lemma DataNear(ll: seq<nat>, dl: seq<nat>, z: nat, ts: seq<Token>, wsize: nat, h: seq<byte>)
    requires BlockCodes(ll, dl) && AllEncodable(Canonical(ll), Canonical(dl), ts) && Near(ts, wsize)
    requires Starts(z, DataBits(Canonical(ll), Canonical(dl), ts))
    ensures !StrayMatch(BeyondWindow(wsize), ll, dl, z, h)
  {
    hide BlockCodes, AllEncodable, Starts, DataBits, Canonical, TokensAt, ItemAt, High, Expand;
    if StrayMatch(BeyondWindow(wsize), ll, dl, z, h) {
      var ts': seq<Token>, m: nat, g: seq<byte>, len: nat, dist: nat, k: nat :|
        StrayAfter(BeyondWindow(wsize), ll, dl, z, h, ts', m, g, len, dist, k);
      MatchEncoded(ll, dl, z, ts, ts', m, Match(len, dist), k);
    }
  }

  lemma FixedNear(z: nat, ts: seq<Token>, wsize: nat, h: seq<byte>)
    requires AllEncodable(FixedLiterals(), FixedDists(), ts) && Near(ts, wsize)
    requires Starts(z, DataBits(FixedLiterals(), FixedDists(), ts))
    ensures !StrayMatch(BeyondWindow(wsize), FixedLengths(), FixedDistances(), z, h)
  {
    hide *;
    FixedLiteralCodes();
    FixedDistanceCodes();
    FixedBlockCodes();
    DataNear(FixedLengths(), FixedDistances(), z, ts, wsize, h);
  }

  lemma HeaderNear(z: nat, head: Header, ts: seq<Token>, wsize: nat, h: seq<byte>)
    requires ValidHeader(head) && AllEncodable(Canonical(Literals(head)), Canonical(Distances(head)), ts)
    requires Near(ts, wsize)
    requires Starts(z, HeaderBits(head) + DataBits(Canonical(Literals(head)), Canonical(Distances(head)), ts))
    ensures !StrayDynamic(BeyondWindow(wsize), z, h)
  {
    hide *;
    var n, ll, dl := |HeaderBits(head)|, Literals(head), Distances(head);
    StartsSplit(z, HeaderBits(head), DataBits(Canonical(ll), Canonical(dl), ts));
    HeaderStarts(z, head);
    HeaderUnique(z, ll, dl, n, ll, dl, n);
    DataNear(ll, dl, High(z, n), ts, wsize, h);
    DynamicNear(z, ll, dl, n, wsize, h);
  }

  /** A block that was encoded has no match longer than the window. */
  lemma BlockNear(z: nat, p: nat, b: Block, last: bool, wsize: nat, h: seq<byte>)
    requires ValidBlock(b) && Near(TokensOf(b), wsize) && Starts(High(z, p), BlockBits(b, p, last))
    ensures !StrayBlock(BeyondWindow(wsize), z, p, h)
  {
    TypeStarts(z, p, b, last);
    hide Starts, High, Low, BlockBits, HeaderBits, DataBits, Literals, Distances, ValidHeader, AllEncodable, StrayMatch,
      StrayDynamic, FixedLengths, FixedDistances, FixedLiterals, FixedDists, Canonical, Near;
    match b
    case Stored(_) =>
    case Fixed(ts) => FixedNear(High(z, p + 3), ts, wsize, h);
    case Dynamic(head, ts) => HeaderNear(High(z, p + 3), head, ts, wsize, h);
  }

  lemma DynamicNear(z: nat, ll: seq<nat>, dl: seq<nat>, n: nat, wsize: nat, h: seq<byte>)
    requires HeaderAt(z, ll, dl, n) && !StrayMatch(BeyondWindow(wsize), ll, dl, High(z, n), h)
    ensures !StrayDynamic(BeyondWindow(wsize), z, h)
  {
    hide HeaderAt, StrayMatch, High;
    if StrayDynamic(BeyondWindow(wsize), z, h) {
      var ll': seq<nat>, dl': seq<nat>, n': nat :|
        HeaderAt(z, ll', dl', n') && StrayMatch(BeyondWindow(wsize), ll', dl', High(z, n'), h);
      HeaderUnique(z, ll, dl, n, ll', dl', n');
    }
  }

  /** Nor is there either in any block of the stream. */
  lemma NoneHard(z: nat, blocks: seq<Block>, wsize: nat, k: nat, h: seq<byte>, p: nat)
    requires Encodes(blocks, wsize) && Starts(z, StreamBits(blocks, |blocks|)) && BlocksAt(z, k, h, p, false)
    ensures !BigBlock(z, p) && (32768 <= wsize || !StrayBlock(BeyondWindow(wsize), z, p, h))
  {
    hide *;
    EncodesParts(blocks, wsize);
    var n := |blocks|;
    BlocksStart(z, blocks, n);
    if k < n {
      EncodesFit(blocks, wsize, k);
      BlockHere(z, blocks, k);
      BlocksStart(z, blocks, k);
      BlocksUnique(z, k, h, p, false, Output(blocks, k).value, |StreamBits(blocks, k)|, false);
      StreamMore(blocks, k + 1);
      BlockFits(z, p, blocks[k], k + 1 == n, Output(blocks, k).value, Output(blocks, k + 1).value);
      if wsize < 32768 { BlockNear(z, p, blocks[k], k + 1 == n, wsize, h); }
    } else {
      var g, q := EarlierEnd(z, n, k, h, p);
      BlocksUnique(z, n, Output(blocks, n).value, |StreamBits(blocks, n)|, true, g, q, false);
    }
  }

  lemma EncodesFit(blocks: seq<Block>, wsize: nat, k: nat)
    requires Encodes(blocks, wsize) && k < |blocks|
    ensures TablesFit(blocks[k]) && (32768 <= wsize || Near(TokensOf(blocks[k]), wsize))
  {
    hide TablesFit, Near;
  }

  lemma EncodesParts(blocks: seq<Block>, wsize: nat)
    requires Encodes(blocks, wsize)
    ensures |blocks| > 0 && ValidBlocks(blocks) && Output(blocks, |blocks|).Some?
  {
  }

  lemma EncodedFits(z: nat, blocks: seq<Block>, wsize: nat)
    requires Encodes(blocks, wsize) && Starts(z, StreamBits(blocks, |blocks|))
    ensures !HardStream(z, wsize)
  {
    hide BlocksAt, BigBlock, StrayBlock, Starts, StreamBits, Encodes;
    if 32768 <= wsize { OnlyBig(z, wsize); }
    forall k: nat, h: seq<byte>, p: nat | BlocksAt(z, k, h, p, false)
      ensures !BigBlock(z, p) && (32768 <= wsize || !StrayBlock(BeyondWindow(wsize), z, p, h))
    {
      NoneHard(z, blocks, wsize, k, h, p);
    }
  }

  lemma EarlierEnd(z: nat, n: nat, k: nat, h: seq<byte>, p: nat) returns (g: seq<byte>, q: nat)
    requires n <= k && BlocksAt(z, k, h, p, false)
    ensures BlocksAt(z, n, g, q, false)
  {
    hide *;
    g, q := h, p;
    if n < k { g, q := BlocksBefore(z, n, k, h, p, false); }
  }

  /** On input that begins with an encoded stream, with a window for its matches, inflateBack ends properly, has handed
      out what was encoded, and has used no bit beyond it. */
  method InflateStream(input: seq<byte>, whole: bool, buffer: array<byte>, sane: bool, ghost blocks: seq<Block>)
    returns (ret: Outcome, ghost given: seq<byte>, ghost n: nat, ghost outFailed: bool)
    requires 1 <= buffer.Length && Encodes(blocks, buffer.Length)
    requires StreamBits(blocks, |blocks|) <= ByteBits(input)
    modifies buffer
    ensures outFailed ==> ret == BUF_ERROR
    ensures !outFailed ==>
              ret == STREAM_END && Some(given) == Output(blocks, |blocks|) && n == |StreamBits(blocks, |blocks|)|
  {
    hide *;
    EncodesParts(blocks, buffer.Length);
    ghost var z, bits := Stream(input), StreamBits(blocks, |blocks|);
    InputStarts(input, bits);
    EncodedInflates(z, blocks);
    EncodedFits(z, blocks, buffer.Length);
    DecodableIf(z, Output(blocks, |blocks|).value, |bits|, 8 * |input|, false);
    ret, given, n, outFailed := InflateBack.InflateBack(input, whole, buffer, sane);
    if !outFailed { InflatesUnique(z, given, n, Output(blocks, |blocks|).value, |bits|); }
  }

  /** In particular every sequence of bytes comes back from its stream of literals with the fixed codes. */
  method InflateLiterals(input: seq<byte>, whole: bool, buffer: array<byte>, sane: bool, ghost bytes: seq<byte>)
    returns (ret: Outcome, ghost given: seq<byte>, ghost n: nat, ghost outFailed: bool)
    requires 1 <= buffer.Length && LiteralStream(bytes) <= ByteBits(input)
    modifies buffer
    ensures !outFailed ==> ret == STREAM_END && given == bytes && n == |LiteralStream(bytes)|
  {
    hide *;
    LiteralBlock(bytes);
    LiteralEncodes(bytes, buffer.Length);
    ret, given, n, outFailed := InflateStream(input, whole, buffer, sane, [Fixed(AsLiterals(bytes))]);
  }

  lemma LiteralEncodes(bytes: seq<byte>, wsize: nat)
    requires ValidBlocks([Fixed(AsLiterals(bytes))]) && Output([Fixed(AsLiterals(bytes))], 1).Some?
    ensures Encodes([Fixed(AsLiterals(bytes))], wsize)
  {
    hide ValidBlocks, Output;
  }

  // ---------------------------------------------------------------- an example

  const ABC: seq<byte> := [0x61, 0x62, 0x63]
  const ABC_STREAM: seq<byte> := [0x4B, 0x4C, 0x4A, 0x06, 0x00]

  lemma FourCodeBits(c: nat, n: nat)
    ensures CodeBits(c, n + 4) == CodeBits(c / 2 / 2 / 2 / 2, n) + [c / 2 / 2 / 2 % 2, c / 2 / 2 % 2, c / 2 % 2, c % 2]
  {
    assert CodeBits(c, n + 4) == CodeBits(c / 2, n + 3) + [c % 2];
    assert CodeBits(c / 2, n + 3) == CodeBits(c / 2 / 2, n + 2) + [c / 2 % 2];
    assert CodeBits(c / 2 / 2, n + 2) == CodeBits(c / 2 / 2 / 2, n + 1) + [c / 2 / 2 % 2];
    assert CodeBits(c / 2 / 2 / 2, n + 1) == CodeBits(c / 2 / 2 / 2 / 2, n) + [c / 2 / 2 / 2 % 2];
  }

  lemma EightCodeBits(c: nat, b: seq<bit>)
    requires |b| == 8 && b[..4] == [1, 0, 0, 1] && c / 2 / 2 / 2 / 2 == 9
    requires b[4..] == [c / 2 / 2 / 2 % 2, c / 2 / 2 % 2, c / 2 % 2, c % 2]
    ensures CodeBits(c, 8) == b
  {
    NoCodeBits(0);
    hide CodeBits;
    FourCodeBits(c, 4);
    FourCodeBits(9, 0);
    assert [] + [1, 0, 0, 1] == b[..4];
    assert b[..4] + b[4..] == b;
  }

  lemma NoCodeBits(c: nat)
    ensures CodeBits(c, 0) == []
  {
  }

  lemma AbcCodes()
    ensures CodeBits(145, 8) == [1, 0, 0, 1, 0, 0, 0, 1]
    ensures CodeBits(146, 8) == [1, 0, 0, 1, 0, 0, 1, 0]
    ensures CodeBits(147, 8) == [1, 0, 0, 1, 0, 0, 1, 1]
  {
    hide *;
    EightCodeBits(145, [1, 0, 0, 1, 0, 0, 0, 1]);
    EightCodeBits(146, [1, 0, 0, 1, 0, 0, 1, 0]);
    EightCodeBits(147, [1, 0, 0, 1, 0, 0, 1, 1]);
  }

  lemma OneByte(x: byte, b: seq<bit>)
    requires |b| == 8
    requires x == b[0] + 2 * b[1] as nat + 4 * b[2] as nat + 8 * b[3] as nat + 16 * b[4] as nat + 32 * b[5] as nat
                  + 64 * b[6] as nat + 128 * b[7] as nat
    ensures Plain(x, 8) == b
  {
    var y: nat := b[4] + 2 * b[5] as nat + 4 * b[6] as nat + 8 * b[7] as nat;
    HalfByte(y, 0, b[4..]);
    HalfByte(x, 4, b[..4]);
    assert x / 2 / 2 / 2 / 2 == y;
    assert b[..4] + b[4..] == b;
  }

  lemma HalfByte(x: nat, n: nat, b: seq<bit>)
    requires |b| == 4 && b[0] == x % 2 && b[1] == x / 2 % 2 && b[2] == x / 2 / 2 % 2 && b[3] == x / 2 / 2 / 2 % 2
    ensures Plain(x, 4 + n) == b + Plain(x / 2 / 2 / 2 / 2, n)
  {
    assert Plain(x, 4 + n) == [b[0]] + Plain(x / 2, 3 + n);
    assert Plain(x / 2, 3 + n) == [b[1]] + Plain(x / 2 / 2, 2 + n);
    assert Plain(x / 2 / 2, 2 + n) == [b[2]] + Plain(x / 2 / 2 / 2, 1 + n);
    assert Plain(x / 2 / 2 / 2, 1 + n) == [b[3]] + Plain(x / 2 / 2 / 2 / 2, n);
  }

  lemma AbcBytes()
    ensures ByteBits(ABC_STREAM) ==
            [1, 1, 0, 1, 0, 0, 1, 0] + [0, 0, 1, 1, 0, 0, 1, 0] + [0, 1, 0, 1, 0, 0, 1, 0] + [0, 1, 1, 0, 0, 0, 0, 0]
            + [0, 0, 0, 0, 0, 0, 0, 0]
  {
    OneByte(0x4B, [1, 1, 0, 1, 0, 0, 1, 0]);
    OneByte(0x4C, [0, 0, 1, 1, 0, 0, 1, 0]);
    OneByte(0x4A, [0, 1, 0, 1, 0, 0, 1, 0]);
    OneByte(0x06, [0, 1, 1, 0, 0, 0, 0, 0]);
    OneByte(0x00, [0, 0, 0, 0, 0, 0, 0, 0]);
    FiveBytes(0x4B, 0x4C, 0x4A, 0x06, 0x00);
  }

  lemma FiveBytes(a: byte, b: byte, c: byte, d: byte, e: byte)
    ensures ByteBits([a, b, c, d, e]) == Plain(a, 8) + Plain(b, 8) + Plain(c, 8) + Plain(d, 8) + Plain(e, 8)
  {
    hide *;
    TwoBytesOf(a, b, [c, d, e]);
    TwoBytesOf(c, d, [e]);
    ByteBitsOf(e, []);
    assert [e] + [] == [e] && [a, b] + [c, d, e] == [a, b, c, d, e] && [c, d] + [e] == [c, d, e];
  }

  lemma TwoBytesOf(a: byte, b: byte, more: seq<byte>)
    ensures ByteBits([a, b] + more) == Plain(a, 8) + Plain(b, 8) + ByteBits(more)
  {
    hide *;
    ByteBitsOf(a, [b] + more);
    ByteBitsOf(b, more);
    assert [a] + ([b] + more) == [a, b] + more;
  }

  lemma ByteBitsOf(a: byte, more: seq<byte>)
    ensures ByteBits([a] + more) == Plain(a, 8) + ByteBits(more) && ByteBits([]) == []
  {
    hide Plain;
    assert ([a] + more)[1..] == more;
  }

  lemma ThreeLiterals(a: byte, b: byte, c: byte)
    requires a < 144 && b < 144 && c < 144
    ensures LiteralBits([a, b, c]) ==
            CodeBits(48 + a as nat, 8) + CodeBits(48 + b as nat, 8) + CodeBits(48 + c as nat, 8)
  {
    hide CodeBits;
    assert [a, b, c][..2] == [a, b] && [a, b][..1] == [a] && [a][..0] == [];
    assert LiteralBits([]) == [];
    assert LiteralBits([a]) == LiteralBits([]) + CodeBits(48 + a as nat, 8);
    assert LiteralBits([a, b]) == LiteralBits([a]) + CodeBits(48 + b as nat, 8);
  }

  /** The five bytes 4B 4C 4A 06 00 are the stream of the three bytes "abc", padded with zeros. */
  lemma AbcStream()
    ensures LiteralStream(ABC) <= ByteBits(ABC_STREAM)
  {
    hide CodeBits, ByteBits, LiteralBits;
    AbcCodes();
    AbcBytes();
    ThreeLiterals(0x61, 0x62, 0x63);
    assert LiteralStream(ABC) + [0, 0, 0, 0, 0, 0] == ByteBits(ABC_STREAM);
  }
}
