/** An input that is no deflate stream, and that inflateBack takes for one: ten stored bytes, and then a match that
    reaches 15 bytes back. */
module StrayExample {
  import opened Bits
  import opened Huffman
  import opened DecodeTable
  import opened Lz77
  import opened BitReader
  import opened BlockData
  import opened DeflateFormat
  import opened DeflateUnique
  import opened DeflateReading
  import opened DeflateStray
  import opened InflateBack

  function Tail(): seq<byte>
  {
    [0x03, 0x72, 0x01, 0, 0, 0, 0, 0, 0]
  }

  /** A stored block of ten bytes; a last block with the fixed codes: a match of length 3 and distance 15, the end of
      the block; and six bytes more. */
  function Example(data: seq<byte>): (r: seq<byte>)
    requires |data| == 10
    ensures |r| == 24
  {
    [0x00, 0x0A, 0x00, 0xF5, 0xFF] + data + Tail()
  }

  // ---------------------------------------------------------------- bits of the input

  /** Some bits of one byte. */
  lemma ByteBits(input: seq<byte>, i: nat, k: nat, w: nat)
    requires i < |input| && k + w <= 8
    ensures Low(High(Stream(input), 8 * i + k), w) == Low(High(input[i], k), w)
  {
    hide *;
    var x := Stream(input[i..]);
    HighHigh(Stream(input), 8 * i, k);
    StreamDrop(input, i);
    StreamHead(input[i..]);
    HighLow(x, k, 8);
    LowLow(High(x, k), w, 8 - k);
  }

  /** A word of two bytes. */
  lemma TwoBytes(input: seq<byte>, i: nat)
    requires i + 1 < |input|
    ensures Low(High(Stream(input), 8 * i), 16) == input[i] as nat + 256 * (input[i + 1] as nat)
  {
    hide *;
    var x := Stream(input[i..]);
    StreamDrop(input, i);
    StreamHead(input[i..]);
    StreamHead(input[i..][1..]);
    LowSplit(x, 8, 8);
    Shl8(input[i + 1]);
  }

  lemma TailIs()
    ensures Stream(Tail()) == 94723
  {
    var t := Tail();
    assert t[1..] == [0x72, 0x01, 0, 0, 0, 0, 0, 0];
    assert t[1..][1..] == [0x01, 0, 0, 0, 0, 0, 0];
    ZeroStream(6);
    assert t[1..][1..][1..] == seq(6, i => 0);
  }

  lemma {:induction false} ZeroStream(n: nat)
    ensures Stream(seq(n, i => 0)) == 0
  {
    if n > 0 {
      ZeroStream(n - 1);
      assert seq(n, i => 0 as byte)[1..] == seq(n - 1, i => 0 as byte);
    }
  }

  /** The coded data begin three bits into the tail. */
  lemma CodedBits(data: seq<byte>)
    requires |data| == 10
    ensures High(Stream(Example(data)), 123) == 11840
  {
    var input := Example(data);
    StreamDrop(input, 15);
    assert input[15..] == Tail();
    TailIs();
    HighHigh(Stream(input), 120, 3);
    assert High(94723, 3) == 11840;
  }

  // ---------------------------------------------------------------- the codes

  lemma {:induction false} NoneOf(lens: seq<nat>, n: nat, l: nat)
    requires n <= |lens| && forall s :: 0 <= s < n ==> lens[s] != l
    ensures CountBelow(lens, n, l) == 0
  {
    if n > 0 { NoneOf(lens, n - 1, l); }
  }

  lemma {:induction false} AllOf(lens: seq<nat>, n: nat, l: nat)
    requires n <= |lens| && forall s :: 0 <= s < n ==> lens[s] == l
    ensures CountBelow(lens, n, l) == n
  {
    if n > 0 { AllOf(lens, n - 1, l); }
  }

  /** The codes of the shortest length begin with zero. */
  lemma {:induction false} FirstCode(lens: seq<nat>, l: nat)
    requires forall s :: 0 <= s < |lens| ==> lens[s] >= l
    ensures NextCode(lens, l) == 0
  {
    if l > 1 {
      FirstCode(lens, l - 1);
      NoneOf(lens, |lens|, l - 1);
    }
  }

  lemma FixedCodes()
    ensures CodeOf(FixedLengths(), 256) == 0 && CodeOf(FixedLengths(), 257) == 1 && CodeOf(FixedDistances(), 7) == 7
  {
    var ll, dl := FixedLengths(), FixedDistances();
    FirstCode(ll, 7);
    NoneOf(ll, 256, 7);
    FirstCode(dl, 5);
    AllOf(dl, 7, 5);
  }

  lemma LengthBits()
    ensures High(11840, 7) == 92 && Low(11840, 7) == Rev(1, 7)
  {
    HighOne();
    LowOne();
    assert Rev(1, 7) == 64;
  }

  lemma HighOne()
    ensures High(11840, 7) == 92
  {
    assert High(740, 3) == 92;
  }

  lemma LowOne()
    ensures Low(11840, 7) == 64
  {
    assert Low(740, 3) == 4;
  }

  lemma DistanceBits()
    ensures Low(92, 5) == Rev(7, 5) && Low(High(92, 5), 2) == 2
  {
    LowTwo();
    assert Rev(7, 5) == 28;
    assert High(92, 5) == 2;
  }

  lemma LowTwo()
    ensures Low(92, 5) == 28
  {
  }

  lemma EndBits()
    ensures Low(High(11840, 14), 7) == Rev(0, 7)
  {
    assert High(11840, 14) == 0;
    assert Low(0, 7) == 0 && Rev(0, 7) == 0;
  }

  lemma Lengths()
    ensures FixedLengths()[257] == 7 && FixedLengths()[256] == 7 && FixedDistances()[7] == 5
    ensures LBASE[0] == 3 && ExtraLen(257) == 0 && DBASE[7] == 13 && ExtraDist(7) == 2
  {
  }

  /** What the coded data begin with: a length code, a distance code with two extra bits, the end of the block. */
  lemma Items()
    ensures ItemAt(FixedLengths(), FixedDistances(), 11840, Tok(Match(3, 15)), 14)
    ensures ItemAt(FixedLengths(), FixedDistances(), High(11840, 14), EndOfBlock, 7)
  {
    hide CodeOf, FixedLengths, FixedDistances, Low, High, Rev, LBASE, DBASE, ExtraLen, ExtraDist;
    var ll, dl := FixedLengths(), FixedDistances();
    Lengths();
    FixedCodes();
    LengthBits();
    DistanceBits();
    EndBits();
    NoBits(High(11840, 7));
    assert LengthAt(ll, 11840, 257, 3, 7);
    assert DistanceAt(dl, 92, 7, 15, 7);
  }

  lemma NoBits(x: nat)
    ensures Low(x, 0) == 0
  {
  }

  // ---------------------------------------------------------------- the two blocks

  lemma Heads(data: seq<byte>)
    requires |data| == 10
    ensures var z := Stream(Example(data));
            && Low(High(z, 0), 1) == 0 && Low(High(z, 1), 2) == 0 && Low(High(z, 120), 1) == 1
              && Low(High(z, 121), 2) == 1
            && Low(High(z, 8), 16) == 10 && Low(High(High(z, 8), 16), 16) == 0xFFF5
  {
    var input := Example(data);
    ByteBits(input, 0, 0, 1);
    ByteBits(input, 0, 1, 2);
    ByteBits(input, 15, 0, 1);
    ByteBits(input, 15, 1, 2);
    TwoBytes(input, 1);
    TwoBytes(input, 3);
    HighHigh(Stream(input), 8, 16);
    assert High(0, 1) == 0 && Low(0, 1) == 0 && Low(0, 2) == 0;
    assert High(3, 0) == 3 && Low(3, 1) == 1 && High(3, 1) == 1 && Low(1, 2) == 1;
  }

  lemma StoredBytes(data: seq<byte>)
    requires |data| == 10
    ensures BytesOf(High(High(Stream(Example(data)), 8), 32), 10) == data
  {
    hide Low, High, Stream, BytesOf;
    var input := Example(data);
    InputBytes(input, 5, 15);
    HighHigh(Stream(input), 8, 32);
    assert input[5..15] == data;
  }

  /** The first block is one of the format. */
  lemma FirstBlock(data: seq<byte>)
    requires |data| == 10
    ensures BlocksAt(Stream(Example(data)), 1, data, 120, false)
  {
    hide Low, High, Stream, Example, BytesOf, CodedAt, DynamicAt;
    var z := Stream(Example(data));
    Heads(data);
    StoredBytes(data);
    assert data[..0] == [] && data[0..] == data;
    assert StoredAt(High(z, 8), [], data, 112);
    DeflateUnique.BlocksNone(z, [], 0, false);
    NextBlock(z, 0, [], 0, data, 120, false);
  }

  /** The second block goes too far: after ten bytes comes a match with distance 15. */
  lemma GoesTooFar(data: seq<byte>, sane: bool)
    requires |data| == 10
    ensures TooFar(Stream(Example(data)), sane)
  {
    hide *;
    FirstBlock(data);
    SecondStrays(data, sane);
    TooFarIf(Stream(Example(data)), 1, data, 120, sane);
  }

  lemma TooFarIf(z: nat, k: nat, h: seq<byte>, p: nat, sane: bool)
    requires BlocksAt(z, k, h, p, false) && StrayBlock(BeyondOutput(sane), z, p, h)
    ensures TooFar(z, sane)
  {
    hide BlocksAt, StrayBlock;
  }

  lemma SecondStrays(data: seq<byte>, sane: bool)
    requires |data| == 10
    ensures StrayBlock(BeyondOutput(sane), Stream(Example(data)), 120, data)
  {
    hide Low, High, Stream, Example, Produced, ItemAt, FixedLengths, FixedDistances;
    Heads(data);
    CodedBits(data);
    Items();
    HighNone(11840);
    ProducedStart(FixedLengths(), FixedDistances(), 11840, data);
    assert StrayAfter(BeyondOutput(sane), FixedLengths(), FixedDistances(), 11840, data, [], 0, data, 3, 15, 14);
  }

  /** Yet a decoder with a window of 32K that has all the input at hand is sure to read it to its end. */
  lemma SureReading(data: seq<byte>)
    requires |data| == 10
    ensures StreamReads(Sure(Decoder(32768, true, 192)), Stream(Example(data)), 13, 144)
  {
    hide *;
    var z, c := Stream(Example(data)), Sure(Decoder(32768, true, 192));
    FirstReads(data, c);
    SecondReads(data);
    DeflateReading.BlocksNone(c, z, 0, 0, false);
    DeflateReading.BlocksMore(c, z, 0, 0, 0, 10, 120, false);
    DeflateReading.BlocksMore(c, z, 1, 10, 120, 13, 144, true);
    ReadsIf(c, z, 2, 13, 144);
  }

  lemma ReadsIf(c: Policy, z: nat, k: nat, n: nat, p: nat)
    requires BlocksRead(c, z, k, n, p, true)
    ensures StreamReads(c, z, n, p)
  {
    hide BlocksRead;
  }

  lemma FirstReads(data: seq<byte>, c: Policy)
    requires |data| == 10
    ensures BlockReads(c, Stream(Example(data)), 0, 0, 10, 120, false)
  {
    hide Low, High, Stream, Example;
    Heads(data);
  }

  lemma SecondReads(data: seq<byte>)
    requires |data| == 10
    ensures BlockReads(Sure(Decoder(32768, true, 192)), Stream(Example(data)), 120, 10, 13, 144, true)
  {
    hide Low, High, Stream, Example, TokensAt, ItemAt, FixedLengths, FixedDistances;
    var z, d, ll, dl := Stream(Example(data)), Decoder(32768, true, 192), FixedLengths(), FixedDistances();
    var ts := [Match(3, 15)];
    Heads(data);
    CodedBits(data);
    Items();
    HighNone(11840);
    HighHigh(z, 123, 14);
    NothingTaken(ll, dl, 11840);
    TokensSnoc(ll, dl, 11840, [], 0, ts[0], 14);
    assert [] + ts == ts;
    assert Length(ts) == 3 by { assert ts[..0] == []; }
    forall k: nat, m: nat | k < |ts| && TokensAt(ll, dl, 11840, ts[..k], m) && ts[k].Match?
      ensures Admits(d, 10, 10 + Length(ts[..k]), 123 + m, ts[k].dist)
    {
      NoTokens(ll, dl, 11840, ts[..k], m);
    }
    assert ReadsBy(Sure(d), ll, dl, z, 123, 10, ts, 14, 144);
  }

  lemma NothingTaken(ll: seq<nat>, dl: seq<nat>, z: nat)
    ensures TokensAt(ll, dl, z, [], 0)
  {
  }

  /** inflateBack accepts the input, though it begins with no deflate stream. */
  method Accepts(data: seq<byte>, buffer: array<byte>, sane: bool)
    returns (ret: Outcome, ghost given: seq<byte>, ghost n: nat, ghost outFailed: bool)
    requires |data| == 10 && buffer.Length == 32768
    modifies buffer
    ensures !outFailed ==> ret == STREAM_END
    ensures !Decodable(Stream(Example(data)), 192)
  {
    hide *;
    var input := Example(data);
    SureReading(data);
    GoesTooFar(data, sane);
    TooFarFails(Stream(input), sane, 192);
    ret, given, n, outFailed := InflateBack.InflateBack(input, true, buffer, sane);
    ReadingIf(Sure(Decoder(32768, true, 192)), Stream(input), 13, 144, ret == DATA_ERROR, 192);
  }

  lemma ReadingIf(c: Policy, z: nat, n: nat, p: nat, bad: bool, r: int)
    requires StreamReads(c, z, n, p) && p <= r
    ensures !NoReading(c, z, bad, r)
  {
    hide StreamReads;
  }
}
