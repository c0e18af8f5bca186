/** The bit accumulator that the inflate routines share: bytes enter above the bits held, codes leave at
    the bottom. Its meaning is given by the whole stream as one number and the count of bits consumed. */
module BitReader {
  import opened Bits
  import opened Lz77

  /** Bytes as one number, first byte lowest. */
  function Stream(bs: seq<byte>): nat
  {
    if |bs| == 0 then 0 else bs[0] + 256 * Stream(bs[1..])
  }

  lemma {:induction false} Shl8(x: nat)
    ensures Shl(x, 8) == 256 * x
  {
    assert Shl(x, 1) == 2 * Shl(x, 0) == 2 * x;
    assert Shl(x, 2) == 4 * x;
    assert Shl(x, 3) == 8 * x;
    assert Shl(x, 4) == 16 * x;
    assert Shl(x, 5) == 32 * x;
    assert Shl(x, 6) == 64 * x;
    assert Shl(x, 7) == 128 * x;
  }

  lemma {:induction false} StreamHead(bs: seq<byte>)
    requires |bs| > 0
    ensures Low(Stream(bs), 8) == bs[0] && High(Stream(bs), 8) == Stream(bs[1..])
  {
    assert Pow2(4) == 16;
    assert Pow2(8) == 256;
    Shl8(Stream(bs[1..]));
    JoinWord(bs[0], Stream(bs[1..]), 8);
  }

  lemma {:induction false} StreamDrop(bs: seq<byte>, k: nat)
    requires k <= |bs|
    ensures High(Stream(bs), 8 * k) == Stream(bs[k..])
  {
    if k == 0 {
      assert bs[0..] == bs;
    } else {
      hide *;
      calc {
        High(Stream(bs), 8 * k);
        { HighHigh(Stream(bs), 8, 8 * (k - 1)); }
        High(High(Stream(bs), 8), 8 * (k - 1));
        { StreamHead(bs); }
        High(Stream(bs[1..]), 8 * (k - 1));
        { StreamDrop(bs[1..], k - 1); }
        Stream(bs[1..][k - 1..]);
        { assert bs[1..][k - 1..] == bs[k..]; }
        Stream(bs[k..]);
      }
    }
  }

  /** The whole stream: the bits held on entry, then the input. */
  function Whole(hold: nat, bits: nat, input: seq<byte>): nat
  {
    hold + Shl(Stream(input), bits)
  }

  /** The accumulator after n bits were consumed and i input bytes were fetched, from a start with b bits:
      it holds exactly the next bits of the stream, and every bit fetched is consumed or held. */
  ghost predicate Held(s: nat, b: nat, n: nat, i: nat, hold: nat, bits: nat)
  {
    && hold == Low(High(s, n), bits)
    && n + bits == b + 8 * i
  }

  /** s is a stream whose bytes from bit b on are the input. */
  ghost predicate Carries(s: nat, b: nat, input: seq<byte>)
  {
    High(s, b) == Stream(input)
  }

  lemma HeldStart(hold: nat, bits: nat, input: seq<byte>)
    requires hold < Pow2(bits)
    ensures Carries(Whole(hold, bits, input), bits, input)
    ensures Held(Whole(hold, bits, input), bits, 0, 0, hold, bits)
  {
    hide Low, Shl, Pow2, Stream;
    JoinWord(hold, Stream(input), bits);
    assert High(Whole(hold, bits, input), 0) == Whole(hold, bits, input);
  }

  lemma {:induction false} LowSplit(x: nat, a: nat, b: nat)
    ensures Low(x, a + b) == Low(x, a) + Shl(Low(High(x, a), b), a)
  {
    if a > 0 { LowSplit(x / 2, a - 1, b); }
  }

  /** What lies beyond the held bits is the unread input. */
  lemma Unread(s: nat, b: nat, n: nat, i: nat, hold: nat, bits: nat, input: seq<byte>)
    requires Carries(s, b, input) && Held(s, b, n, i, hold, bits) && i <= |input|
    ensures High(High(s, n), bits) == Stream(input[i..])
  {
    HighHigh(s, n, bits);
    HighHigh(s, b, 8 * i);
    StreamDrop(input, i);
  }

  /** hold += byte << bits; bits += 8. */
  lemma PullByte(s: nat, b: nat, n: nat, i: nat, hold: nat, bits: nat, input: seq<byte>)
    requires Carries(s, b, input) && Held(s, b, n, i, hold, bits) && i < |input|
    ensures Held(s, b, n, i + 1, hold + Shl(input[i], bits), bits + 8)
  {
    Unread(s, b, n, i, hold, bits, input);
    StreamHead(input[i..]);
    LowSplit(High(s, n), bits, 8);
  }

  /** hold >>= k; bits -= k. */
  lemma DropBits(s: nat, b: nat, n: nat, i: nat, hold: nat, bits: nat, k: nat)
    requires Held(s, b, n, i, hold, bits) && k <= bits
    ensures Held(s, b, n + k, i, High(hold, k), bits - k)
  {
    HighLow(High(s, n), k, bits);
    HighHigh(s, n, k);
  }

  /** The low bits held are the next bits of the stream. */
  lemma PeekBits(s: nat, b: nat, n: nat, i: nat, hold: nat, bits: nat, k: nat)
    requires Held(s, b, n, i, hold, bits) && k <= bits
    ensures Low(hold, k) == Low(High(s, n), k)
  {
    LowLow(High(s, n), k, bits);
  }

  /** in -= k; bits -= 8 k; hold &= (1 << bits) - 1. */
  lemma GiveBack(s: nat, b: nat, n: nat, i: nat, hold: nat, bits: nat, k: nat)
    requires Held(s, b, n, i, hold, bits) && k <= i && 8 * k <= bits
    ensures Held(s, b, n, i - k, Low(hold, bits - 8 * k), bits - 8 * k)
  {
    LowLow(High(s, n), bits - 8 * k, bits);
  }
}
