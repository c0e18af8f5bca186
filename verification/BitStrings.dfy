/** Bit strings as section 3.1.1 of RFC 1951 packs them into bytes: the lowest bit of a byte comes first; numbers are
    stored with their lowest bit first, and Huffman codes with their highest bit first. */
module BitStrings {
  import opened Bits
  import opened Lz77
  import opened BitReader

  type bit = b: int | 0 <= b <= 1

  /** The n lowest bits of a number, the lowest first. */
  function Plain(x: nat, n: nat): (bs: seq<bit>)
    ensures |bs| == n
    decreases n
  {
    if n == 0 then [] else [x % 2] + Plain(x / 2, n - 1)
  }

  /** The n lowest bits of a number, the highest of them first. */
  function CodeBits(c: nat, n: nat): (bs: seq<bit>)
    ensures |bs| == n
    decreases n
  {
    if n == 0 then [] else CodeBits(c / 2, n - 1) + [c % 2]
  }

  /** The bits of a stream, its lowest first, begin with bs. */
  ghost predicate Starts(z: nat, bs: seq<bit>)
    decreases |bs|
  {
    |bs| == 0 || (z % 2 == bs[0] && Starts(z / 2, bs[1..]))
  }

  lemma {:induction false} StartsSplit(z: nat, a: seq<bit>, b: seq<bit>)
    ensures Starts(z, a + b) <==> Starts(z, a) && Starts(High(z, |a|), b)
    decreases |a|
  {
    if |a| == 0 {
      assert a + b == b;
    } else {
      assert (a + b)[1..] == a[1..] + b;
      StartsSplit(z / 2, a[1..], b);
    }
  }

  /** A number is read back from its bits. */
  lemma {:induction false} StartsPlain(z: nat, x: nat, n: nat)
    requires Starts(z, Plain(x, n)) && x < Pow2(n)
    ensures Low(z, n) == x
    decreases n
  {
    if n > 0 {
      assert Plain(x, n)[1..] == Plain(x / 2, n - 1);
      StartsPlain(z / 2, x / 2, n - 1);
    }
  }

  lemma {:induction false} PlainStarts(z: nat, n: nat)
    ensures Starts(z, Plain(Low(z, n), n))
    decreases n
  {
    if n > 0 {
      LowStep(z, n);
      assert Plain(Low(z, n), n)[1..] == Plain(Low(z / 2, n - 1), n - 1);
      PlainStarts(z / 2, n - 1);
    }
  }

  /** The bits of a code, as a number, are the code reversed. */
  lemma {:induction false} StartsCode(z: nat, c: nat, n: nat)
    requires Starts(z, CodeBits(c, n))
    ensures Low(z, n) == Rev(c, n)
    decreases n
  {
    if n > 0 {
      StartsSplit(z, CodeBits(c / 2, n - 1), [c % 2]);
      StartsCode(z, c / 2, n - 1);
      LowSplit(z, n - 1, 1);
      OneBit(High(z, n - 1), n - 1);
      assert [c % 2][1..] == [];
    }
  }

  lemma OneBit(y: nat, n: nat)
    ensures Shl(Low(y, 1), n) == if y % 2 == 1 then Pow2(n) else 0
  {
    assert Low(y, 1) == y % 2 + 2 * Low(y / 2, 0);
    ShlZero(n);
    ShlPow2(0, n);
  }

  /** The bits of bytes. */
  function ByteBits(bytes: seq<byte>): (bs: seq<bit>)
    ensures |bs| == 8 * |bytes|
  {
    if |bytes| == 0 then [] else Plain(bytes[0], 8) + ByteBits(bytes[1..])
  }

  /** The stream of some bytes begins with their bits. */
  lemma {:induction false} StreamStarts(bytes: seq<byte>)
    ensures Starts(Stream(bytes), ByteBits(bytes))
  {
    if |bytes| > 0 {
      StreamHead(bytes);
      PlainStarts(Stream(bytes), 8);
      StartsSplit(Stream(bytes), Plain(bytes[0], 8), ByteBits(bytes[1..]));
      StreamStarts(bytes[1..]);
    }
  }

  lemma InputStarts(input: seq<byte>, bs: seq<bit>)
    requires bs <= ByteBits(input)
    ensures Starts(Stream(input), bs) && |bs| <= 8 * |input|
  {
    hide *;
    var whole := ByteBits(input);
    StreamStarts(input);
    PrefixStarts(Stream(input), whole, bs);
  }

  lemma PrefixStarts(z: nat, whole: seq<bit>, bs: seq<bit>)
    requires Starts(z, whole) && bs <= whole
    ensures Starts(z, bs)
  {
    hide *;
    var rest := whole[|bs|..];
    assert bs + rest == whole;
    StartsSplit(z, bs, rest);
  }
}
