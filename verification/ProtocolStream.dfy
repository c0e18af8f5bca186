/** The typed binary streams: lengths in seven-bit groups, numbers in network byte order. What a writer
    writes, a reader with the same types reads back. */
module ProtocolStream {
  import opened Common
  import opened Lz77

  const UINT32: nat := 0x1_0000_0000
  const HEADER: nat := 6

  // ---------------------------------------------------------------- seven-bit groups

  /** The groups of a number, lowest first; all but the last are marked by the high bit. */
  function Encode7(v: nat): (bs: seq<byte>)
    ensures |bs| >= 1
  {
    if v < 128 then [v] else [v % 128 + 128] + Encode7(v / 128)
  }

  /** The number at the front and how many bytes it takes; nothing if no group ends it. */
  function Decode7(bs: seq<byte>): Option<(nat, nat)>
  {
    if |bs| == 0 then None
    else if bs[0] < 128 then Some((bs[0], 1))
    else
      match Decode7(bs[1..])
      case None => None
      case Some(r) => Some((bs[0] - 128 + 128 * r.0, r.1 + 1))
  }

  function Power128(n: nat): (r: nat)
    ensures r > 0
  {
    if n == 0 then 1 else 128 * Power128(n - 1)
  }

  /** The code is self-delimiting. */
  lemma {:induction false} Decode7Encode7(v: nat, more: seq<byte>)
    ensures Decode7(Encode7(v) + more) == Some((v, |Encode7(v)|))
  {
    if v >= 128 {
      Decode7Encode7(v / 128, more);
      assert (Encode7(v) + more)[1..] == Encode7(v / 128) + more;
    }
  }

  /** Byte j of the code holds the digit of 128 to the power of j, marked unless it is the last. */
  lemma {:induction false} Encode7Digit(v: nat, j: nat)
    requires j < |Encode7(v)|
    ensures Encode7(v)[j] == v / Power128(j) % 128 + (if j + 1 < |Encode7(v)| then 128 else 0)
  {
    if v >= 128 && j > 0 {
      Encode7Digit(v / 128, j - 1);
      DividedTwice(v, 128, Power128(j - 1));
    }
  }

  lemma DividedTwice(v: nat, a: nat, b: nat)
    requires a > 0 && b > 0
    ensures v / a / b == v / (a * b)
  {
    Split(v, a);
    Split(v / a, b);
    Nested(v, a, b, v / a / b, v / a % b, v % a);
  }

  lemma Split(v: nat, m: nat)
    requires m > 0
    ensures v == m * (v / m) + v % m && v % m < m
  {
  }

  lemma Nested(v: nat, a: nat, b: nat, q: nat, r: nat, r': nat)
    requires a > 0 && b > 0 && r < b && r' < a && v == a * (b * q + r) + r'
    ensures v / (a * b) == q
  {
    hide *;
    Distributes(a, b, q, r);
    Below(a, b, r, r');
    Quotient(v, a * b, q, a * r + r');
  }

  lemma Distributes(a: nat, b: nat, q: nat, r: nat)
    ensures a * (b * q + r) == a * b * q + a * r && a * r >= 0
  {
  }

  lemma Below(a: nat, b: nat, r: nat, r': nat)
    requires r < b && r' < a
    ensures a * r + r' < a * b && a * r + r' >= 0
  {
    assert a * (r + 1) <= a * b;
  }

  /** How many bytes a number takes. */
  lemma {:induction false} Encode7Size(v: nat, n: nat)
    requires n >= 1
    ensures |Encode7(v)| <= n <==> v < Power128(n)
    decreases n
  {
    assert Power128(1) == 128;
    if v >= 128 {
      if n > 1 {
        Encode7Size(v / 128, n - 1);
      } else {
        assert |Encode7(v / 128)| >= 1;
      }
    } else {
      SmallPower(n);
    }
  }

  lemma {:induction false} SmallPower(n: nat)
    requires n >= 1
    ensures Power128(n) >= 128
  {
    if n > 1 { SmallPower(n - 1); }
  }

  /** Five bytes are enough for 32 bits, ten for 64; four and nine are not. */
  lemma SizeLimits()
    ensures forall v: nat :: v < UINT32 ==> 1 <= |Encode7(v)| <= 5
    ensures |Encode7(UINT32 - 1)| == 5
    ensures forall v: nat :: v < UINT32 * UINT32 ==> 1 <= |Encode7(v)| <= 10
    ensures |Encode7(UINT32 * UINT32 - 1)| == 10
  {
    assert Power128(2) == 16384;
    assert Power128(4) == 16384 * 16384;
    assert Power128(5) == 128 * 16384 * 16384;
    assert Power128(7) == 16384 * 128 * 16384 * 16384;
    assert Power128(9) == 16384 * 16384 * 128 * 16384 * 16384;
    forall v: nat ensures |Encode7(v)| <= 5 <==> v < Power128(5) { Encode7Size(v, 5); }
    forall v: nat ensures |Encode7(v)| <= 10 <==> v < Power128(10) { Encode7Size(v, 10); }
    Encode7Size(UINT32 - 1, 4);
    Encode7Size(UINT32 * UINT32 - 1, 9);
  }

  /** write7BitEncoded. */
  method Write7(value: nat, buf: seq<byte>) returns (r: seq<byte>)
    ensures r == buf + Encode7(value)
  {
    r := buf;
    var v := value;
    var going := true;
    while going
      invariant buf + Encode7(value) == if going then r + Encode7(v) else r
      decreases going, v
    {
      var c := v % 128;
      v := v / 128;
      if v != 0 { c := c + 128; }
      r := r + [c];
      going := v != 0;
    }
  }

  /** The groups before the one that ends a number, and their value. */
  lemma Decode7Step(bs: seq<byte>, i: nat)
    requires i < |bs| && Decode7(bs[i..]).Some?
    ensures bs[i] < 128 ==> Decode7(bs[i..]) == Some((bs[i], 1))
    ensures bs[i] >= 128 ==> Decode7(bs[i + 1..]).Some? && i + 1 < |bs|
    ensures bs[i] >= 128 ==> Decode7(bs[i..]).value.0 == bs[i] - 128 + 128 * Decode7(bs[i + 1..]).value.0
  {
    assert bs[i..][1..] == bs[i + 1..];
  }

  /** After some groups: the value so far and the rest, shifted, make up the number modulo 2^32. */
  ghost predicate Partly(bs: seq<byte>, total: nat, index: nat, value: nat)
  {
    && index < |bs| && Decode7(bs[index..]).Some?
    && total % UINT32 == (value + Power128(index) * Decode7(bs[index..]).value.0) % UINT32
  }

  /** One more group. */
  lemma PartlyNext(bs: seq<byte>, total: nat, index: nat, value: nat, value': nat)
    requires Partly(bs, total, index, value) && value' == (value + bs[index] % 128 * Power128(index) % UINT32) % UINT32
    ensures bs[index] >= 128 ==> Partly(bs, total, index + 1, value')
    ensures bs[index] < 128 ==> value' == total % UINT32
  {
    hide Decode7, Power128;
    Decode7Step(bs, index);
    assert bs[index] >= 128 ==> bs[index] % 128 == bs[index] - 128;
    var rest := if bs[index] >= 128 then Decode7(bs[index + 1..]).value.0 else 0;
    Shifted(value, Power128(index), bs[index] % 128, rest);
    NextPower(index);
  }

  /** read7BitEncoded on 32 bits: groups are shifted and added modulo 2^32. */
  method Read7(bs: seq<byte>) returns (value: nat)
    requires Decode7(bs).Some?
    ensures value == Decode7(bs).value.0 % UINT32
  {
    hide Decode7, Power128, Partly;
    ghost var total := Decode7(bs).value.0;
    NotEmpty(bs);
    PartlyStart(bs);
    value := 0;
    var index, going := 0, true;
    while going
      invariant 0 <= index <= |bs|
      invariant if going then index < |bs| && Partly(bs, total, index, value) else value == total % UINT32
      decreases going, |bs| - index
    {
      var c := bs[index];
      var x := c % 128 * Power128(index) % UINT32;
      PartlyNext(bs, total, index, value, (value + x) % UINT32);
      value := (value + x) % UINT32;
      index := index + 1;
      going := c >= 128;
      if going { PartlyIn(bs, total, index, value); }
    }
  }

  lemma PartlyStart(bs: seq<byte>)
    requires Decode7(bs).Some?
    ensures Partly(bs, Decode7(bs).value.0, 0, 0)
  {
    assert bs[0..] == bs;
  }

  lemma PartlyIn(bs: seq<byte>, total: nat, index: nat, value: nat)
    requires Partly(bs, total, index, value)
    ensures index < |bs|
  {
  }

  lemma NotEmpty(bs: seq<byte>)
    requires Decode7(bs).Some?
    ensures |bs| > 0
  {
  }

  lemma NextPower(n: nat)
    ensures Power128(n + 1) == 128 * Power128(n)
  {
  }

  lemma Shifted(value: nat, p: nat, c: nat, rest: nat)
    ensures ((value + c * p % UINT32) % UINT32 + 128 * p * rest) % UINT32 == (value + p * (c + 128 * rest)) % UINT32
  {
    var y := c * p;
    assert p * (c + 128 * rest) == y + 128 * p * rest;
    ShiftedLinear(value, y, 128 * p * rest);
  }

  lemma ShiftedLinear(value: nat, y: nat, z: nat)
    ensures ((value + y % UINT32) % UINT32 + z) % UINT32 == (value + (y + z)) % UINT32
  {
  }

  // ---------------------------------------------------------------- numbers

  /** The n low bytes, highest first. */
  function Big(x: nat, n: nat): (bs: seq<byte>)
    ensures |bs| == n
    decreases n
  {
    if n == 0 then [] else Big(x / 256, n - 1) + [x % 256]
  }

  function FromBig(bs: seq<byte>): nat
  {
    if |bs| == 0 then 0 else 256 * FromBig(bs[..|bs| - 1]) + bs[|bs| - 1]
  }

  function Power256(n: nat): nat
  {
    if n == 0 then 1 else 256 * Power256(n - 1)
  }

  lemma {:induction false} FromBigBig(x: nat, n: nat)
    requires x < Power256(n)
    ensures FromBig(Big(x, n)) == x
    decreases n
  {
    if n > 0 {
      FromBigBig(x / 256, n - 1);
      assert Big(x, n)[..n - 1] == Big(x / 256, n - 1);
    }
  }

  /** The four bytes of a 32-bit number in network byte order, the highest first, and back. */
  lemma FourBytes(x: nat)
    requires x < UINT32
    ensures Big(x, 4) == [x / 0x100_0000, x / 0x1_0000 % 256, x / 0x100 % 256, x % 256]
  {
    assert Big(x, 4) == Big(x / 256 / 256, 2) + [x / 256 % 256] + [x % 256];
    assert Big(x / 256 / 256, 2) == [x / 256 / 256 / 256 % 256, x / 256 / 256 % 256];
    assert x / 256 / 256 == x / 0x1_0000 && x / 256 / 256 / 256 == x / 0x100_0000;
  }

  lemma TwoBytes(x: nat)
    requires x < 65536
    ensures Big(x, 2) == [x / 256, x % 256]
  {
    assert Big(x, 2) == Big(x / 256, 1) + [x % 256];
  }

  lemma FromFourBytes(bs: seq<byte>)
    requires |bs| == 4
    ensures FromBig(bs) == (bs[0] as nat) * 0x100_0000 + (bs[1] as nat) * 0x1_0000 + (bs[2] as nat) * 0x100 + bs[3]
    ensures FromBig(bs) < UINT32
  {
    assert bs[..3][..2] == bs[..2] && bs[..2][..1] == bs[..1] && bs[..1][..0] == [];
    assert FromBig(bs) == 256 * FromBig(bs[..3]) + bs[3];
    assert FromBig(bs[..3]) == 256 * FromBig(bs[..2]) + bs[2];
    assert FromBig(bs[..2]) == 256 * FromBig(bs[..1]) + bs[1];
    assert FromBig(bs[..1]) == bs[0];
  }

  lemma FromTwoBytes(bs: seq<byte>)
    requires |bs| == 2
    ensures FromBig(bs) == (bs[0] as nat) * 256 + bs[1]
  {
    assert FromBig(bs) == 256 * FromBig(bs[..1]) + bs[1];
    assert FromBig(bs[..1]) == bs[0];
  }

  /** The two's complement reading of a number below m. */
  function Signed(x: nat, m: nat): int
  {
    if 2 * x < m then x else x - m
  }

  /** A signed number of n bytes in network byte order and back. */
  lemma SignedRoundTrip(i: int, n: nat)
    requires n == 2 || n == 4
    requires -(Power256(n) / 2) <= i < Power256(n) / 2
    ensures Signed(FromBig(Big(i % Power256(n), n)), Power256(n)) == i
  {
    assert Power256(2) == 65536 && Power256(4) == UINT32;
    var m := Power256(n);
    hide *;
    FromBigBig(i % m, n);
    SignedOfMod(i, m);
  }

  lemma SignedOfMod(i: int, m: nat)
    requires m == 65536 || m == UINT32
    requires -(m / 2) <= i < m / 2
    ensures Signed(i % m, m) == i
  {
  }

  // ---------------------------------------------------------------- fields

  datatype Kind = INT32 | SHORT | CHAR | TEXT
  datatype Field = Int32(i: int) | Short(i: int) | Char(c: byte) | Text(s: seq<byte>)

  /** What the types of the interface can hold. */
  predicate Fits(f: Field)
  {
    match f
    case Int32(i) => -0x8000_0000 <= i < 0x8000_0000
    case Short(i) => -0x8000 <= i < 0x8000
    case Char(c) => true
    case Text(s) => |s| < UINT32
  }

  function KindOf(f: Field): Kind
  {
    match f case Int32(_) => INT32 case Short(_) => SHORT case Char(_) => CHAR case Text(_) => TEXT
  }

  function Encoding(f: Field): seq<byte>
  {
    match f
    case Int32(i) => Big(i % UINT32, 4)
    case Short(i) => Big(i % 65536, 2)
    case Char(c) => [c]
    case Text(s) => Encode7(|s|) + s
  }

  /** The length at the front, in at most five bytes, and how many it takes. */
  function LengthAt(bs: seq<byte>): Option<(nat, nat)>
  {
    match Decode7(if |bs| < 5 then bs else bs[..5])
    case None => None
    case Some(r) => Some((r.0 % UINT32, r.1))
  }

  /** The field of a kind at the front of some bytes, and the bytes after it. */
  function Parse(k: Kind, bs: seq<byte>): Option<(Field, seq<byte>)>
  {
    match k
    case INT32 => if |bs| < 4 then None else Some((Int32(Signed(FromBig(bs[..4]), UINT32)), bs[4..]))
    case SHORT => if |bs| < 2 then None else Some((Short(Signed(FromBig(bs[..2]), 65536)), bs[2..]))
    case CHAR => if |bs| < 1 then None else Some((Char(bs[0]), bs[1..]))
    case TEXT =>
      match LengthAt(bs)
      case None => None
      case Some(r) => if r.1 + r.0 > |bs| then None else Some((Text(bs[r.1..r.1 + r.0]), bs[r.1 + r.0..]))
  }

  lemma LengthAtEncode(v: nat, more: seq<byte>)
    requires v < UINT32
    ensures LengthAt(Encode7(v) + more) == Some((v, |Encode7(v)|)) && |Encode7(v)| <= 5
  {
    SizeLimits();
    hide Encode7, Decode7;
    var bs := Encode7(v) + more;
    var n := |Encode7(v)|;
    if |bs| < 5 {
      Decode7Encode7(v, more);
    } else {
      assert bs[..5] == Encode7(v) + more[..5 - n];
      Decode7Encode7(v, more[..5 - n]);
    }
  }

  lemma ParseNumber(i: int, n: nat, m: nat, more: seq<byte>)
    requires (n == 2 && m == 65536) || (n == 4 && m == UINT32)
    requires -(m / 2) <= i < m / 2
    ensures var bs := Big(i % m, n) + more; Signed(FromBig(bs[..n]), m) == i && bs[n..] == more
  {
    assert Power256(2) == 65536 && Power256(4) == UINT32;
    hide *;
    SignedRoundTrip(i, n);
    var bs := Big(i % m, n) + more;
    assert bs[..n] == Big(i % m, n) && bs[n..] == more;
  }

  lemma Parts(a: seq<byte>, b: seq<byte>, c: seq<byte>)
    ensures var bs := a + b + c;
            bs == a + (b + c) && |bs| == |a| + |b| + |c| && bs[|a|..|a| + |b|] == b && bs[|a| + |b|..] == c
  {
  }

  lemma ParseTextAt(bs: seq<byte>, n: nat, v: nat)
    requires LengthAt(bs) == Some((v, n)) && n + v <= |bs|
    ensures Parse(TEXT, bs) == Some((Text(bs[n..n + v]), bs[n + v..]))
  {
    hide LengthAt;
  }

  lemma ParseText(s: seq<byte>, more: seq<byte>)
    requires |s| < UINT32
    ensures Parse(TEXT, Encode7(|s|) + s + more) == Some((Text(s), more))
  {
    hide *;
    var head := Encode7(|s|);
    LengthAtEncode(|s|, s + more);
    Parts(head, s, more);
    ParseTextAt(head + s + more, |head|, |s|);
  }

  /** A field's encoding is parsed back, whatever follows. */
  lemma ParseEncoding(f: Field, more: seq<byte>)
    requires Fits(f)
    ensures Parse(KindOf(f), Encoding(f) + more) == Some((f, more))
  {
    hide Encode7, LengthAt, Big, FromBig, Signed;
    match f
    case Int32(i) => ParseNumber(i, 4, UINT32, more);
    case Short(i) => ParseNumber(i, 2, 65536, more);
    case Char(c) =>
    case Text(s) => ParseText(s, more);
  }

  function EncodeAll(fs: seq<Field>): seq<byte>
  {
    if |fs| == 0 then [] else EncodeAll(fs[..|fs| - 1]) + Encoding(fs[|fs| - 1])
  }

  // ---------------------------------------------------------------- streams

  class Writer {
    var data: seq<byte>

    /** Space for the length and the checksum; the source leaves it uninitialised. */
    constructor (space: seq<byte>)
      requires |space| == HEADER
      ensures data == space
    {
      data := space;
    }

    method WriteInt32(i: int)
      modifies this
      ensures data == old(data) + Encoding(Int32(i))
      ensures var x := i % UINT32;
              data == old(data) + [x / 0x100_0000, x / 0x1_0000 % 256, x / 0x100 % 256, x % 256]
    {
      FourBytes(i % UINT32);
      data := data + Big(i % UINT32, 4);
    }

    method WriteShort(i: int)
      modifies this
      ensures data == old(data) + Encoding(Short(i))
      ensures data == old(data) + [i % 65536 / 256, i % 256]
    {
      TwoBytes(i % 65536);
      data := data + Big(i % 65536, 2);
    }

    method WriteChar(c: byte)
      modifies this
      ensures data == old(data) + Encoding(Char(c)) == old(data) + [c]
    {
      data := data + [c];
    }

    method WriteString(s: seq<byte>)
      modifies this
      ensures data == old(data) + Encoding(Text(s))
      ensures data[|old(data)|..] == Encode7(|s|) + s
    {
      hide Encode7;
      var buf := Write7(|s|, []);
      assert [] + Encode7(|s|) == Encode7(|s|);
      ghost var before := data;
      data := data + buf;
      data := data + s;
      assert data == before + (Encode7(|s|) + s);
    }

    method Write(f: Field)
      modifies this
      ensures data == old(data) + Encoding(f)
    {
      match f
      case Int32(i) => WriteInt32(i);
      case Short(i) => WriteShort(i);
      case Char(c) => WriteChar(c);
      case Text(s) => WriteString(s);
    }

    /** The total length goes to the front; nothing else changes. */
    method Flush()
      requires |data| >= HEADER
      modifies this
      ensures data == Big(|old(data)| % UINT32, 4) + old(data)[4..]
      ensures var x := |old(data)| % UINT32;
              data[..4] == [x / 0x100_0000, x / 0x1_0000 % 256, x / 0x100 % 256, x % 256]
    {
      FourBytes(|data| % UINT32);
      data := Big(|data| % UINT32, 4) + data[4..];
    }
  }

  class Reader {
    const data: seq<byte>
    var cur: nat

    ghost function Rest(): seq<byte>
      reads this
    {
      if cur <= |data| then data[cur..] else []
    }

    constructor (bytes: seq<byte>)
      ensures data == bytes && cur == HEADER
    {
      data := bytes;
      cur := HEADER;
    }

    method ReadInt32() returns (ok: bool, i: int)
      requires cur <= |data|
      modifies this
      ensures cur <= |data| && (ok <==> Parse(INT32, old(Rest())).Some?)
      ensures ok ==> Parse(INT32, old(Rest())) == Some((Int32(i), Rest()))
      ensures ok <==> old(cur) + 4 <= |data|
      ensures ok ==> var b := data[old(cur)..old(cur) + 4];
                     var x := (b[0] as nat) * 0x100_0000 + (b[1] as nat) * 0x1_0000 + (b[2] as nat) * 0x100 + b[3];
                     cur == old(cur) + 4 && i == if b[0] < 128 then x else x - UINT32
    {
      ok, i := cur + 4 <= |data|, 0;
      if ok {
        FromFourBytes(data[cur..cur + 4]);
        i := Signed(FromBig(data[cur..cur + 4]), UINT32);
        assert data[cur..][..4] == data[cur..cur + 4];
        cur := cur + 4;
      }
    }

    method ReadShort() returns (ok: bool, i: int)
      requires cur <= |data|
      modifies this
      ensures cur <= |data| && (ok <==> Parse(SHORT, old(Rest())).Some?)
      ensures ok ==> Parse(SHORT, old(Rest())) == Some((Short(i), Rest()))
      ensures ok <==> old(cur) + 2 <= |data|
      ensures ok ==> var b := data[old(cur)..old(cur) + 2];
                     var x := (b[0] as nat) * 256 + b[1];
                     cur == old(cur) + 2 && i == if b[0] < 128 then x else x - 65536
    {
      ok, i := cur + 2 <= |data|, 0;
      if ok {
        FromTwoBytes(data[cur..cur + 2]);
        i := Signed(FromBig(data[cur..cur + 2]), 65536);
        assert data[cur..][..2] == data[cur..cur + 2];
        cur := cur + 2;
      }
    }

    method ReadChar() returns (ok: bool, c: byte)
      requires cur <= |data|
      modifies this
      ensures cur <= |data| && (ok <==> Parse(CHAR, old(Rest())).Some?)
      ensures ok ==> Parse(CHAR, old(Rest())) == Some((Char(c), Rest()))
    {
      ok, c := cur + 1 <= |data|, 0;
      if ok {
        c := data[cur];
        cur := cur + 1;
      }
    }

    /** ReadLengthWithoutOffset: collect up to five bytes and decode them. Five bytes that are all marked as
        not the last make the decoder read on beyond its buffer: the value is then anything. */
    method ReadLength() returns (ok: bool, headlen: nat, value: nat)
      requires cur <= |data|
      ensures LengthAt(Rest()).Some? ==> ok && (value, headlen) == LengthAt(Rest()).value && cur + headlen <= |data|
      ensures LengthAt(Rest()).None? && |Rest()| < 5 ==> !ok
      ensures ok ==> headlen <= 5 && cur + headlen <= |data|
    {
      hide Decode7;
      ghost var rest := data[cur..];
      ghost var w := if |rest| < 5 then rest else rest[..5];
      ok, headlen, value := true, 0, 0;
      var last := false;
      while headlen < 5 && ok && !last
        invariant headlen <= 5 && (ok ==> headlen <= |w|)
        invariant !ok ==> |rest| < 5 && forall k :: 0 <= k < |w| ==> w[k] >= 128
        invariant ok && !last ==> forall k :: 0 <= k < headlen ==> w[k] >= 128
        invariant last ==> ok && 0 < headlen && w[headlen - 1] < 128 && forall k :: 0 <= k < headlen - 1 ==> w[k] >= 128
        decreases 5 - headlen, ok
      {
        if cur + headlen >= |data| {
          ok := false;
        } else {
          last := data[cur + headlen] < 128;
          headlen := headlen + 1;
        }
      }
      if ok {
        if last {
          Ends(w, headlen);
          SameBytes(data, cur, headlen);
          value := Read7(data[cur..cur + headlen]);
        } else {
          Endless(w);
          value :| 0 <= value < UINT32;
        }
      } else {
        Endless(w);
      }
    }

    method ReadString(maxlen: nat) returns (ok: bool, s: seq<byte>)
      requires cur <= |data|
      modifies this
      ensures cur <= |data|
      ensures Parse(TEXT, old(Rest())).Some? && (maxlen == 0 || |Parse(TEXT, old(Rest())).value.0.s| <= maxlen) ==>
                ok && Parse(TEXT, old(Rest())) == Some((Text(s), Rest()))
      ensures Parse(TEXT, old(Rest())).Some? && 0 < maxlen < |Parse(TEXT, old(Rest())).value.0.s| ==> !ok
      ensures Parse(TEXT, old(Rest())) == None && (LengthAt(old(Rest())).Some? || |old(Rest())| < 5) ==> !ok
    {
      hide LengthAt;
      ghost var rest := data[cur..];
      s := [];
      var headlen, fieldlen;
      ok, headlen, fieldlen := ReadLength();
      if ok && maxlen != 0 && fieldlen > maxlen { ok := false; }
      if ok {
        cur := cur + headlen;
        if cur + fieldlen > |data| {
          ok := false;
        } else {
          s := data[cur..cur + fieldlen];
          assert rest[headlen..headlen + fieldlen] == s;
          cur := cur + fieldlen;
          assert rest[headlen + fieldlen..] == data[cur..];
        }
      }
    }

    /** Read a field of a kind. */
    method Read(k: Kind) returns (ok: bool, f: Field)
      requires cur <= |data|
      modifies this
      ensures cur <= |data|
      ensures Parse(k, old(Rest())).Some? ==> ok && Parse(k, old(Rest())) == Some((f, Rest()))
    {
      hide LengthAt;
      f := Char(0);
      match k
      case INT32 =>
        var i;
        ok, i := ReadInt32();
        f := Int32(i);
      case SHORT =>
        var i;
        ok, i := ReadShort();
        f := Short(i);
      case CHAR =>
        var c;
        ok, c := ReadChar();
        f := Char(c);
      case TEXT =>
        var s;
        ok, s := ReadString(0);
        f := Text(s);
    }

    predicate IsEnd()
      reads this
    {
      cur == |data|
    }
  }

  lemma SameBytes(data: seq<byte>, cur: nat, n: nat)
    requires cur <= |data| && n <= 5 && n <= |data| - cur
    ensures data[cur..cur + n] == (if |data[cur..]| < 5 then data[cur..] else data[cur..][..5])[..n]
  {
    if |data[cur..]| >= 5 { assert data[cur..][..5][..n] == data[cur..][..n]; }
  }

  /** Groups up to one that is not marked make a number. */
  lemma {:induction false} Ends(bs: seq<byte>, n: nat)
    requires 0 < n <= |bs| && bs[n - 1] < 128 && forall k :: 0 <= k < n - 1 ==> bs[k] >= 128
    ensures Decode7(bs).Some? && Decode7(bs[..n]) == Decode7(bs) && Decode7(bs).value.1 == n
    decreases n
  {
    if n > 1 {
      Ends(bs[1..], n - 1);
      assert bs[..n][1..] == bs[1..][..n - 1];
    }
  }

  /** Without such a group there is no number. */
  lemma {:induction false} Endless(bs: seq<byte>)
    requires forall k :: 0 <= k < |bs| ==> bs[k] >= 128
    ensures Decode7(bs) == None
  {
    if |bs| > 0 { Endless(bs[1..]); }
  }

  /** Write fields and flush. */
  method WriteAll(fields: seq<Field>, space: seq<byte>) returns (data: seq<byte>)
    requires |space| == HEADER
    ensures |data| == HEADER + |EncodeAll(fields)| && data[HEADER..] == EncodeAll(fields)
    ensures data[..4] == Big(|data| % UINT32, 4)
  {
    hide Encoding, EncodeAll;
    var w := new Writer(space);
    assert fields[..|fields|] == fields;
    NoFields(fields);
    for k := 0 to |fields|
      invariant w.data == space + EncodeAll(fields[..k])
    {
      EncodeNext(fields, k);
      w.Write(fields[k]);
    }
    w.Flush();
    data := w.data;
  }

  lemma NoFields(fs: seq<Field>)
    ensures EncodeAll(fs[..0]) == []
  {
  }

  /** Read fields of given kinds, one after another, up to the first that fails. */
  method ReadAll(data: seq<byte>, kinds: seq<Kind>, ghost fields: seq<Field>)
    returns (ok: bool, values: seq<Field>, atEnd: bool)
    requires HEADER <= |data| && |kinds| == |fields|
    requires forall k :: 0 <= k < |kinds| ==> kinds[k] == KindOf(fields[k]) && Fits(fields[k])
    ensures data[HEADER..] == EncodeAll(fields) ==> ok && values == fields && atEnd
  {
    hide Parse, Encoding, Fits, EncodeAll;
    var r := new Reader(data);
    ok, values := true, [];
    AllFrom(fields);
    ghost var good := data[HEADER..] == EncodeAll(fields);
    var k := 0;
    while ok && k < |kinds|
      invariant 0 <= k <= |kinds| && r.cur <= |r.data| && r.data == data
      invariant good ==> ok && values == fields[..k] && r.Rest() == EncodeFrom(fields, k)
      decreases |kinds| - k
    {
      var f;
      ParseEncoding(fields[k], EncodeFrom(fields, k + 1));
      ok, f := r.Read(kinds[k]);
      values := values + [f];
      k := k + 1;
    }
    atEnd := r.IsEnd();
  }

  /** Write fields, flush, and read with the same kinds: the same values, and nothing is left. */
  method RoundTrip(fields: seq<Field>, space: seq<byte>) returns (ok: bool, values: seq<Field>, atEnd: bool)
    requires |space| == HEADER && forall k :: 0 <= k < |fields| ==> Fits(fields[k])
    ensures ok && values == fields && atEnd
  {
    var data := WriteAll(fields, space);
    var kinds := seq(|fields|, k requires 0 <= k < |fields| => KindOf(fields[k]));
    ok, values, atEnd := ReadAll(data, kinds, fields);
  }

  lemma EncodeNext(fs: seq<Field>, k: nat)
    requires k < |fs|
    ensures EncodeAll(fs[..k + 1]) == EncodeAll(fs[..k]) + Encoding(fs[k])
  {
    assert fs[..k + 1][..k] == fs[..k];
  }

  /** The encodings of the fields from k on. */
  function EncodeFrom(fs: seq<Field>, k: nat): seq<byte>
    requires k <= |fs|
    decreases |fs| - k
  {
    if k == |fs| then [] else Encoding(fs[k]) + EncodeFrom(fs, k + 1)
  }

  lemma {:induction false} SplitAt(fs: seq<Field>, k: nat)
    requires k <= |fs|
    ensures EncodeAll(fs[..k]) + EncodeFrom(fs, k) == EncodeAll(fs)
    decreases |fs| - k
  {
    hide Encoding, EncodeAll;
    if k == |fs| {
      assert fs[..k] == fs;
      assert EncodeAll(fs) + [] == EncodeAll(fs);
    } else {
      SplitAt(fs, k + 1);
      EncodeNext(fs, k);
      Parts(EncodeAll(fs[..k]), Encoding(fs[k]), EncodeFrom(fs, k + 1));
    }
  }

  lemma AllFrom(fs: seq<Field>)
    ensures EncodeFrom(fs, 0) == EncodeAll(fs)
  {
    SplitAt(fs, 0);
    assert fs[..0] == [];
  }
}
