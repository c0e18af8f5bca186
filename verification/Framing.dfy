/** Length framing: TcpSession::sendPackage puts an 8-byte length before each body, FileSession::onRead takes
    bodies off a buffer as they become complete. */
module Framing {
  import opened Common
  import opened Lz77
  import opened NetBuffer

  const HEADER_SIZE: nat := 8
  const MAX_PACKAGE_SIZE: nat := 50 * 1024 * 1024
  const INT64: nat := 0x1_0000_0000_0000_0000

  // ---------------------------------------------------------------- the header

  /** n bytes, lowest first. */
  function Bytes(x: nat, n: nat): (bs: seq<byte>)
    ensures |bs| == n
    decreases n
  {
    if n == 0 then [] else [x % 256] + Bytes(x / 256, n - 1)
  }

  function Number(bs: seq<byte>): nat
  {
    if |bs| == 0 then 0 else bs[0] + 256 * Number(bs[1..])
  }

  lemma {:induction false} NumberBytes(x: nat, n: nat, limit: nat)
    requires x < limit && limit == Power(n)
    ensures Number(Bytes(x, n)) == x
    decreases n
  {
    if n > 0 {
      NumberBytes(x / 256, n - 1, Power(n - 1));
      assert Bytes(x, n)[1..] == Bytes(x / 256, n - 1);
    }
  }

  function Power(n: nat): nat
  {
    if n == 0 then 1 else 256 * Power(n - 1)
  }

  /** The int64_t that eight bytes stand for. */
  function Int64(bs: seq<byte>): int
    requires |bs| == 8
  {
    var x := Number(bs);
    if x < INT64 / 2 then x else x - INT64
  }

  lemma HeaderRoundTrip(x: nat)
    requires x < INT64 / 2
    ensures Int64(Bytes(x, 8)) == x
  {
    assert Power(3) == 256 * 256 * 256;
    assert Power(6) == 256 * 256 * 256 * 256 * 256 * 256;
    assert Power(8) == INT64;
    NumberBytes(x, 8, INT64);
  }

  /** The eight bytes of a length, the lowest first, each by its place, and what eight bytes stand for. */
  lemma EightBytes(x: nat)
    requires x < INT64
    ensures Bytes(x, 8) == [x % 0x100, x / 0x100 % 0x100, x / 0x1_0000 % 0x100, x / 0x100_0000 % 0x100] +
                           [x / 0x1_0000_0000 % 0x100, x / 0x100_0000_0000 % 0x100,
                            x / 0x1_0000_0000_0000 % 0x100, x / 0x100_0000_0000_0000]
  {
    hide *;
    var y := x / 0x1_0000_0000;
    FourBytes(x);
    FourBytes(y);
    UpperHalf(x);
    UpperFour(x);
    BytesSplit(x, 4, 4);
  }

  lemma TwoBytes(x: nat)
    ensures Bytes(x, 2) == [x % 256, x / 256 % 256] && Upper(x, 2) == x / 256 / 256
  {
    assert Bytes(x, 2) == [x % 256] + Bytes(x / 256, 1);
    assert Upper(x, 2) == Upper(x / 256, 1);
  }

  /** A number without its lowest n bytes. */
  function Upper(x: nat, n: nat): nat
  {
    if n == 0 then x else Upper(x / 256, n - 1)
  }

  lemma {:induction false} BytesSplit(x: nat, m: nat, n: nat)
    ensures Bytes(x, m + n) == Bytes(x, m) + Bytes(Upper(x, m), n)
    decreases m
  {
    if m > 0 { BytesSplit(x / 256, m - 1, n); }
  }

  lemma UpperFour(x: nat)
    ensures Upper(x, 4) == x / 0x1_0000_0000
  {
    assert Upper(x, 4) == Upper(x / 256, 3) == Upper(x / 256 / 256, 2);
    TwoBytes(x / 256 / 256);
    assert x / 256 / 256 / 256 / 256 == x / 0x1_0000_0000;
  }

  lemma UpperHalf(x: nat)
    requires x < INT64
    ensures var y := x / 0x1_0000_0000;
            && y < 0x1_0000_0000 && y / 0x100 == x / 0x100_0000_0000
            && y / 0x1_0000 == x / 0x1_0000_0000_0000 && y / 0x100_0000 == x / 0x100_0000_0000_0000
            && y / 0x100_0000 < 0x100
  {
  }

  lemma FourBytes(x: nat)
    ensures Bytes(x, 4) == [x % 0x100, x / 0x100 % 0x100, x / 0x1_0000 % 0x100, x / 0x100_0000 % 0x100]
  {
    hide *;
    TwoBytes(x);
    TwoBytes(x / 256 / 256);
    assert 2 + 2 == 4;
    BytesSplit(x, 2, 2);
    assert x / 256 / 256 == x / 0x1_0000 && x / 256 / 256 / 256 == x / 0x100_0000;
  }

  // ---------------------------------------------------------------- streams of frames

  /** sendPackage. */
  function Frame(body: seq<byte>): seq<byte>
  {
    Bytes(|body|, HEADER_SIZE) + body
  }

  function Frames(bodies: seq<seq<byte>>): seq<byte>
  {
    if |bodies| == 0 then [] else Frame(bodies[0]) + Frames(bodies[1..])
  }

  predicate Sendable(body: seq<byte>)
  {
    1 <= |body| <= MAX_PACKAGE_SIZE
  }

  /** What onRead makes of the bytes in the buffer: bodies, what stays in the buffer, and whether it met an
      illegal header. */
  datatype Extracted = Extracted(bodies: seq<seq<byte>>, rest: seq<byte>, illegal: bool)

  function Extract(bs: seq<byte>): Extracted
    decreases |bs|
  {
    if |bs| < HEADER_SIZE then Extracted([], bs, false)
    else
      var size := Int64(bs[..HEADER_SIZE]);
      if size <= 0 || size > MAX_PACKAGE_SIZE then Extracted([], bs, true)
      else if |bs| < size + HEADER_SIZE then Extracted([], bs, false)
      else
        var r := Extract(bs[HEADER_SIZE + size..]);
        Extracted([bs[HEADER_SIZE..HEADER_SIZE + size]] + r.bodies, r.rest, r.illegal)
  }

  /** A whole frame at the front comes off first. */
  lemma ExtractFrame(body: seq<byte>, more: seq<byte>)
    requires Sendable(body)
    ensures Extract(Frame(body) + more) ==
              var r := Extract(more); Extracted([body] + r.bodies, r.rest, r.illegal)
  {
    hide Bytes, Int64;
    var bs := Frame(body) + more;
    HeaderRoundTrip(|body|);
    assert bs[..HEADER_SIZE] == Bytes(|body|, HEADER_SIZE);
    assert bs[HEADER_SIZE..HEADER_SIZE + |body|] == body;
    assert bs[HEADER_SIZE + |body|..] == more;
  }

  /** Part of a frame stays in the buffer. */
  lemma ExtractPart(body: seq<byte>, k: nat)
    requires Sendable(body) && k < HEADER_SIZE + |body|
    ensures Extract(Frame(body)[..k]) == Extracted([], Frame(body)[..k], false)
  {
    hide Bytes, Int64;
    var bs := Frame(body)[..k];
    if k >= HEADER_SIZE {
      HeaderRoundTrip(|body|);
      assert bs[..HEADER_SIZE] == Bytes(|body|, HEADER_SIZE);
    }
  }

  /** A stream of frames gives its bodies. */
  lemma {:induction false} ExtractFrames(bodies: seq<seq<byte>>, more: seq<byte>)
    requires forall k :: 0 <= k < |bodies| ==> Sendable(bodies[k])
    ensures Extract(Frames(bodies) + more) ==
              var r := Extract(more); Extracted(bodies + r.bodies, r.rest, r.illegal)
    decreases |bodies|
  {
    hide Extract, Frame;
    if |bodies| == 0 {
      assert Frames(bodies) + more == more;
    } else {
      ExtractFrames(bodies[1..], more);
      ExtractFrame(bodies[0], Frames(bodies[1..]) + more);
      assert Frames(bodies) + more == Frame(bodies[0]) + (Frames(bodies[1..]) + more);
      assert bodies == [bodies[0]] + bodies[1..];
    }
  }

  lemma FramesTake(bodies: seq<seq<byte>>, j: nat)
    requires 0 < j <= |bodies|
    ensures Frames(bodies[..j]) == Frame(bodies[0]) + Frames(bodies[1..][..j - 1])
  {
    assert bodies[..j][1..] == bodies[1..][..j - 1];
  }

  lemma FramesCut(f: seq<byte>, rest: seq<byte>, m: nat, n: nat)
    requires m <= n <= |rest|
    ensures (f + rest)[..|f| + n] == f + rest[..n] && (f + rest)[|f| + m..|f| + n] == rest[m..n]
  {
  }

  /** Any prefix of a stream of frames gives the bodies complete in it and part of one frame. */
  lemma {:induction false} ExtractPrefix(bodies: seq<seq<byte>>, n: nat) returns (j: nat)
    requires forall k :: 0 <= k < |bodies| ==> Sendable(bodies[k])
    requires n <= |Frames(bodies)|
    ensures j <= |bodies| && |Frames(bodies[..j])| <= n
    ensures Extract(Frames(bodies)[..n]) == Extracted(bodies[..j], Frames(bodies)[|Frames(bodies[..j])|..n], false)
    ensures (j < |bodies| ==> n < |Frames(bodies[..j])| + HEADER_SIZE + |bodies[j]|)
    decreases |bodies|
  {
    hide Extract, Frame;
    if |bodies| == 0 {
      j := 0;
      ExtractNothing([]);
      assert Frames(bodies)[..n] == [];
    } else {
      var f, rest := Frame(bodies[0]), Frames(bodies[1..]);
      FrameSize(bodies[0]);
      if n < |f| {
        j := 0;
        ExtractPart(bodies[0], n);
        assert Frames(bodies)[..n] == f[..n];
        assert bodies[..0] == [];
      } else {
        var i := ExtractPrefix(bodies[1..], n - |f|);
        j := i + 1;
        FramesTake(bodies, j);
        ExtractFrame(bodies[0], rest[..n - |f|]);
        FramesCut(f, rest, |Frames(bodies[1..][..i])|, n - |f|);
        assert [bodies[0]] + bodies[1..][..i] == bodies[..j];
      }
    }
  }

  lemma FrameSize(body: seq<byte>)
    ensures |Frame(body)| == HEADER_SIZE + |body|
  {
  }

  lemma ExtractNothing(bs: seq<byte>)
    requires |bs| < HEADER_SIZE
    ensures Extract(bs) == Extracted([], bs, false)
  {
  }

  /** Extracting as bytes arrive is extracting once: what is left over is looked at again with what follows. */
  lemma {:induction false} ExtractAppend(x: seq<byte>, y: seq<byte>)
    requires !Extract(x).illegal
    ensures Extract(x + y) ==
              var s := Extract(Extract(x).rest + y);
              Extracted(Extract(x).bodies + s.bodies, s.rest, s.illegal)
    decreases |x|
  {
    hide Int64, Extract;
    var n := WholeFrame(x);
    if n == 0 {
      ExtractWaits(x);
    } else {
      ExtractTakes(x);
      ExtractAppend(x[n..], y);
      assert (x + y)[..HEADER_SIZE] == x[..HEADER_SIZE];
      ExtractTakes(x + y);
      assert (x + y)[HEADER_SIZE..n] == x[HEADER_SIZE..n];
      assert (x + y)[n..] == x[n..] + y;
    }
  }

  /** The size of a whole legal frame at the front, or 0. */
  function WholeFrame(bs: seq<byte>): (n: nat)
    ensures n > 0 ==> HEADER_SIZE < n <= |bs|
  {
    if |bs| < HEADER_SIZE then 0
    else
      var size := Int64(bs[..HEADER_SIZE]);
      if 0 < size <= MAX_PACKAGE_SIZE && size + HEADER_SIZE <= |bs| then size + HEADER_SIZE else 0
  }

  lemma ExtractWaits(bs: seq<byte>)
    requires WholeFrame(bs) == 0
    ensures Extract(bs) == Extracted([], bs, Extract(bs).illegal)
  {
    hide Int64;
  }

  lemma ExtractTakes(bs: seq<byte>)
    requires WholeFrame(bs) > 0
    ensures var n := WholeFrame(bs); var r := Extract(bs[n..]);
            Extract(bs) == Extracted([bs[HEADER_SIZE..n]] + r.bodies, r.rest, r.illegal)
  {
    hide Int64;
  }

  // ---------------------------------------------------------------- sessions

  /** The file server's session: the connection's input buffer, what was handed to process, and whether the
      connection was to be closed. */
  class Session {
    const input: Buffer
    var processed: seq<seq<byte>>
    var closed: bool

    ghost predicate Valid()
      reads this, input
    {
      input.Valid()
    }

    constructor ()
      ensures Valid() && fresh(input) && processed == [] && !closed && input.Contents() == []
    {
      input := new Buffer(INITIAL_SIZE);
      processed, closed := [], false;
    }

    /** One turn of the loop of onRead. */
    method TakeOne() returns (more: bool, ghost body: seq<byte>)
      requires Valid()
      modifies this, input
      ensures Valid()
      ensures more ==> |input.Contents()| < |old(input.Contents())| && processed == old(processed) + [body]
      ensures more ==> var r := Extract(input.Contents());
                       Extract(old(input.Contents())) == Extracted([body] + r.bodies, r.rest, r.illegal)
      ensures !more ==> processed == old(processed) && input.Contents() == old(input.Contents())
      ensures !more ==> Extract(input.Contents()) == Extracted([], input.Contents(), Extract(input.Contents()).illegal)
      ensures !more && Extract(input.Contents()).illegal ==> closed
    {
      body := [];
      more := false;
      if input.Readable() < HEADER_SIZE { return; }
      ghost var bs := input.Contents();
      var header := input.buffer[input.reader..input.reader + HEADER_SIZE];
      assert header == bs[..HEADER_SIZE];
      var size := Int64(header);
      if size <= 0 || size > MAX_PACKAGE_SIZE {
        closed := true;
        return;
      }
      if input.Readable() < size + HEADER_SIZE { return; }
      var _ := input.Retrieve(HEADER_SIZE);
      var inbuf := input.RetrieveAsString(size);
      assert inbuf == bs[HEADER_SIZE..HEADER_SIZE + size];
      assert input.Contents() == bs[HEADER_SIZE + size..];
      processed := processed + [inbuf];
      body := inbuf;
      var ok: bool := *;
      if !ok { closed := true; }
      more := true;
    }

    /** onRead: process every complete body. */
    method OnRead()
      requires Valid()
      modifies this, input
      ensures Valid()
      ensures processed == old(processed) + Extract(old(input.Contents())).bodies
      ensures input.Contents() == Extract(old(input.Contents())).rest
      ensures Extract(old(input.Contents())).illegal ==> closed
    {
      hide Extract;
      ghost var e, done := Extract(input.Contents()), processed;
      var more := true;
      ghost var got: seq<seq<byte>>, body := [], [];
      while more
        invariant Valid() && processed == done + got
        invariant Joins(got, Extract(input.Contents()), e)
        invariant !more ==>
                  Extract(input.Contents()) == Extracted([], input.Contents(), e.illegal) && (e.illegal ==> closed)
        decreases more, |input.Contents()|
      {
        more, body := TakeOne();
        if more {
          JoinsNext(got, body, Extract(input.Contents()), e);
          got := got + [body];
        }
      }
    }
  }

  /** Bodies taken so far, with what is still to be extracted, make up what there was to extract. */
  ghost predicate Joins(got: seq<seq<byte>>, r: Extracted, e: Extracted)
  {
    e == Extracted(got + r.bodies, r.rest, r.illegal)
  }

  lemma JoinsNext(got: seq<seq<byte>>, body: seq<byte>, r: Extracted, e: Extracted)
    requires Joins(got, Extracted([body] + r.bodies, r.rest, r.illegal), e)
    ensures Joins(got + [body], r, e)
  {
    assert got + ([body] + r.bodies) == got + [body] + r.bodies;
  }

  /** Bodies framed one after another and received in any fragments, with onRead after each: exactly the
      bodies are processed, in order, as soon as they are complete. */
  method Receive(bodies: seq<seq<byte>>, fragments: seq<seq<byte>>) returns (s: Session)
    requires forall k :: 0 <= k < |bodies| ==> Sendable(bodies[k])
    requires Concat(fragments) <= Frames(bodies)
    ensures fresh(s) && s.Valid() && s.processed <= bodies
    ensures Frames(s.processed) + s.input.Contents() == Concat(fragments)
    ensures Concat(fragments) == Frames(bodies) ==> s.processed == bodies && s.input.Contents() == []
    ensures |s.processed| < |bodies| ==> |s.input.Contents()| < HEADER_SIZE + |bodies[|s.processed|]|
  {
    hide Extract, Concat, Frames;
    s := new Session();
    ExtractNothing([]);
    ConcatNone(fragments);
    for k := 0 to |fragments|
      invariant fresh(s) && fresh(s.input) && s.Valid()
      invariant Extracted(s.processed, s.input.Contents(), false) == Extract(Concat(fragments[..k]))
    {
      ghost var before := Concat(fragments[..k]);
      ConcatNext(fragments, k);
      ConcatPrefix(fragments, k + 1);
      StillLegal(bodies, before + fragments[k]);
      ExtractAppend(before, fragments[k]);
      s.input.Append(fragments[k]);
      s.OnRead();
    }
    assert fragments[..|fragments|] == fragments;
    Received(bodies, Concat(fragments), s.processed, s.input.Contents());
  }

  /** No prefix of a stream of frames has an illegal header. */
  lemma StillLegal(bodies: seq<seq<byte>>, bs: seq<byte>)
    requires bs <= Frames(bodies) && forall k :: 0 <= k < |bodies| ==> Sendable(bodies[k])
    ensures !Extract(bs).illegal
  {
    hide *;
    var j := ExtractPrefix(bodies, |bs|);
    assert bs == Frames(bodies)[..|bs|];
  }

  lemma Received(bodies: seq<seq<byte>>, bs: seq<byte>, got: seq<seq<byte>>, rest: seq<byte>)
    requires forall k :: 0 <= k < |bodies| ==> Sendable(bodies[k])
    requires bs <= Frames(bodies) && Extract(bs) == Extracted(got, rest, false)
    ensures got <= bodies && Frames(got) + rest == bs
    ensures bs == Frames(bodies) ==> got == bodies && rest == []
    ensures |got| < |bodies| ==> |rest| < HEADER_SIZE + |bodies[|got|]|
  {
    hide Extract, Frames, Sendable;
    var j := ExtractPrefix(bodies, |bs|);
    assert bs == Frames(bodies)[..|bs|];
    FramesSplit(bodies, j);
    PrefixRest(Frames(bodies), Frames(bodies[..j]), Frames(bodies[j..]), |bs|);
    if bs == Frames(bodies) { ReceivedAll(bodies); }
  }

  lemma PrefixRest(all: seq<byte>, a: seq<byte>, b: seq<byte>, n: nat)
    requires a + b == all && |a| <= n <= |all|
    ensures a + all[|a|..n] == all[..n]
  {
  }

  lemma ReceivedAll(bodies: seq<seq<byte>>)
    requires forall k :: 0 <= k < |bodies| ==> Sendable(bodies[k])
    ensures Extract(Frames(bodies)) == Extracted(bodies, [], false)
  {
    hide Extract, Frames, Sendable;
    ExtractFrames(bodies, []);
    ExtractNothing([]);
    assert Frames(bodies) + [] == Frames(bodies);
    assert bodies + [] == bodies;
  }

  lemma {:induction false} FramesSplit(bodies: seq<seq<byte>>, j: nat)
    requires j <= |bodies|
    ensures Frames(bodies[..j]) + Frames(bodies[j..]) == Frames(bodies)
    decreases j
  {
    hide Frame;
    if j == 0 {
      assert bodies[..0] == [] && bodies[0..] == bodies;
    } else {
      FramesSplit(bodies[1..], j - 1);
      assert bodies[..j][1..] == bodies[1..][..j - 1] && bodies[1..][j - 1..] == bodies[j..];
    }
  }
}
