/** Body framing of sections 4.4 and 3.6.1 of RFC 2616: what a Content-Length or the chunked coding
    delivers, for messages of any size that the parser accepts. */
module HttpFraming {
  import opened Common
  import opened HttpParser
  import opened HttpRun
  import opened HttpSafety
  import opened HttpExecute

  /** Over every run the invariant holds, so no assertion fails; in particular exactly one header byte has
      been counted when a chunk size begins. */
  lemma {:induction false} RunInv(p: Parser, bs: string)
    requires Inv(p)
    ensures Run(p, bs) != Aborted
    ensures Run(p, bs).Running? ==> Inv(Run(p, bs).p)
  {
    hide Step, Inv, Good;
    if |bs| > 0 {
      var n := |bs| - 1;
      RunInv(p, bs[..n]);
      if Run(p, bs[..n]).Running? {
        var q := Run(p, bs[..n]).p;
        StepGood(q, bs[n]);
        GoodNext(ItemOf(q.state), Step(q, bs[n]));
      }
    }
  }

  lemma GoodNext(before: Option<Item>, r: Result)
    requires Good(before, r)
    ensures r != Abort && (r.Next? ==> Inv(r.p))
  {
  }

  // ---------------------------------------------------------------- stepping

  lemma HeaderStep(p: Parser, c: char)
    requires InHeader(p.state) && p.nread < MAX_HEADER_SIZE
    ensures Step(p, c) == Header(p.(nread := p.nread + 1), c)
  {
    hide EitherLine, ResponseLine, RequestLine, Header, Chunk;
  }

  lemma SizeStep(p: Parser, c: char)
    requires InChunk(p.state) && ParsingHeader(p.state) && p.nread < MAX_HEADER_SIZE
    ensures Step(p, c) == Chunk(p.(nread := p.nread + 1), c)
  {
    hide EitherLine, ResponseLine, RequestLine, Header, Chunk;
  }

  lemma DataStep(p: Parser, c: char)
    requires InChunk(p.state) && !ParsingHeader(p.state)
    ensures Step(p, c) == Chunk(p, c)
  {
    hide EitherLine, ResponseLine, RequestLine, Header, Chunk;
  }

  lemma RunOne(p: Parser, bs: string, c: char)
    requires Run(p, bs).Running? && Step(Run(p, bs).p, c).Next?
    ensures var r := Step(Run(p, bs).p, c);
            Run(p, bs + [c]) == Running(r.p, Run(p, bs).events + Events(r.acts, r.own, c))
  {
    hide Step, Events;
    assert (bs + [c])[..|bs|] == bs;
  }

  /** A stretch that continues a run. */
  lemma RunMore(p: Parser, a: string, b: string, q: Parser, e: seq<Event>, q': Parser, e': seq<Event>)
    requires Run(p, a) == Running(q, e) && Run(q, b) == Running(q', e')
    ensures Run(p, a + b) == Running(q', e + e')
  {
    hide Run;
    RunAppend(p, a, b);
  }

  lemma RunSingle(p: Parser, c: char, q: Parser, acts: seq<Act>, own: Option<Item>)
    requires Step(p, c) == Next(q, acts, own)
    ensures Run(p, [c]) == Running(q, Events(acts, own, c))
  {
    hide Step, Events;
    assert [c][..0] == "";
    RunEmpty(p, [c][..0]);
  }

  lemma NoEvents(c: char, k: Item)
    ensures Events([], None, c) == [] && Events([Flush(k)], None, c) == []
    ensures Events([Mark(k)], Some(k), c) == [Byte(k, c)]
    ensures Events([], Some(k), c) == [Byte(k, c)]
  {
    assert [Flush(k)][..0] == [] && [Mark(k)][..0] == [];
  }

  // ---------------------------------------------------------------- a body of known length

  /** The last byte of a body. */
  lemma LastByte(p: Parser, c: char)
    requires p.state.BODY_IDENTITY? && p.length == 1
    ensures Step(p, c) == Next(p.(length := 0, state := NewMessage(p.(length := 0))),
                               [Mark(BODY), FlushWith(BODY), Notify(MESSAGE_COMPLETE)], Some(BODY))
  {
    hide EitherLine, ResponseLine, Header, RequestLine;
    assert NewMessage(p.(length := 0, state := MESSAGE_DONE)) == NewMessage(p.(length := 0));
  }

  lemma LastEvents(c: char)
    ensures Events([Mark(BODY), FlushWith(BODY), Notify(MESSAGE_COMPLETE)], Some(BODY), c) ==
              [Byte(BODY, c)] + [Told(MESSAGE_COMPLETE)]
  {
    var l := Log(map[], []);
    DoThree(l, "", 0, Mark(BODY), FlushWith(BODY), Notify(MESSAGE_COMPLETE));
    DoTwo(l, "", 0, Mark(BODY), FlushWith(BODY));
    DoOne(l, "", 0, [Mark(BODY)]);
    DoOne(l, "", 0, [FlushWith(BODY)]);
    DoOne(l, "", 0, [Notify(MESSAGE_COMPLETE)]);
  }

  /** Exactly as many body bytes as the length says, and not one more, before the message is complete. */
  lemma IdentityBody(p: Parser, body: string)
    requires Inv(p) && p.state.BODY_IDENTITY? && |body| <= p.length
    ensures |body| < p.length ==> Run(p, body) == Running(p.(length := p.length - |body|), Bytes(BODY, body))
    ensures |body| == p.length ==>
              Run(p, body) == Running(p.(length := 0, state := NewMessage(p.(length := 0))),
                                      Bytes(BODY, body) + [Told(MESSAGE_COMPLETE)])
  {
    hide *;
    assert body[..0] == "";
    RunEmpty(p, body[..0]);
    IdentityInv(p);
    if |body| < p.length {
      BodyRun(p, body, 0, p, [], |body|);
      ConsumedIs(p, |body|);
      assert body[..|body|] == body && body[0..|body|] == body;
      assert [] + Bytes(BODY, body) == Bytes(BODY, body);
    } else {
      var n := |body| - 1;
      BodyRun(p, body, 0, p, [], n);
      ConsumedIs(p, n);
      assert body[0..n] == body[..n];
      LastBodyByte(p, body, n);
    }
  }

  lemma LastBodyByte(p: Parser, body: string, n: nat)
    requires n + 1 == |body| == p.length && p.state.BODY_IDENTITY?
    requires Run(p, body[..n]) == Running(p.(length := 1), [] + Bytes(BODY, body[..n]))
    ensures Run(p, body) == Running(p.(length := 0, state := NewMessage(p.(length := 0))),
                                    Bytes(BODY, body) + [Told(MESSAGE_COMPLETE)])
  {
    hide *;
    LastByte(p.(length := 1), body[n]);
    RunOne(p, body[..n], body[n]);
    LastEvents(body[n]);
    BytesSnoc(BODY, body[..n], body[n]);
    assert body == body[..n] + [body[n]];
    assert [] + Bytes(BODY, body[..n]) == Bytes(BODY, body[..n]);
  }

  lemma ConsumedIs(p: Parser, k: nat)
    requires (p.state.BODY_IDENTITY? || p.state.CHUNK_DATA?) && k <= p.length
    ensures Consumed(p, k) == p.(length := p.length - k)
  {
  }

  lemma IdentityInv(p: Parser)
    requires Inv(p) && p.state.BODY_IDENTITY?
    ensures 0 < p.length < ULLONG_MAX && InBody(p.state)
  {
  }

  // ---------------------------------------------------------------- Content-Length

  /** What a Content-Length may look like: digits, with spaces anywhere after the first. */
  predicate LengthText(ds: string)
  {
    |ds| > 0 ==> IsNum(ds[0]) && forall k :: 0 <= k < |ds| ==> IsNum(ds[k]) || ds[k] == ' '
  }

  /** Its value; spaces do not matter. */
  function Decimal(ds: string): nat
    requires LengthText(ds)
  {
    if |ds| == 0 then 0
    else
      var d := Decimal(ds[..|ds| - 1]);
      if ds[|ds| - 1] == ' ' then d else d * 10 + Digit(ds[|ds| - 1])
  }

  /** Without overflow, a further digit does what it should. */
  lemma AccumulateIs(n: nat, base: nat, d: nat)
    requires base >= 1 && n * base + d < ULLONG_MAX
    ensures Accumulate(n, base, d) == Some(n * base + d)
  {
    Grows(n, base);
    SmallMod(n * base + d);
  }

  lemma Grows(n: nat, base: nat)
    requires base >= 1
    ensures n * base >= n
  {
  }

  lemma SmallMod(x: nat)
    requires x < ULLONG_MAX
    ensures x % (ULLONG_MAX + 1) == x
  {
  }

  lemma FirstDigit(p: Parser, c: char)
    requires p.state.VALUE_START? && p.header.H_LENGTH? && IsNum(c) && p.nread < MAX_HEADER_SIZE
    ensures Step(p, c) == Next(p.(nread := p.nread + 1, state := VALUE, index := 0, length := Digit(c)),
                               [Mark(HEADER_VALUE)], Some(HEADER_VALUE))
  {
    hide Step, FieldStart, Field, Value, HeadersDone, HeadersAlmostDone, HeaderAlmostDone, Lower;
    HeaderStep(p, c);
  }

  lemma FurtherDigit(p: Parser, c: char)
    requires p.state.VALUE? && p.header.H_LENGTH? && IsNum(c) && p.nread < MAX_HEADER_SIZE
    requires p.length * 10 + Digit(c) < ULLONG_MAX
    ensures Step(p, c) == Next(p.(nread := p.nread + 1, length := p.length * 10 + Digit(c)), [], Some(HEADER_VALUE))
  {
    hide Step, FieldStart, Field, ValueStart, HeadersDone, HeadersAlmostDone, HeaderAlmostDone, Accumulate;
    HeaderStep(p, c);
    AccumulateIs(p.length, 10, Digit(c));
  }

  lemma FurtherSpace(p: Parser)
    requires p.state.VALUE? && p.header.H_LENGTH? && p.nread < MAX_HEADER_SIZE
    ensures Step(p, ' ') == Next(p.(nread := p.nread + 1), [], Some(HEADER_VALUE))
  {
    hide Step, FieldStart, Field, ValueStart, HeadersDone, HeadersAlmostDone, HeaderAlmostDone, Accumulate;
    HeaderStep(p, ' ');
  }

  /** The parser after the digits of a Content-Length. */
  function AfterDigits(p: Parser, ds: string): Parser
    requires LengthText(ds)
  {
    p.(nread := p.nread + |ds|, state := VALUE, index := 0, length := Decimal(ds))
  }

  /** The text of a Content-Length sets the length to its value. */
  lemma {:induction false} LengthValue(p: Parser, ds: string)
    requires p.state.VALUE_START? && p.header.H_LENGTH? && |ds| > 0 && LengthText(ds) && Decimal(ds) < ULLONG_MAX
    requires p.nread + |ds| <= MAX_HEADER_SIZE
    ensures Run(p, ds) == Running(AfterDigits(p, ds), Bytes(HEADER_VALUE, ds))
  {
    hide Step, Run, Bytes, Digit;
    var n := |ds| - 1;
    var c := ds[n];
    NoEvents(c, HEADER_VALUE);
    BytesSnoc(HEADER_VALUE, ds[..n], c);
    assert ds == ds[..n] + [c];
    if n == 0 {
      FirstDigit(p, c);
      RunSingle(p, c, p.(nread := p.nread + 1, state := VALUE, index := 0, length := Digit(c)), [Mark(HEADER_VALUE)],
                Some(HEADER_VALUE));
      NoBytes(HEADER_VALUE);
      assert Decimal(ds[..0]) == 0;
    } else {
      LengthValue(p, ds[..n]);
      if c == ' ' { FurtherSpace(AfterDigits(p, ds[..n])); } else { FurtherDigit(AfterDigits(p, ds[..n]), c); }
      RunOne(p, ds[..n], c);
    }
  }

  /** A stretch after one without events. */
  lemma RunQuiet(p: Parser, a: string, b: string, q: Parser, q': Parser, e: seq<Event>)
    requires Run(p, a) == Running(q, []) && Run(q, b) == Running(q', e)
    ensures Run(p, a + b) == Running(q', e)
  {
    hide *;
    RunMore(p, a, b, q, [], q', e);
    assert [] + e == e;
  }

  lemma ValueEnd(p: Parser)
    requires p.state.VALUE? && p.nread < MAX_HEADER_SIZE
    ensures Step(p, CR) == Next(p.(nread := p.nread + 1, state := HEADER_ALMOST_DONE), [Flush(HEADER_VALUE)], None)
  {
    hide Step, FieldStart, Field, ValueStart, ValueText, HeadersDone, HeadersAlmostDone, HeaderAlmostDone;
    HeaderStep(p, CR);
  }

  /** A line feed alone ends a value as well. */
  lemma ValueFeed(p: Parser)
    requires p.state.VALUE? && p.header.H_LENGTH? && p.nread < MAX_HEADER_SIZE
    ensures Step(p, LF) == Next(p.(nread := p.nread + 1, state := VALUE_LWS), [Flush(HEADER_VALUE)], None)
  {
    hide Step, FieldStart, Field, ValueStart, ValueText, HeadersDone, HeadersAlmostDone;
    HeaderStep(p, LF);
    assert [Flush(HEADER_VALUE)] + [] == [Flush(HEADER_VALUE)];
  }

  lemma LineEnd(p: Parser)
    requires p.state.HEADER_ALMOST_DONE? && p.header.H_LENGTH? && p.nread < MAX_HEADER_SIZE
    ensures Step(p, LF) == Next(p.(nread := p.nread + 1, state := VALUE_LWS), [], None)
  {
    hide Step, FieldStart, Field, ValueStart, Value, HeadersDone, HeadersAlmostDone;
    HeaderStep(p, LF);
  }

  lemma NoteEvents(c: char)
    ensures Events([Notify(HEADERS_COMPLETE), Notify(MESSAGE_COMPLETE)], None, c) ==
              [Told(HEADERS_COMPLETE), Told(MESSAGE_COMPLETE)]
    ensures Events([Notify(HEADERS_COMPLETE)], None, c) == [Told(HEADERS_COMPLETE)]
    ensures Events([Notify(MESSAGE_COMPLETE)], None, c) == [Told(MESSAGE_COMPLETE)]
  {
    hide Notes;
    var l := Log(map[], []);
    DoTwo(l, "", 0, Notify(HEADERS_COMPLETE), Notify(MESSAGE_COMPLETE));
    DoOne(l, "", 0, [Notify(HEADERS_COMPLETE)]);
    DoOne(l, "", 0, [Notify(MESSAGE_COMPLETE)]);
  }

  /** Where a line feed ends the headers: after the carriage return of an empty line, or at the head of a line. */
  predicate BeforeEnd(s: State)
  {
    s.HEADERS_ALMOST_DONE? || s.FIELD_START? || s.VALUE_LWS?
  }

  lemma HeadersEnd(p: Parser)
    requires BeforeEnd(p.state) && p.nread < MAX_HEADER_SIZE
    ensures Step(p, LF) == HeadersAlmostDone(p.(nread := p.nread + 1, state := HEADERS_ALMOST_DONE), LF)
  {
    hide Step, Field, ValueStart, Value, HeaderAlmostDone, HeadersAlmostDone, HeadersDone;
    HeaderStep(p, LF);
  }

  lemma DoneStep(p: Parser)
    requires BeforeEnd(p.state) && p.nread < MAX_HEADER_SIZE
    requires !p.flags.trailing && !p.flags.upgrade && p.meth != CONNECT && !p.flags.chunked && p.length < ULLONG_MAX
    ensures Step(p, LF).Next? && Step(p, LF).own == None
    ensures var q := p.(nread := 0, upgrade := false, state := HEADERS_DONE);
            && Step(p, LF).p == q.(state := if p.length == 0 then NewMessage(q) else BODY_IDENTITY)
            && Events(Step(p, LF).acts, None, LF) ==
                 if p.length == 0 then [Told(HEADERS_COMPLETE), Told(MESSAGE_COMPLETE)] else [Told(HEADERS_COMPLETE)]
  {
    hide Step, NeedsEof, ShouldKeepAlive, Events;
    HeadersEnd(p);
    NoteEvents(LF);
    assert [Notify(HEADERS_COMPLETE)] + [Notify(MESSAGE_COMPLETE)] ==
      [Notify(HEADERS_COMPLETE), Notify(MESSAGE_COMPLETE)];
    assert [Notify(HEADERS_COMPLETE)] + [] == [Notify(HEADERS_COMPLETE)];
  }

  /** A header state in which a byte cannot change the length: anywhere but in a Content-Length value. */
  predicate KeepsLength(p: Parser)
  {
    && InHeader(p.state) && !p.state.HEADERS_ALMOST_DONE? && !p.state.HEADERS_DONE?
    && ((p.state.VALUE_START? || p.state.VALUE?) ==> !p.header.H_LENGTH?)
  }

  /** The headers in bs have no further Content-Length and do not continue one on the next line. */
  ghost predicate OtherHeaders(p: Parser, bs: string)
  {
    forall i :: 0 <= i < |bs| ==> Run(p, bs[..i]).Running? && KeepsLength(Run(p, bs[..i]).p)
  }

  lemma HeaderLength(p: Parser, c: char)
    requires KeepsLength(p) && Step(p, c).Next?
    ensures Step(p, c).p.length == p.length
  {
    hide Step, HeadersAlmostDone, Token, Lower, CharAt;
    if p.nread < MAX_HEADER_SIZE {
      HeaderStep(p, c);
      AlmostDoneLength(p.(nread := p.nread + 1, state := HEADERS_ALMOST_DONE), c);
    } else {
      TooManyBytes(p, c);
    }
  }

  lemma TooManyBytes(p: Parser, c: char)
    requires InHeader(p.state) && p.nread >= MAX_HEADER_SIZE
    ensures Step(p, c) == Fail(HEADER_OVERFLOW)
  {
  }

  lemma AlmostDoneLength(p: Parser, c: char)
    ensures HeadersAlmostDone(p, c).Next? ==> HeadersAlmostDone(p, c).p.length == p.length
  {
    hide NeedsEof, ShouldKeepAlive;
  }

  lemma {:induction false} OtherHeadersKeep(p: Parser, bs: string)
    requires OtherHeaders(p, bs) && Run(p, bs).Running?
    ensures Run(p, bs).p.length == p.length
  {
    hide Step, KeepsLength;
    if |bs| > 0 {
      var n := |bs| - 1;
      assert bs[..n + 1] == bs;
      forall i | 0 <= i < n ensures Run(p, bs[..n][..i]).Running? && KeepsLength(Run(p, bs[..n][..i]).p) {
        assert bs[..n][..i] == bs[..i];
      }
      OtherHeadersKeep(p, bs[..n]);
      HeaderLength(Run(p, bs[..n]).p, bs[n]);
    }
  }

  predicate LineBreak(eol: string)
  {
    eol == [LF] || eol == [CR, LF]
  }

  /** The parser after the line of a Content-Length value. */
  function AfterLength(p: Parser, ds: string, eol: string): Parser
    requires LengthText(ds)
  {
    AfterDigits(p, ds).(nread := p.nread + |ds| + |eol|, state := VALUE_LWS)
  }

  /** The end of the line. */
  lemma ValueBreak(p: Parser, eol: string)
    requires p.state.VALUE? && p.header.H_LENGTH? && LineBreak(eol) && p.nread + |eol| <= MAX_HEADER_SIZE
    ensures Run(p, eol) == Running(p.(nread := p.nread + |eol|, state := VALUE_LWS), [])
  {
    hide Step, Run, Events;
    var p2 := p.(nread := p.nread + 1, state := HEADER_ALMOST_DONE);
    var p3 := p.(nread := p.nread + |eol|, state := VALUE_LWS);
    NoEvents(CR, HEADER_VALUE);
    NoEvents(LF, HEADER_VALUE);
    if eol == [LF] {
      ValueFeed(p);
      RunSingle(p, LF, p3, [Flush(HEADER_VALUE)], None);
    } else {
      ValueEnd(p);
      LineEnd(p2);
      RunSingle(p, CR, p2, [Flush(HEADER_VALUE)], None);
      RunSingle(p2, LF, p3, [], None);
      RunQuiet(p, [CR], [LF], p2, p3, []);
      assert [CR] + [LF] == [CR, LF];
    }
  }

  lemma LengthLine(p: Parser, ds: string, eol: string)
    requires p.state.VALUE_START? && p.header.H_LENGTH? && |ds| > 0 && LengthText(ds) && Decimal(ds) < ULLONG_MAX
    requires LineBreak(eol) && p.nread + |ds| + |eol| <= MAX_HEADER_SIZE
    ensures Run(p, ds + eol) == Running(AfterLength(p, ds, eol), Bytes(HEADER_VALUE, ds))
  {
    hide Step, Run, Bytes, Decimal, Events, LengthText, LineBreak;
    var p1 := AfterDigits(p, ds);
    LengthValue(p, ds);
    ValueBreak(p1, eol);
    RunMore(p, ds, eol, p1, Bytes(HEADER_VALUE, ds), AfterLength(p, ds, eol), []);
    assert Bytes(HEADER_VALUE, ds) + [] == Bytes(HEADER_VALUE, ds);
  }

  /** The line feed that ends the headers, and a body of the length given. */
  lemma HeadersAndBody(p: Parser, body: string)
    requires BeforeEnd(p.state) && p.nread < MAX_HEADER_SIZE && p.length == |body| < ULLONG_MAX
    requires !p.flags.trailing && !p.flags.upgrade && p.meth != CONNECT && !p.flags.chunked
    ensures Run(p, [LF] + body).Running?
    ensures Run(p, [LF] + body).events == [Told(HEADERS_COMPLETE)] + Bytes(BODY, body) + [Told(MESSAGE_COMPLETE)]
  {
    hide Step, Run, Bytes, NewMessage, Events;
    DoneStep(p);
    var r := Step(p, LF);
    RunSingle(p, LF, r.p, r.acts, r.own);
    if |body| == 0 {
      assert [LF] + body == [LF];
      assert Bytes(BODY, body) == [];
    } else {
      BodyInv(r.p);
      IdentityBody(r.p, body);
      var b := Run(r.p, body);
      RunMore(p, [LF], body, r.p, [Told(HEADERS_COMPLETE)], b.p, b.events);
      assert [Told(HEADERS_COMPLETE)] + (Bytes(BODY, body) + [Told(MESSAGE_COMPLETE)]) ==
             [Told(HEADERS_COMPLETE)] + Bytes(BODY, body) + [Told(MESSAGE_COMPLETE)];
    }
  }

  lemma BodyInv(p: Parser)
    requires p.state.BODY_IDENTITY? && 0 < p.length < ULLONG_MAX
    ensures Inv(p)
  {
  }

  // ---------------------------------------------------------------- chunks

  /** A chunk: the digits of its size, parameters that are ignored, and its payload. */
  datatype Piece = Piece(digits: string, ext: string, payload: string)

  predicate HexDigits(ds: string)
  {
    forall k :: 0 <= k < |ds| ==> Unhex(ds[k]) != -1
  }

  function Hex(ds: string): nat
    requires HexDigits(ds)
  {
    if |ds| == 0 then 0 else (UnhexRange(ds[|ds| - 1]); Hex(ds[..|ds| - 1]) * 16 + Unhex(ds[|ds| - 1]))
  }

  /** The length that the digits of a chunk size set, if they are accepted. */
  function Size(ds: string): Option<nat>
    requires HexDigits(ds)
  {
    if |ds| == 0 then None
    else
      UnhexRange(ds[|ds| - 1]);
      var d := Unhex(ds[|ds| - 1]);
      if |ds| == 1 then Some(d)
      else match Size(ds[..|ds| - 1]) case Some(n) => Accumulate(n, 16, d) case None => None
  }

  /** Without overflow, their value. */
  lemma {:induction false} SizeIs(ds: string)
    requires |ds| > 0 && HexDigits(ds) && Hex(ds) < ULLONG_MAX
    ensures Size(ds) == Some(Hex(ds))
  {
    hide Unhex, Accumulate;
    var n := |ds| - 1;
    UnhexRange(ds[n]);
    if n > 0 {
      SizeIs(ds[..n]);
      AccumulateIs(Hex(ds[..n]), 16, Unhex(ds[n]));
    }
  }

  lemma SizeBelow(ds: string)
    requires HexDigits(ds) && Size(ds).Some?
    ensures 0 < |ds| && Size(ds).value < ULLONG_MAX
  {
    UnhexRange(ds[|ds| - 1]);
  }

  predicate Extension(ext: string)
  {
    |ext| > 0 ==> (ext[0] == ';' || ext[0] == ' ') && forall k :: 0 <= k < |ext| ==> ext[k] != CR
  }

  predicate GoodPiece(c: Piece)
  {
    && HexDigits(c.digits) && Extension(c.ext) && |c.digits| + |c.ext| + 2 <= MAX_HEADER_SIZE
    && Size(c.digits) == Some(|c.payload|) && 0 < |c.payload|
  }

  function Encode(c: Piece): string
  {
    c.digits + c.ext + [CR, LF] + c.payload + [CR, LF]
  }

  lemma FirstHex(p: Parser, c: char)
    requires p.state.CHUNK_SIZE_START? && p.flags.chunked && p.nread == 0 && Unhex(c) != -1
    ensures Unhex(c) >= 0 && Step(p, c) == Next(p.(nread := 1, state := CHUNK_SIZE, length := Unhex(c)), [], None)
  {
    hide Step, Unhex;
    UnhexRange(c);
    SizeStep(p, c);
  }

  lemma FurtherHex(p: Parser, c: char)
    requires p.state.CHUNK_SIZE? && p.flags.chunked && p.nread < MAX_HEADER_SIZE && Unhex(c) != -1
    requires Unhex(c) >= 0 && Accumulate(p.length, 16, Unhex(c)).Some?
    ensures Step(p, c) == Next(p.(nread := p.nread + 1, length := Accumulate(p.length, 16, Unhex(c)).value), [], None)
  {
    hide Step, Accumulate;
    SizeStep(p, c);
  }

  /** The digits of a chunk size set the length. */
  lemma {:induction false} ChunkDigits(p: Parser, ds: string)
    requires p.state.CHUNK_SIZE_START? && p.flags.chunked && p.nread == 0
    requires HexDigits(ds) && Size(ds).Some? && |ds| <= MAX_HEADER_SIZE
    ensures Run(p, ds) == Running(p.(nread := |ds|, state := CHUNK_SIZE, length := Size(ds).value), [])
  {
    hide Step, Run, Unhex, Accumulate;
    var n := |ds| - 1;
    var c := ds[n];
    UnhexRange(c);
    NoEvents(c, BODY);
    assert ds == ds[..n] + [c];
    if n == 0 {
      FirstHex(p, c);
      RunSingle(p, c, p.(nread := 1, state := CHUNK_SIZE, length := Unhex(c)), [], None);
    } else {
      ChunkDigits(p, ds[..n]);
      FurtherHex(p.(nread := n, state := CHUNK_SIZE, length := Size(ds[..n]).value), c);
      RunOne(p, ds[..n], c);
    }
  }

  lemma ExtStep(p: Parser, c: char)
    requires p.flags.chunked && p.nread < MAX_HEADER_SIZE && c != CR
    requires p.state.CHUNK_PARAMETERS? || (p.state.CHUNK_SIZE? && (c == ';' || c == ' '))
    ensures Step(p, c) == Next(p.(nread := p.nread + 1, state := CHUNK_PARAMETERS), [], None)
  {
    hide Step, Accumulate;
    SizeStep(p, c);
  }

  /** The parameters of a chunk are ignored. */
  lemma {:induction false} ChunkExt(p: Parser, ext: string)
    requires p.state.CHUNK_SIZE? && p.flags.chunked && p.nread + |ext| <= MAX_HEADER_SIZE && Extension(ext)
    ensures Run(p, ext) ==
              Running(p.(nread := p.nread + |ext|, state := if ext == "" then CHUNK_SIZE else CHUNK_PARAMETERS), [])
  {
    hide Step, Run;
    if |ext| == 0 {
      RunEmpty(p, ext);
    } else {
      var n := |ext| - 1;
      ChunkExt(p, ext[..n]);
      ExtStep(Run(p, ext[..n]).p, ext[n]);
      RunOne(p, ext[..n], ext[n]);
      NoEvents(ext[n], BODY);
      assert ext == ext[..n] + [ext[n]];
    }
  }

  lemma SizeEnd(p: Parser)
    requires (p.state.CHUNK_SIZE? || p.state.CHUNK_PARAMETERS?) && p.flags.chunked && p.nread < MAX_HEADER_SIZE
    ensures Step(p, CR) == Next(p.(nread := p.nread + 1, state := CHUNK_SIZE_ALMOST_DONE), [], None)
  {
    hide Step, Accumulate, Unhex;
    SizeStep(p, CR);
  }

  lemma SizeLineEnd(p: Parser)
    requires p.state.CHUNK_SIZE_ALMOST_DONE? && p.flags.chunked && p.nread < MAX_HEADER_SIZE
    ensures Step(p, LF) ==
              var q := p.(nread := 0);
              if p.length == 0 then Next(q.(flags := p.flags.(trailing := true), state := FIELD_START), [], None)
              else Next(q.(state := CHUNK_DATA), [], None)
  {
    hide Step, ChunkSize, Unhex;
    SizeStep(p, LF);
  }

  /** The size line of a chunk, from its first digit to its line feed. */
  lemma SizeLine(p: Parser, ds: string, ext: string)
    requires p.state.CHUNK_SIZE_START? && p.flags.chunked && p.nread == 0 && HexDigits(ds) && Extension(ext)
    requires Size(ds).Some? && |ds| + |ext| + 2 <= MAX_HEADER_SIZE
    ensures Run(p, ds + ext + [CR, LF]) ==
              var q := p.(nread := 0, length := Size(ds).value);
              if Size(ds).value == 0 then Running(q.(flags := p.flags.(trailing := true), state := FIELD_START), [])
              else Running(q.(state := CHUNK_DATA), [])
  {
    hide Step, Run, Size;
    var p1 := p.(nread := |ds|, state := CHUNK_SIZE, length := Size(ds).value);
    var p2 := p1.(nread := |ds| + |ext|, state := if ext == "" then CHUNK_SIZE else CHUNK_PARAMETERS);
    var p3 := p2.(nread := |ds| + |ext| + 1, state := CHUNK_SIZE_ALMOST_DONE);
    ChunkDigits(p, ds);
    ChunkExt(p1, ext);
    RunMore(p, ds, ext, p1, [], p2, []);
    SizeEnd(p2);
    SizeLineEnd(p3);
    NoEvents(CR, BODY);
    NoEvents(LF, BODY);
    RunSingle(p2, CR, p3, [], None);
    var r := Step(p3, LF);
    RunSingle(p3, LF, r.p, [], None);
    RunMore(p, ds + ext, [CR], p2, [], p3, []);
    RunMore(p, ds + ext + [CR], [LF], p3, [], r.p, []);
    assert ds + ext + [CR] + [LF] == ds + ext + [CR, LF];
  }

  lemma LastOfChunk(p: Parser, c: char)
    requires p.state.CHUNK_DATA? && p.flags.chunked && p.length == 1
    ensures Step(p, c) == Next(p.(length := 0, state := CHUNK_DATA_ALMOST_DONE), [Mark(BODY)], Some(BODY))
  {
    hide Step, ChunkSize, Unhex;
    DataStep(p, c);
  }

  lemma DataEnd(p: Parser)
    requires p.flags.chunked
    ensures p.state.CHUNK_DATA_ALMOST_DONE? && p.length == 0 ==>
              Step(p, CR) == Next(p.(state := CHUNK_DATA_DONE), [Flush(BODY)], None)
    ensures p.state.CHUNK_DATA_DONE? ==> Step(p, LF) == Next(p.(nread := 0, state := CHUNK_SIZE_START), [], None)
  {
    hide Step, ChunkSize, Unhex;
    if p.state.CHUNK_DATA_ALMOST_DONE? { DataStep(p, CR); }
    if p.state.CHUNK_DATA_DONE? { DataStep(p, LF); }
  }

  /** The payload of a chunk. */
  lemma PayloadBytes(p: Parser, bs: string)
    requires p.state.CHUNK_DATA? && p.flags.chunked && p.length == |bs| && 0 < |bs| < ULLONG_MAX
    ensures Run(p, bs) == Running(p.(length := 0, state := CHUNK_DATA_ALMOST_DONE), Bytes(BODY, bs))
  {
    hide *;
    var n := |bs| - 1;
    var c := bs[n];
    ChunkInv(p);
    assert bs[..0] == "" && bs[0..n] == bs[..n];
    RunEmpty(p, bs[..0]);
    BodyRun(p, bs, 0, p, [], n);
    ConsumedIs(p, n);
    assert [] + Bytes(BODY, bs[..n]) == Bytes(BODY, bs[..n]);
    LastOfChunk(p.(length := 1), c);
    RunOne(p, bs[..n], c);
    NoEvents(c, BODY);
    BytesSnoc(BODY, bs[..n], c);
    assert bs == bs[..n] + [c];
  }

  /** The line end after a payload. */
  lemma PayloadEnd(p: Parser)
    requires p.state.CHUNK_DATA_ALMOST_DONE? && p.flags.chunked && p.length == 0
    ensures Run(p, [CR, LF]) == Running(p.(nread := 0, state := CHUNK_SIZE_START), [])
  {
    hide *;
    var p2 := p.(state := CHUNK_DATA_DONE);
    var p3 := p.(nread := 0, state := CHUNK_SIZE_START);
    DataEnd(p);
    DataEnd(p2);
    NoEvents(CR, BODY);
    NoEvents(LF, BODY);
    RunSingle(p, CR, p2, [Flush(BODY)], None);
    RunSingle(p2, LF, p3, [], None);
    RunQuiet(p, [CR], [LF], p2, p3, []);
    assert [CR] + [LF] == [CR, LF];
  }

  lemma Payload(p: Parser, bs: string)
    requires p.state.CHUNK_DATA? && p.flags.chunked && p.nread == 0 && p.length == |bs| && 0 < |bs| < ULLONG_MAX
    ensures Run(p, bs + [CR, LF]) == Running(p.(length := 0, state := CHUNK_SIZE_START), Bytes(BODY, bs))
  {
    hide *;
    var p1 := p.(length := 0, state := CHUNK_DATA_ALMOST_DONE);
    PayloadBytes(p, bs);
    PayloadEnd(p1);
    RunMore(p, bs, [CR, LF], p1, Bytes(BODY, bs), p.(length := 0, state := CHUNK_SIZE_START), []);
    assert Bytes(BODY, bs) + [] == Bytes(BODY, bs);
  }

  lemma ChunkInv(p: Parser)
    requires p.state.CHUNK_DATA? && p.flags.chunked && 0 < p.length < ULLONG_MAX
    ensures Inv(p) && InBody(p.state)
  {
  }

  /** One chunk delivers its payload. */
  lemma OneChunk(p: Parser, c: Piece)
    requires p.state.CHUNK_SIZE_START? && p.flags.chunked && p.nread == 0 && GoodPiece(c)
    ensures Run(p, Encode(c)) == Running(p.(length := 0), Bytes(BODY, c.payload))
  {
    hide Step, Run, Bytes, Size;
    SizeBelow(c.digits);
    var line := c.digits + c.ext + [CR, LF];
    var p1 := p.(nread := 0, length := |c.payload|, state := CHUNK_DATA);
    SizeLine(p, c.digits, c.ext);
    Payload(p1, c.payload);
    RunMore(p, line, c.payload + [CR, LF], p1, [], p.(length := 0), Bytes(BODY, c.payload));
    assert line + (c.payload + [CR, LF]) == Encode(c);
  }

  function EncodeAll(cs: seq<Piece>): string
  {
    if |cs| == 0 then "" else EncodeAll(cs[..|cs| - 1]) + Encode(cs[|cs| - 1])
  }

  function Payloads(cs: seq<Piece>): string
  {
    if |cs| == 0 then "" else Payloads(cs[..|cs| - 1]) + cs[|cs| - 1].payload
  }

  lemma {:induction false} AllChunks(p: Parser, cs: seq<Piece>)
    requires p.state.CHUNK_SIZE_START? && p.flags.chunked && p.nread == 0
    requires forall k :: 0 <= k < |cs| ==> GoodPiece(cs[k])
    ensures Run(p, EncodeAll(cs)) == Running(p.(length := if |cs| == 0 then p.length else 0), Bytes(BODY, Payloads(cs)))
  {
    hide Step, Run, Bytes, GoodPiece, Encode;
    if |cs| == 0 {
      RunEmpty(p, "");
      NoBytes(BODY);
    } else {
      var n := |cs| - 1;
      AllChunks(p, cs[..n]);
      var q := p.(length := if n == 0 then p.length else 0);
      OneChunk(q, cs[n]);
      RunMore(p, EncodeAll(cs[..n]), Encode(cs[n]), q, Bytes(BODY, Payloads(cs[..n])), p.(length := 0),
              Bytes(BODY, cs[n].payload));
      BytesAppend(BODY, Payloads(cs[..n]), cs[n].payload);
    }
  }

  // ---------------------------------------------------------------- the last chunk and the trailer

  predicate InTrailer(p: Parser)
  {
    p.flags.trailing && InHeader(p.state) && !p.state.HEADERS_DONE?
  }

  /** Events of header fields and values only: no body, no notification. */
  predicate HeaderData(es: seq<Event>)
  {
    forall k :: 0 <= k < |es| ==> es[k].Byte? && (es[k].i == HEADER_FIELD || es[k].i == HEADER_VALUE)
  }

  /** Header data, then the end of the message. */
  predicate EndsMessage(es: seq<Event>)
  {
    |es| > 0 && es[|es| - 1] == Told(MESSAGE_COMPLETE) && HeaderData(es[..|es| - 1])
  }

  /** A result within a trailer, or at its end. */
  predicate TrailerResult(r: Result)
  {
    match r
    case Next(q, acts, own) =>
      || (InTrailer(q) && own != Some(BODY) && own != Some(URL) && forall k :: 0 <= k < |acts| ==> !acts[k].Notify?)
      || (!InHeader(q.state) && !InChunk(q.state) && acts == [Notify(MESSAGE_COMPLETE)] && own == None)
    case Leave(_, _) => false
    case _ => true
  }

  lemma TrailerEnd(p: Parser, c: char)
    requires p.flags.trailing
    ensures TrailerResult(HeadersAlmostDone(p, c))
  {
    hide ShouldKeepAlive;
  }

  lemma TrailerField(p: Parser, c: char)
    requires InTrailer(p)
    ensures TrailerResult(FieldStart(p.(state := FIELD_START), c)) && (p.state.FIELD? ==> TrailerResult(Field(p, c)))
  {
    hide HeadersAlmostDone, Token;
    TrailerEnd(p.(state := HEADERS_ALMOST_DONE), c);
  }

  lemma TrailerValue(p: Parser, c: char)
    requires InTrailer(p) && p.state.VALUE_START?
    ensures TrailerResult(ValueStart(p, c))
  {
    hide Lower;
  }

  lemma TrailerText(p: Parser, c: char)
    requires InTrailer(p) && p.state.VALUE?
    ensures TrailerResult(ValueText(p, c))
  {
    hide Accumulate, Lower, Matching;
    MatchingKeeps(p, c);
  }

  lemma TrailerLine(p: Parser, c: char)
    requires InTrailer(p)
    ensures p.state.VALUE? ==> TrailerResult(Value(p, c))
    ensures p.state.HEADER_ALMOST_DONE? ==> TrailerResult(HeaderAlmostDone(p, c))
  {
    hide ValueText;
    if p.state.VALUE? { TrailerText(p, c); }
  }

  lemma MatchingKeeps(p: Parser, c: char)
    ensures forall name, whole :: Matching(p, Lower(c), name, whole).state == p.state
              && Matching(p, Lower(c), name, whole).flags == p.flags
  {
  }

  /** A byte of a trailer stays within it or ends the message. */
  lemma TrailerStep(p: Parser, c: char)
    requires InTrailer(p)
    ensures TrailerResult(Step(p, c))
  {
    hide FieldStart, Field, ValueStart, Value, HeaderAlmostDone, HeadersAlmostDone, HeadersDone, Step;
    if p.nread < MAX_HEADER_SIZE {
      HeaderStep(p, c);
      var q := p.(nread := p.nread + 1);
      TrailerField(q, c);
      if q.state.VALUE_START? { TrailerValue(q, c); }
      TrailerLine(q, c);
      TrailerEnd(q, c);
    } else {
      TooManyBytes(p, c);
    }
  }

  lemma {:induction false} NoNotes(acts: seq<Act>)
    requires forall k :: 0 <= k < |acts| ==> !acts[k].Notify?
    ensures Notes(acts) == []
  {
    if |acts| > 0 { NoNotes(acts[..|acts| - 1]); }
  }

  lemma TrailerEvents(p: Parser, c: char)
    requires InTrailer(p) && Step(p, c).Next?
    ensures var r := Step(p, c);
            if InHeader(r.p.state) then InTrailer(r.p) && HeaderData(Events(r.acts, r.own, c))
            else Events(r.acts, r.own, c) == [Told(MESSAGE_COMPLETE)]
  {
    hide Step, Notes, InHeader;
    TrailerStep(p, c);
    NoteEvents(c);
    var r := Step(p, c);
    if InHeader(r.p.state) { NoNotes(r.acts); }
  }

  /** Within a trailer only header fields and values are delivered. */
  lemma {:induction false} TrailerData(p: Parser, t: string)
    requires InTrailer(p)
    requires forall i :: 0 <= i <= |t| ==> Run(p, t[..i]).Running? && InHeader(Run(p, t[..i]).p.state)
    ensures Run(p, t).Running? && InTrailer(Run(p, t).p) && HeaderData(Run(p, t).events)
    decreases |t|
  {
    hide Step, Run, InTrailer, InHeader, Events;
    if |t| == 0 {
      RunEmpty(p, t);
    } else {
      var n := |t| - 1;
      forall i | 0 <= i <= n ensures Run(p, t[..n][..i]).Running? && InHeader(Run(p, t[..n][..i]).p.state) {
        assert t[..n][..i] == t[..i];
      }
      TrailerData(p, t[..n]);
      assert t[..|t|] == t;
      RunNext(p, t, n);
      TrailerEvents(Run(p, t[..n]).p, t[n]);
    }
  }

  /** A whole trailer: header lines, if any, and an empty line. It takes the parser out of the headers, at its last
      byte. */
  ghost predicate Trailer(p: Parser, t: string)
  {
    && |t| > 0 && Run(p, t).Running? && !InHeader(Run(p, t).p.state)
    && forall i :: 0 <= i < |t| ==> Run(p, t[..i]).Running? && InHeader(Run(p, t[..i]).p.state)
  }

  /** It delivers its fields and values, and then the message is complete. */
  lemma TrailerMessage(p: Parser, t: string)
    requires InTrailer(p) && Trailer(p, t)
    ensures EndsMessage(Run(p, t).events)
  {
    hide Step, Run, InTrailer, InHeader, Events;
    var n := |t| - 1;
    forall i | 0 <= i <= n ensures Run(p, t[..n][..i]).Running? && InHeader(Run(p, t[..n][..i]).p.state) {
      assert t[..n][..i] == t[..i];
    }
    TrailerData(p, t[..n]);
    assert t[..|t|] == t;
    RunNext(p, t, n);
    TrailerEvents(Run(p, t[..n]).p, t[n]);
  }

  /** The parser after the size line of the last chunk. */
  function AtTrailer(p: Parser): Parser
  {
    p.(nread := 0, length := 0, flags := p.flags.(trailing := true), state := FIELD_START)
  }

  /** The last chunk: a size of zero, however written, parameters, and a trailer. */
  datatype Last = Last(digits: string, ext: string, trailer: string)

  ghost predicate GoodLast(p: Parser, l: Last)
  {
    && HexDigits(l.digits) && Size(l.digits) == Some(0) && Extension(l.ext)
    && |l.digits| + |l.ext| + 2 <= MAX_HEADER_SIZE && Trailer(AtTrailer(p), l.trailer)
  }

  function EncodeLast(l: Last): string
  {
    l.digits + l.ext + [CR, LF] + l.trailer
  }

  /** The last chunk delivers its trailer and ends the message. */
  lemma LastChunk(p: Parser, l: Last)
    requires p.state.CHUNK_SIZE_START? && p.flags.chunked && p.nread == 0 && GoodLast(p, l)
    ensures Run(p, EncodeLast(l)) == Run(AtTrailer(p), l.trailer)
  {
    hide Step, Run, Size, Trailer, Extension;
    var q, r := AtTrailer(p), Run(AtTrailer(p), l.trailer);
    assert r.Running? by { TrailerRuns(q, l.trailer); }
    SizeLine(p, l.digits, l.ext);
    RunQuiet(p, l.digits + l.ext + [CR, LF], l.trailer, q, r.p, r.events);
  }

  lemma TrailerRuns(p: Parser, t: string)
    requires Trailer(p, t)
    ensures Run(p, t).Running?
  {
  }

  /** A chunked body delivers exactly the payloads of its chunks, one after another, then what the trailer has, which
      is no body, and then the message is complete. */
  lemma ChunkedMessage(p: Parser, cs: seq<Piece>, l: Last)
    requires p.state.CHUNK_SIZE_START? && p.flags.chunked && p.nread == 0 && GoodLast(p, l)
    requires forall k :: 0 <= k < |cs| ==> GoodPiece(cs[k])
    ensures Run(p, EncodeAll(cs) + EncodeLast(l)).Running?
    ensures Run(p, EncodeAll(cs) + EncodeLast(l)).events ==
              Bytes(BODY, Payloads(cs)) + Run(AtTrailer(p), l.trailer).events
    ensures EndsMessage(Run(AtTrailer(p), l.trailer).events)
  {
    hide Step, Run, Bytes, GoodPiece, HexDigits, Size, Extension, Trailer, EndsMessage;
    AllChunks(p, cs);
    var q := p.(length := if |cs| == 0 then p.length else 0);
    assert AtTrailer(q) == AtTrailer(p);
    LastChunk(q, l);
    TrailerRuns(AtTrailer(p), l.trailer);
    TrailerMessage(AtTrailer(p), l.trailer);
    var r := Run(q, EncodeLast(l));
    RunMore(p, EncodeAll(cs), EncodeLast(l), q, Bytes(BODY, Payloads(cs)), r.p, r.events);
  }

  /** From the line feed that ends the headers of a chunked message on. */
  lemma ChunkedBody(p: Parser, cs: seq<Piece>, l: Last)
    requires BeforeEnd(p.state) && p.nread < MAX_HEADER_SIZE && p.flags.chunked
    requires !p.flags.trailing && !p.flags.upgrade && p.meth != CONNECT
    requires GoodLast(AtChunks(p), l) && forall k :: 0 <= k < |cs| ==> GoodPiece(cs[k])
    ensures Run(p, [LF] + (EncodeAll(cs) + EncodeLast(l))).Running?
    ensures Run(p, [LF] + (EncodeAll(cs) + EncodeLast(l))).events ==
              [Told(HEADERS_COMPLETE)] + (Bytes(BODY, Payloads(cs)) + Run(AtTrailer(AtChunks(p)), l.trailer).events)
    ensures EndsMessage(Run(AtTrailer(AtChunks(p)), l.trailer).events)
  {
    hide Step, Run, Bytes, GoodPiece, Events, HexDigits, Size, Extension, Trailer, EndsMessage;
    var q := AtChunks(p);
    ChunkedStart(p);
    NoteEvents(LF);
    RunSingle(p, LF, q, [Notify(HEADERS_COMPLETE)], None);
    ChunkedMessage(q, cs, l);
    var rest := EncodeAll(cs) + EncodeLast(l);
    var r := Run(q, rest);
    RunMore(p, [LF], rest, q, [Told(HEADERS_COMPLETE)], r.p, r.events);
  }

  /** The parser at the first chunk. */
  function AtChunks(p: Parser): Parser
  {
    p.(nread := 0, upgrade := false, state := CHUNK_SIZE_START)
  }

  lemma ChunkedStart(p: Parser)
    requires BeforeEnd(p.state) && p.nread < MAX_HEADER_SIZE && p.flags.chunked
    requires !p.flags.trailing && !p.flags.upgrade && p.meth != CONNECT
    ensures Step(p, LF) == Next(AtChunks(p), [Notify(HEADERS_COMPLETE)], None)
  {
    hide Step, NeedsEof, ShouldKeepAlive;
    HeadersEnd(p);
    assert [Notify(HEADERS_COMPLETE)] + [] == [Notify(HEADERS_COMPLETE)];
  }
}
