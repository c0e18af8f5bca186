/** The two headers that say how a body is framed, from the first letter of their names on: the parser recognises
    Content-Length, and Transfer-Encoding with the value chunked, in any letter case. */
module HttpHeaders {
  import opened Common
  import opened HttpParser
  import opened HttpRun
  import opened HttpSafety
  import opened HttpExecute
  import opened HttpFraming

  /** The text is the name, letters in either case. */
  predicate Names(name: string, s: string)
  {
    |s| == |name| && forall k :: 0 <= k < |s| ==> Token(s[k]) == name[k]
  }

  /** At the head of a header line. */
  predicate AtLine(s: State)
  {
    s.FIELD_START? || s.VALUE_LWS?
  }

  predicate Blank(s: string)
  {
    forall k :: 0 <= k < |s| ==> s[k] == ' ' || s[k] == '\t'
  }

  const CONTENT_LENGTH: string := "content-length"
  const TRANSFER_ENCODING: string := "transfer-encoding"
  const CHUNKED: string := "chunked"

  // ---------------------------------------------------------------- names

  /** What the parser expects after k letters of each name. */
  function LengthSoFar(k: nat): HeaderState
  {
    if k <= 1 then H_C else if k == 2 then H_CO else if k == 3 then H_CON
    else if k < |CONTENT_LENGTH| then H_MATCHING_LENGTH else H_LENGTH
  }

  function EncodingSoFar(k: nat): HeaderState
  {
    if k < |TRANSFER_ENCODING| then H_MATCHING_ENCODING else H_ENCODING
  }

  /** After k letters of a field name. */
  function InName(p: Parser, k: nat, h: HeaderState): Parser
    requires k > 0
  {
    p.(nread := p.nread + k, state := FIELD, index := k - 1, header := h)
  }

  lemma FirstLetter(p: Parser, c: char, t: char)
    requires AtLine(p.state) && p.nread < MAX_HEADER_SIZE && Token(c) == t && (t == 'c' || t == 't')
    ensures Step(p, c) ==
              Next(InName(p, 1, if t == 'c' then H_C else H_MATCHING_ENCODING),
                   [Mark(HEADER_FIELD)], Some(HEADER_FIELD))
  {
    hide Step, Field, ValueStart, Value, HeaderAlmostDone, HeadersAlmostDone, HeadersDone, Lower;
    HeaderStep(p, c);
  }

  lemma FieldStep(p: Parser, c: char)
    requires p.state.FIELD? && p.nread < MAX_HEADER_SIZE && Token(c) != '\0'
    ensures Step(p, c) == match FieldName(p.(nread := p.nread + 1), Token(c))
                          case Some(q) => Next(q, [], Some(HEADER_FIELD))
                          case None => Abort
  {
    hide Step, FieldStart, ValueStart, Value, HeaderAlmostDone, HeadersAlmostDone, HeadersDone, Token, FieldName;
    HeaderStep(p, c);
  }

  function SoFar(length: bool, k: nat): HeaderState
  {
    if length then LengthSoFar(k) else EncodingSoFar(k)
  }

  function NameOf(length: bool): string
  {
    if length then CONTENT_LENGTH else TRANSFER_ENCODING
  }

  /** One more letter of a name. */
  lemma NextLetter(p: Parser, k: nat, length: bool)
    requires 0 < k < |NameOf(length)|
    ensures FieldName(InName(p, k, SoFar(length, k)).(nread := p.nread + k + 1), NameOf(length)[k]) ==
              Some(InName(p, k + 1, SoFar(length, k + 1)))
  {
  }

  lemma FirstRead(p: Parser, c: char, length: bool)
    requires AtLine(p.state) && p.nread < MAX_HEADER_SIZE && Token(c) == NameOf(length)[0]
    ensures Run(p, [c]) == Running(InName(p, 1, SoFar(length, 1)), Bytes(HEADER_FIELD, [c]))
  {
    hide Step, Run, Bytes, Events, Token;
    FirstLetter(p, c, if length then 'c' else 't');
    NoEvents(c, HEADER_FIELD);
    NoBytes(HEADER_FIELD);
    BytesSnoc(HEADER_FIELD, "", c);
    assert "" + [c] == [c];
    RunSingle(p, c, InName(p, 1, SoFar(length, 1)), [Mark(HEADER_FIELD)], Some(HEADER_FIELD));
  }

  /** Reading a name brings the parser to where it knows the header. */
  lemma {:induction false} NameRead(p: Parser, s: string, k: nat, length: bool)
    requires AtLine(p.state) && Names(NameOf(length), s) && 0 < k <= |s| && p.nread + k <= MAX_HEADER_SIZE
    ensures Run(p, s[..k]) == Running(InName(p, k, SoFar(length, k)), Bytes(HEADER_FIELD, s[..k]))
  {
    hide Step, Run, Bytes, Events, FieldName, Token, SoFar, NameOf;
    var c := s[k - 1];
    NoNul(length);
    if k == 1 {
      assert s[..1] == [c];
      FirstRead(p, c, length);
    } else {
      NameRead(p, s, k - 1, length);
      FieldStep(InName(p, k - 1, SoFar(length, k - 1)), c);
      NextLetter(p, k - 1, length);
      NoEvents(c, HEADER_FIELD);
      BytesSnoc(HEADER_FIELD, s[..k - 1], c);
      assert s[..k] == s[..k - 1] + [c];
      RunOne(p, s[..k - 1], c);
    }
  }

  lemma NoNul(length: bool)
    ensures forall k :: 0 <= k < |NameOf(length)| ==> NameOf(length)[k] != '\0'
  {
  }

  // ---------------------------------------------------------------- the colon and blanks

  lemma Colon(p: Parser)
    requires p.state.FIELD? && p.nread < MAX_HEADER_SIZE
    ensures Step(p, ':') == Next(p.(nread := p.nread + 1, state := VALUE_START), [Flush(HEADER_FIELD)], None)
  {
    hide Step, FieldStart, ValueStart, Value, HeaderAlmostDone, HeadersAlmostDone, HeadersDone, FieldName;
    HeaderStep(p, ':');
    assert Token(':') == '\0';
  }

  lemma BlankStep(p: Parser, c: char)
    requires p.state.VALUE_START? && p.nread < MAX_HEADER_SIZE && (c == ' ' || c == '\t')
    ensures Step(p, c) == Next(p.(nread := p.nread + 1), [], None)
  {
    hide Step, FieldStart, Field, Value, HeaderAlmostDone, HeadersAlmostDone, HeadersDone, Lower;
    HeaderStep(p, c);
  }

  lemma {:induction false} Blanks(p: Parser, s: string)
    requires p.state.VALUE_START? && Blank(s) && p.nread + |s| <= MAX_HEADER_SIZE
    ensures Run(p, s) == Running(p.(nread := p.nread + |s|), [])
  {
    hide Step, Run, Events;
    if |s| == 0 {
      RunEmpty(p, s);
    } else {
      var n := |s| - 1;
      Blanks(p, s[..n]);
      assert s == s[..n] + [s[n]];
      BlankStep(p.(nread := p.nread + n), s[n]);
      NoEvents(s[n], HEADER_VALUE);
      RunOne(p, s[..n], s[n]);
    }
  }

  /** A name, its colon, and blanks. */
  function AtValue(p: Parser, name: string, blanks: string, h: HeaderState): Parser
    requires |name| > 0
  {
    p.(nread := p.nread + |name| + 1 + |blanks|, state := VALUE_START, index := |name| - 1, header := h)
  }

  /** A header line, and what it delivers. */
  function Line(s: string, blanks: string, v: string, eol: string): string
  {
    s + ":" + blanks + (v + eol)
  }

  function LineEvents(s: string, v: string): seq<Event>
  {
    Bytes(HEADER_FIELD, s) + Bytes(HEADER_VALUE, v)
  }

  /** The line, other headers, the line feed that ends them, and a body; and what that delivers. */
  function Message(line: string, others: string, body: string): string
  {
    line + others + ([LF] + body)
  }

  function MessageEvents(line: seq<Event>, others: seq<Event>, body: seq<Event>): seq<Event>
  {
    line + others + ([Told(HEADERS_COMPLETE)] + body)
  }

  function AtLength(p: Parser, blanks: string): Parser
  {
    AtValue(p, CONTENT_LENGTH, blanks, H_LENGTH)
  }

  function AtEncoding(p: Parser, blanks: string): Parser
  {
    AtValue(p, TRANSFER_ENCODING, blanks, H_ENCODING)
  }

  /** "Content-Length:" and "Transfer-Encoding:", in any letter case, lead to the state of their values. */
  lemma Recognised(p: Parser, s: string, blanks: string, length: bool)
    requires AtLine(p.state) && Names(NameOf(length), s) && Blank(blanks)
    requires p.nread + |s| + 1 + |blanks| <= MAX_HEADER_SIZE
    ensures Run(p, s + ":" + blanks) ==
              Running(if length then AtLength(p, blanks) else AtEncoding(p, blanks), Bytes(HEADER_FIELD, s))
  {
    hide Step, Run, Bytes, Names, Token, Events, Blank, SoFar;
    NameEnd(s, length);
    var h := if length then H_LENGTH else H_ENCODING;
    assert s[..|s|] == s;
    NameRead(p, s, |s|, length);
    var p1 := InName(p, |s|, h);
    var p2 := AtValue(p, NameOf(length), "", h);
    Colon(p1);
    NoEvents(':', HEADER_FIELD);
    RunSingle(p1, ':', p2, [Flush(HEADER_FIELD)], None);
    RunMore(p, s, ":", p1, Bytes(HEADER_FIELD, s), p2, []);
    assert Bytes(HEADER_FIELD, s) + [] == Bytes(HEADER_FIELD, s);
    Blanks(p2, blanks);
    RunMore(p, s + ":", blanks, p2, Bytes(HEADER_FIELD, s), AtValue(p, NameOf(length), blanks, h), []);
  }

  lemma NameEnd(s: string, length: bool)
    requires Names(NameOf(length), s)
    ensures |s| == |NameOf(length)| > 0 && SoFar(length, |s|) == if length then H_LENGTH else H_ENCODING
  {
  }

  // ---------------------------------------------------------------- Content-Length

  /** Headers that end where a body may follow, which no other protocol takes over. */
  predicate BodyFollows(p: Parser)
  {
    BeforeEnd(p.state) && p.nread < MAX_HEADER_SIZE && !p.flags.trailing && !p.flags.upgrade && p.meth != CONNECT
  }

  /** A message with a Content-Length of N on one line, its name in any letter case: whatever other headers follow, the
      headers are complete, then exactly N bytes are delivered as the body, then the message is complete. */
  lemma ContentLengthMessage(p: Parser, s: string, blanks: string, ds: string, eol: string, q: Parser, others: string,
                             body: string)
    requires AtLine(p.state) && Names(CONTENT_LENGTH, s) && Blank(blanks)
    requires |ds| > 0 && LengthText(ds) && Decimal(ds) < ULLONG_MAX && LineBreak(eol) && |body| == Decimal(ds)
    requires p.nread + |s| + 1 + |blanks| + |ds| + |eol| <= MAX_HEADER_SIZE
    requires q == AfterLength(AtLength(p, blanks), ds, eol) && OtherHeaders(q, others) && Run(q, others).Running?
    requires BodyFollows(Run(q, others).p) && !Run(q, others).p.flags.chunked
    ensures Run(p, Message(Line(s, blanks, ds, eol), others, body)).Running?
    ensures Run(p, Message(Line(s, blanks, ds, eol), others, body)).events ==
              MessageEvents(LineEvents(s, ds), Run(q, others).events, Bytes(BODY, body) + [Told(MESSAGE_COMPLETE)])
  {
    hide Run, Bytes, Decimal, OtherHeaders, LineBreak, LengthText, Names, Blank;
    var e := Run(q, others).events;
    LengthHeader(p, s, blanks, ds, eol);
    OtherHeadersKeep(q, others);
    RunMore(p, Line(s, blanks, ds, eol), others, q, LineEvents(s, ds), Run(q, others).p, e);
    HeadersAndBody(Run(q, others).p, body);
    var done := Run(Run(q, others).p, [LF] + body);
    RunMore(p, Line(s, blanks, ds, eol) + others, [LF] + body, Run(q, others).p, LineEvents(s, ds) + e, done.p,
            done.events);
    var b, t := Bytes(BODY, body), [Told(MESSAGE_COMPLETE)];
    assert [Told(HEADERS_COMPLETE)] + b + t == [Told(HEADERS_COMPLETE)] + (b + t);
  }

  /** The header line sets the length. */
  lemma LengthHeader(p: Parser, s: string, blanks: string, ds: string, eol: string)
    requires AtLine(p.state) && Names(CONTENT_LENGTH, s) && Blank(blanks)
    requires |ds| > 0 && LengthText(ds) && Decimal(ds) < ULLONG_MAX && LineBreak(eol)
    requires p.nread + |s| + 1 + |blanks| + |ds| + |eol| <= MAX_HEADER_SIZE
    ensures Run(p, Line(s, blanks, ds, eol)) == Running(AfterLength(AtLength(p, blanks), ds, eol), LineEvents(s, ds))
  {
    hide Run, Bytes, Decimal, LineBreak, LengthText, Names, Blank;
    var p1 := AtLength(p, blanks);
    Recognised(p, s, blanks, true);
    LengthFields(p, s, blanks);
    LengthLine(p1, ds, eol);
    RunMore(p, s + ":" + blanks, ds + eol, p1, Bytes(HEADER_FIELD, s), AfterLength(p1, ds, eol),
            Bytes(HEADER_VALUE, ds));
  }

  lemma LengthFields(p: Parser, s: string, blanks: string)
    requires Names(CONTENT_LENGTH, s)
    ensures var q := AtLength(p, blanks);
            q.state.VALUE_START? && q.header.H_LENGTH? && q.nread == p.nread + |s| + 1 + |blanks|
  {
  }

  // ---------------------------------------------------------------- Transfer-Encoding: chunked

  predicate SaysChunked(v: string)
  {
    |v| == |CHUNKED| && forall k :: 0 <= k < |v| ==> Lower(v[k]) == CHUNKED[k]
  }

  /** After k letters of the value. */
  function InValue(p: Parser, k: nat): Parser
    requires k > 0
  {
    p.(nread := p.nread + k, state := VALUE, index := k - 1,
       header := if k < |CHUNKED| then H_MATCHING_CHUNKED else H_CHUNKED)
  }

  lemma FirstOfChunked(p: Parser, c: char)
    requires p.state.VALUE_START? && p.header.H_ENCODING? && Lower(c) == 'c' && p.nread < MAX_HEADER_SIZE
    ensures Step(p, c) == Next(InValue(p, 1), [Mark(HEADER_VALUE)], Some(HEADER_VALUE))
  {
    hide Step, FieldStart, Field, Value, HeadersDone, HeadersAlmostDone, HeaderAlmostDone;
    HeaderStep(p, c);
  }

  lemma NextOfChunked(p: Parser, c: char, k: nat)
    requires 0 < k < |CHUNKED| && Lower(c) == CHUNKED[k] && p.nread + k < MAX_HEADER_SIZE
    ensures Step(InValue(p, k), c) == Next(InValue(p, k + 1), [], Some(HEADER_VALUE))
  {
    hide Step, FieldStart, Field, ValueStart, HeadersDone, HeadersAlmostDone, HeaderAlmostDone;
    HeaderStep(InValue(p, k), c);
  }

  lemma {:induction false} ChunkedRead(p: Parser, v: string, k: nat)
    requires p.state.VALUE_START? && p.header.H_ENCODING? && SaysChunked(v) && 0 < k <= |v|
    requires p.nread + k <= MAX_HEADER_SIZE
    ensures Run(p, v[..k]) == Running(InValue(p, k), Bytes(HEADER_VALUE, v[..k]))
  {
    hide Step, Run, Bytes, Events, Lower;
    var c := v[k - 1];
    NoEvents(c, HEADER_VALUE);
    BytesSnoc(HEADER_VALUE, v[..k - 1], c);
    assert v[..k] == v[..k - 1] + [c];
    if k == 1 {
      FirstOfChunked(p, c);
      assert v[..0] == "" && "" + [c] == [c];
      NoBytes(HEADER_VALUE);
      RunSingle(p, c, InValue(p, 1), [Mark(HEADER_VALUE)], Some(HEADER_VALUE));
    } else {
      ChunkedRead(p, v, k - 1);
      NextOfChunked(p, c, k - 1);
      RunOne(p, v[..k - 1], c);
    }
  }

  lemma LineEndChunked(p: Parser)
    requires p.header.H_CHUNKED? && p.nread < MAX_HEADER_SIZE
    ensures var q := p.(nread := p.nread + 1, state := VALUE_LWS, flags := p.flags.(chunked := true));
            && (p.state.VALUE? ==> Step(p, LF) == Next(q, [Flush(HEADER_VALUE)], None))
            && (p.state.HEADER_ALMOST_DONE? ==> Step(p, LF) == Next(q, [], None))
  {
    hide Step, FieldStart, Field, ValueStart, ValueText, HeadersDone, HeadersAlmostDone;
    if InHeader(p.state) { HeaderStep(p, LF); }
    assert [Flush(HEADER_VALUE)] + [] == [Flush(HEADER_VALUE)];
  }

  /** The parser after the line of the header. */
  function AfterEncoding(p: Parser, eol: string): Parser
  {
    InValue(p, |CHUNKED|).(nread := p.nread + |CHUNKED| + |eol|, state := VALUE_LWS, flags := p.flags.(chunked := true))
  }

  lemma ChunkedBreak(p: Parser, eol: string)
    requires p.state.VALUE? && p.header.H_CHUNKED? && LineBreak(eol) && p.nread + |eol| <= MAX_HEADER_SIZE
    ensures Run(p, eol) ==
              Running(p.(nread := p.nread + |eol|, state := VALUE_LWS, flags := p.flags.(chunked := true)), [])
  {
    hide Step, Run, Events;
    var p2 := p.(nread := p.nread + 1, state := HEADER_ALMOST_DONE);
    var p3 := p.(nread := p.nread + |eol|, state := VALUE_LWS, flags := p.flags.(chunked := true));
    NoEvents(CR, HEADER_VALUE);
    NoEvents(LF, HEADER_VALUE);
    LineEndChunked(p);
    if eol == [LF] {
      RunSingle(p, LF, p3, [Flush(HEADER_VALUE)], None);
    } else {
      ValueEnd(p);
      LineEndChunked(p2);
      RunSingle(p, CR, p2, [Flush(HEADER_VALUE)], None);
      RunSingle(p2, LF, p3, [], None);
      RunQuiet(p, [CR], [LF], p2, p3, []);
      assert [CR] + [LF] == [CR, LF];
    }
  }

  lemma ChunkedValue(p: Parser, v: string, eol: string)
    requires p.state.VALUE_START? && p.header.H_ENCODING? && SaysChunked(v) && LineBreak(eol)
    requires p.nread + |v| + |eol| <= MAX_HEADER_SIZE
    ensures Run(p, v + eol) == Running(AfterEncoding(p, eol), Bytes(HEADER_VALUE, v))
  {
    hide Step, Run, Bytes, LineBreak;
    assert v[..|v|] == v;
    ChunkedRead(p, v, |v|);
    ChunkedBreak(InValue(p, |v|), eol);
    RunMore(p, v, eol, InValue(p, |v|), Bytes(HEADER_VALUE, v), AfterEncoding(p, eol), []);
    assert Bytes(HEADER_VALUE, v) + [] == Bytes(HEADER_VALUE, v);
  }

  /** The line "Transfer-Encoding: chunked", in any letter case, marks the message as chunked. */
  lemma ChunkedLine(p: Parser, s: string, blanks: string, v: string, eol: string)
    requires AtLine(p.state) && Names(TRANSFER_ENCODING, s) && Blank(blanks) && SaysChunked(v) && LineBreak(eol)
    requires p.nread + |s| + 1 + |blanks| + |v| + |eol| <= MAX_HEADER_SIZE
    ensures Run(p, Line(s, blanks, v, eol)) == Running(AfterEncoding(AtEncoding(p, blanks), eol), LineEvents(s, v))
  {
    hide Run, Bytes, LineBreak, SaysChunked, Names, Blank, AtEncoding, AfterEncoding;
    var q := AtEncoding(p, blanks);
    Recognised(p, s, blanks, false);
    EncodingFields(p, s, blanks);
    ChunkedValue(q, v, eol);
    RunMore(p, s + ":" + blanks, v + eol, q, Bytes(HEADER_FIELD, s), AfterEncoding(q, eol), Bytes(HEADER_VALUE, v));
  }

  lemma EncodingFields(p: Parser, s: string, blanks: string)
    requires Names(TRANSFER_ENCODING, s)
    ensures var q := AtEncoding(p, blanks);
            q.state.VALUE_START? && q.header.H_ENCODING? && q.nread == p.nread + |s| + 1 + |blanks|
  {
  }

  /** The bytes are read as headers, all of them. */
  ghost predicate WithinHeaders(p: Parser, bs: string)
  {
    forall i :: 0 <= i < |bs| ==> Run(p, bs[..i]).Running? && InHeader(Run(p, bs[..i]).p.state)
  }

  /** The result, if there is one, is still that of a chunked message. */
  predicate ResultChunked(r: Result)
  {
    r.Next? ==> r.p.flags.chunked
  }

  lemma FieldChunked(p: Parser, c: char)
    requires p.flags.chunked
    ensures ResultChunked(HeadersAlmostDone(p, c)) && ResultChunked(HeadersDone(p, c))
    ensures ResultChunked(FieldStart(p, c)) && ResultChunked(Field(p, c))
  {
    hide Token, NewMessage, NeedsEof, CharAt;
  }

  lemma ValueChunked(p: Parser, c: char)
    requires p.flags.chunked
    ensures ResultChunked(ValueStart(p, c)) && ResultChunked(HeaderAlmostDone(p, c)) && ResultChunked(Value(p, c))
  {
    hide Lower, Accumulate, CharAt;
  }

  lemma StaysChunked(p: Parser, c: char)
    requires InHeader(p.state) && Step(p, c).Next? && p.flags.chunked
    ensures Step(p, c).p.flags.chunked
  {
    hide Step, FieldStart, Field, ValueStart, Value, HeaderAlmostDone, HeadersAlmostDone, HeadersDone;
    if p.nread < MAX_HEADER_SIZE {
      HeaderStep(p, c);
      var q := p.(nread := p.nread + 1);
      FieldChunked(q, c);
      FieldChunked(q.(state := FIELD_START), c);
      ValueChunked(q, c);
    } else {
      TooManyBytes(p, c);
    }
  }

  /** Other headers do not change that. */
  lemma {:induction false} OtherHeadersChunked(p: Parser, bs: string)
    requires WithinHeaders(p, bs) && Run(p, bs).Running? && p.flags.chunked
    ensures Run(p, bs).p.flags.chunked
  {
    hide Step, InHeader;
    if |bs| > 0 {
      var n := |bs| - 1;
      assert bs[..n + 1] == bs;
      forall i | 0 <= i < n ensures Run(p, bs[..n][..i]).Running? && InHeader(Run(p, bs[..n][..i]).p.state) {
        assert bs[..n][..i] == bs[..i];
      }
      OtherHeadersChunked(p, bs[..n]);
      StaysChunked(Run(p, bs[..n]).p, bs[n]);
    }
  }

  /** A message with the header "Transfer-Encoding: chunked", in any letter case: whatever other headers follow, the
      headers are complete, then exactly the payloads of the chunks are delivered as the body, then what the trailer
      has, and then the message is complete. */
  lemma TransferEncodingMessage(p: Parser, s: string, blanks: string, v: string, eol: string, q: Parser, others: string,
                                r: Parser, cs: seq<Piece>, l: Last)
    requires AtLine(p.state) && Names(TRANSFER_ENCODING, s) && Blank(blanks) && SaysChunked(v) && LineBreak(eol)
    requires p.nread + |s| + 1 + |blanks| + |v| + |eol| <= MAX_HEADER_SIZE
    requires q == AfterEncoding(AtEncoding(p, blanks), eol) && WithinHeaders(q, others) && Run(q, others).Running?
    requires r == Run(q, others).p && BodyFollows(r) && GoodLast(AtChunks(r), l)
    requires forall k :: 0 <= k < |cs| ==> GoodPiece(cs[k])
    ensures Run(p, Message(Line(s, blanks, v, eol), others, EncodeAll(cs) + EncodeLast(l))).Running?
    ensures Run(p, Message(Line(s, blanks, v, eol), others, EncodeAll(cs) + EncodeLast(l))).events ==
              MessageEvents(LineEvents(s, v), Run(q, others).events,
                            Bytes(BODY, Payloads(cs)) + Run(AtTrailer(AtChunks(r)), l.trailer).events)
    ensures EndsMessage(Run(AtTrailer(AtChunks(r)), l.trailer).events)
  {
    hide Run, Bytes, Names, Blank, SaysChunked, LineBreak, WithinHeaders, GoodLast, GoodPiece, EndsMessage, EncodeAll,
      EncodeLast;
    var e := Run(q, others).events;
    var line, lineEvents := Line(s, blanks, v, eol), LineEvents(s, v);
    ChunkedLine(p, s, blanks, v, eol);
    OtherHeadersChunked(q, others);
    RunMore(p, line, others, q, lineEvents, r, e);
    ChunkedBody(r, cs, l);
    var rest := [LF] + (EncodeAll(cs) + EncodeLast(l));
    var done := Run(r, rest);
    RunMore(p, line + others, rest, r, lineEvents + e, done.p, done.events);
  }
}
