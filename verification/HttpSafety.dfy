/** What every byte keeps: the parser's assertions hold in every reachable state, and marks and flushes come
    in the few shapes that http_parser_execute relies on. */
module HttpSafety {
  import opened Common
  import opened HttpParser

  /** The header states in which a field name may be read. */
  predicate NameState(h: HeaderState)
  {
    && !h.H_MATCHING_CHUNKED? && !h.H_MATCHING_KEEP_ALIVE? && !h.H_MATCHING_CLOSE?
    && !h.H_CHUNKED? && !h.H_KEEP_ALIVE? && !h.H_CLOSE?
  }

  /** The invariant. In particular no header byte has been counted where a chunk size is about to begin. */
  predicate Inv(p: Parser)
  {
    && p.length <= ULLONG_MAX
    && (InChunk(p.state) ==> p.flags.chunked)
    && (p.state.CHUNK_SIZE? || p.state.CHUNK_PARAMETERS? || p.state.CHUNK_SIZE_ALMOST_DONE? ==> p.length < ULLONG_MAX)
    && (p.state.CHUNK_SIZE_START? ==> p.nread == 0)
    && (p.state.CHUNK_DATA? || p.state.BODY_IDENTITY? ==> 0 < p.length < ULLONG_MAX)
    && (p.state.CHUNK_DATA_ALMOST_DONE? ==> p.length == 0)
    && (p.state.FIELD? ==> NameState(p.header))
    && (p.state.VALUE? ==> !p.header.H_CONNECTION? && !p.header.H_ENCODING?)
  }

  /** A state about which the invariant says nothing, and in which no item is under way. */
  predicate Plain(s: State)
  {
    !InChunk(s) && !s.BODY_IDENTITY? && !s.BODY_IDENTITY_EOF? && !s.FIELD? && !s.VALUE? && !InUrl(s)
  }

  /** The item that is under way in a state. */
  function ItemOf(s: State): Option<Item>
  {
    if InUrl(s) then Some(URL)
    else if s.FIELD? then Some(HEADER_FIELD)
    else if s.VALUE? then Some(HEADER_VALUE)
    else if s.CHUNK_DATA? || s.CHUNK_DATA_ALMOST_DONE? || s.BODY_IDENTITY? || s.BODY_IDENTITY_EOF? then Some(BODY)
    else None
  }

  /** The shapes of a step: notifications between items; the next byte of an item; the first byte of one;
      the end of one; an empty one; the last byte of a body. */
  predicate Shape(before: Option<Item>, acts: seq<Act>, own: Option<Item>, after: Option<Item>)
  {
    || (Notices(acts) && own == None && before == None && (after == None || after == Some(BODY)))
    || (acts == [] && own.Some? && own != Some(BODY) && before == own && after == own)
    || (own.Some? && acts == [Mark(own.value)] && (before == None || before == own) && after == own)
    || (own == None && before.Some? && acts == [Flush(before.value)] && after == None)
    || (own == None && before == None && |acts| == 2 && acts[0].Mark? && acts[1] == Flush(acts[0].i) && after == None)
    || (own == Some(BODY) && before == own && acts == [Mark(BODY), FlushWith(BODY), Notify(MESSAGE_COMPLETE)]
        && after == None)
  }

  predicate Notices(acts: seq<Act>)
  {
    |acts| <= 2 && forall k :: 0 <= k < |acts| ==> acts[k].Notify?
  }

  /** A result that keeps the invariant and has a known shape. */
  predicate Good(before: Option<Item>, r: Result)
  {
    match r
    case Next(p, acts, own) => Inv(p) && Shape(before, acts, own, ItemOf(p.state))
    case Leave(p, acts) => Inv(p) && before == None && Notices(acts)
    case Fail(_) => true
    case Abort => false
  }

  lemma InitSafe(t: Type)
    ensures Inv(Init(t))
  {
  }

  /** A result between items. */
  predicate PlainResult(r: Result)
  {
    match r
    case Next(p, acts, own) => p.length <= ULLONG_MAX && Plain(p.state) && Notices(acts) && own == None
    case Fail(_) => true
    case _ => false
  }

  lemma PlainGood(r: Result)
    requires PlainResult(r)
    ensures Good(None, r)
  {
  }

  lemma StartRequestGood(p: Parser, c: char)
    requires p.length <= ULLONG_MAX && p.state.START_REQ?
    ensures PlainResult(StartRequest(p, c))
  {
    hide FirstGuess;
  }

  lemma EitherLineGood(p: Parser, c: char)
    requires p.length <= ULLONG_MAX && (p.state.START_REQ_OR_RES? || p.state.RES_OR_RESP_H?)
    ensures PlainResult(EitherLine(p, c))
  {
    hide StartRequest;
    if p.state.START_REQ_OR_RES? {
      StartRequestGood(p.(flags := NO_FLAGS, length := ULLONG_MAX, kind := REQUEST, state := START_REQ), c);
    }
  }

  lemma GoPlain(p: Parser, s: State)
    requires p.length <= ULLONG_MAX && Plain(s)
    ensures PlainResult(Go(p, s)) && forall n :: PlainResult(Tell(p, s, n))
  {
  }

  lemma StayPlain(p: Parser)
    requires p.length <= ULLONG_MAX && Plain(p.state)
    ensures PlainResult(Stay(p))
  {
  }

  lemma FailPlain()
    ensures forall e :: PlainResult(Fail(e))
  {
  }

  lemma ExpectPlain(p: Parser, c: char, want: char, s: State)
    requires p.length <= ULLONG_MAX && Plain(s)
    ensures PlainResult(Expect(p, c, want, s))
  {
  }

  lemma VersionPlain(p: Parser, c: char, dot: State)
    requires p.length <= ULLONG_MAX && Plain(p.state) && Plain(dot)
    ensures PlainResult(Major(p, c, dot)) && PlainResult(Minor(p, c)) && PlainResult(StatusCode(p, c))
  {
    hide NextDigit;
  }

  lemma ResponseLineGood(p: Parser, c: char)
    requires p.length <= ULLONG_MAX && InResponseLine(p.state)
    ensures PlainResult(ResponseLine(p, c))
  {
    hide PlainResult, Go, Tell, Stay, Expect, Major, Minor, StatusCode, Plain;
    FailPlain();
    LinePlain();
    StayPlain(p);
    VersionPlain(p, c, RES_FIRST_MINOR);
    match p.state
    case START_RES =>
      GoPlain(p.(flags := NO_FLAGS, length := ULLONG_MAX), RES_H);
      GoPlain(p.(flags := NO_FLAGS, length := ULLONG_MAX), START_RES);
    case RES_H => ExpectPlain(p, c, 'T', RES_HT);
    case RES_HT => ExpectPlain(p, c, 'T', RES_HTT);
    case RES_HTT => ExpectPlain(p, c, 'P', RES_HTTP);
    case RES_HTTP => ExpectPlain(p, c, '/', RES_FIRST_MAJOR);
    case RES_FIRST_MAJOR => if IsNum(c) { GoPlain(p.(major := Digit(c)), RES_MAJOR); }
    case RES_MAJOR =>
    case RES_FIRST_MINOR => if IsNum(c) { GoPlain(p.(minor := Digit(c)), RES_MINOR); }
    case RES_MINOR => GoPlain(p, RES_FIRST_STATUS);
    case RES_FIRST_STATUS => if IsNum(c) { GoPlain(p.(status := Digit(c)), RES_STATUS_CODE); }
    case RES_STATUS_CODE =>
    case RES_STATUS =>
      GoPlain(p, RES_LINE_ALMOST_DONE);
      GoPlain(p, FIELD_START);
    case RES_LINE_ALMOST_DONE => GoPlain(p, FIELD_START);
  }

  lemma LinePlain()
    ensures forall s :: InResponseLine(s) || s.FIELD_START? ==> Plain(s)
  {
  }

  /** URL states lead to URL states, or the byte does not fit. */
  lemma UrlStates(s: State, c: char)
    ensures UrlChar(s, c).DEAD? || InUrl(UrlChar(s, c))
  {
  }

  lemma ContinueGood(p: Parser, i: Item)
    requires Inv(p) && ItemOf(p.state) == Some(i) && i != BODY
    ensures Good(Some(i), Next(p, [], Some(i)))
  {
    hide Inv;
  }

  lemma BeginGood(p: Parser, before: Option<Item>, i: Item)
    requires Inv(p) && ItemOf(p.state) == Some(i) && (before == None || before == Some(i))
    ensures Good(before, Next(p, [Mark(i)], Some(i)))
  {
    hide Inv;
  }

  lemma EndGood(p: Parser, i: Item)
    requires p.length <= ULLONG_MAX && Plain(p.state)
    ensures Good(Some(i), Next(p, [Flush(i)], None))
  {
  }

  lemma FailGood(before: Option<Item>, e: Errno)
    ensures Good(before, Fail(e))
  {
  }

  /** In a URL the invariant says nothing more. */
  lemma UrlInv(p: Parser, s: State)
    requires p.length <= ULLONG_MAX && InUrl(s)
    ensures Inv(p.(state := s)) && ItemOf(s) == Some(URL)
  {
  }

  lemma InvLength(p: Parser)
    requires Inv(p)
    ensures p.length <= ULLONG_MAX
  {
  }

  lemma UrlStartGood(p: Parser, c: char)
    requires Inv(p) && p.state.REQ_SPACES?
    ensures Good(None, UrlStart(p, c))
  {
    hide UrlChar, Good, Inv, ItemOf;
    InvLength(p);
    var s := UrlChar(if p.meth == CONNECT then REQ_SERVER_START else p.state, c);
    UrlStates(if p.meth == CONNECT then REQ_SERVER_START else p.state, c);
    FailGood(None, INVALID_URL);
    StayPlain(p);
    PlainGood(Stay(p));
    if !s.DEAD? {
      UrlInv(p, s);
      BeginGood(p.(state := s), None, URL);
    }
  }

  lemma UrlBeginGood(p: Parser, c: char)
    requires Inv(p) && InUrl(p.state)
    ensures Good(Some(URL), UrlBegin(p, c))
  {
    hide UrlChar, Good, Inv, ItemOf, InUrl;
    InvLength(p);
    var s := UrlChar(p.state, c);
    UrlStates(p.state, c);
    FailGood(Some(URL), INVALID_URL);
    if !s.DEAD? {
      UrlInv(p, s);
      ContinueGood(p.(state := s), URL);
    }
  }

  lemma UrlGood(p: Parser, c: char)
    requires Inv(p) && InUrl(p.state)
    ensures Good(Some(URL), UrlBegin(p, c)) && Good(Some(URL), UrlRest(p, c))
  {
    hide UrlBegin, Good, Inv, ItemOf;
    InvLength(p);
    UrlBeginGood(p, c);
    EndGood(p.(state := REQ_HTTP_START), URL);
    EndGood(p.(major := 0, minor := 9, state := REQ_LINE_ALMOST_DONE), URL);
    EndGood(p.(major := 0, minor := 9, state := FIELD_START), URL);
  }

  /** The states of a request line outside the URL. */
  predicate InRequestLine(s: State)
  {
    || s.START_REQ? || s.REQ_METHOD? || s.REQ_HTTP_START? || s.REQ_HTTP_H? || s.REQ_HTTP_HT? || s.REQ_HTTP_HTT?
    || s.REQ_HTTP_HTTP? || s.REQ_FIRST_MAJOR? || s.REQ_MAJOR? || s.REQ_FIRST_MINOR? || s.REQ_MINOR?
    || s.REQ_LINE_ALMOST_DONE?
  }

  lemma MethodPlain(p: Parser, c: char)
    requires p.length <= ULLONG_MAX && p.state.REQ_METHOD?
    ensures PlainResult(RequestMethod(p, c))
  {
    hide MethodName, Reguess, CharAt;
  }

  lemma RequestPlain()
    ensures forall s :: InRequestLine(s) || s.REQ_SPACES? || s.FIELD_START? ==> Plain(s)
  {
  }

  lemma RequestLineGood(p: Parser, c: char)
    requires p.length <= ULLONG_MAX && InRequestLine(p.state)
    ensures PlainResult(RequestLine(p, c))
  {
    hide PlainResult, Go, Tell, Stay, Expect, Major, Minor, StatusCode, Plain, StartRequest, RequestMethod, UrlStart,
      UrlRest,
      UrlBegin;
    FailPlain();
    RequestPlain();
    StayPlain(p);
    VersionPlain(p, c, REQ_FIRST_MINOR);
    match p.state
    case START_REQ => StartRequestGood(p, c);
    case REQ_METHOD => MethodPlain(p, c);
    case REQ_HTTP_START => GoPlain(p, REQ_HTTP_H);
    case REQ_HTTP_H => ExpectPlain(p, c, 'T', REQ_HTTP_HT);
    case REQ_HTTP_HT => ExpectPlain(p, c, 'T', REQ_HTTP_HTT);
    case REQ_HTTP_HTT => ExpectPlain(p, c, 'P', REQ_HTTP_HTTP);
    case REQ_HTTP_HTTP => ExpectPlain(p, c, '/', REQ_FIRST_MAJOR);
    case REQ_FIRST_MAJOR => if IsNum(c) { GoPlain(p.(major := Digit(c)), REQ_MAJOR); }
    case REQ_MAJOR =>
    case REQ_FIRST_MINOR => if IsNum(c) { GoPlain(p.(minor := Digit(c)), REQ_MINOR); }
    case REQ_MINOR =>
      GoPlain(p, REQ_LINE_ALMOST_DONE);
      GoPlain(p, FIELD_START);
    case REQ_LINE_ALMOST_DONE => GoPlain(p, FIELD_START);
  }

  lemma HeadersDoneGood(p: Parser, c: char)
    requires p.length <= ULLONG_MAX
    ensures Good(None, HeadersDone(p, c))
  {
    hide NeedsEof, ShouldKeepAlive;
  }

  lemma HeadersAlmostDoneGood(p: Parser, c: char)
    requires p.length <= ULLONG_MAX
    ensures Good(None, HeadersAlmostDone(p, c))
  {
    hide HeadersDone, NeedsEof, ShouldKeepAlive;
    var q := p.(state := HEADERS_DONE, upgrade := p.flags.upgrade || p.meth == CONNECT);
    HeadersDoneGood(q, c);
    HeadersDoneShort(q, c);
  }

  lemma HeadersDoneShort(p: Parser, c: char)
    ensures match HeadersDone(p, c)
            case Next(q, acts, own) => |acts| <= 1 && own == None
            case Leave(q, acts) => |acts| == 1
            case _ => true
  {
    hide NeedsEof, ShouldKeepAlive;
  }

  lemma FieldStartGood(p: Parser, c: char)
    requires p.length <= ULLONG_MAX
    ensures Good(None, FieldStart(p, c))
  {
    hide HeadersAlmostDone, Token;
    HeadersAlmostDoneGood(p.(state := HEADERS_ALMOST_DONE), c);
  }

  lemma FieldNameGood(p: Parser, t: char)
    requires NameState(p.header)
    ensures FieldName(p, t).Some?
    ensures var q := FieldName(p, t).value; q.state == p.state && NameState(q.header) && q.length == p.length
  {
    hide CharAt;
  }

  lemma FieldGood(p: Parser, c: char)
    requires Inv(p) && p.state.FIELD?
    ensures Good(Some(HEADER_FIELD), Field(p, c))
  {
    hide FieldName, Token, Shape;
    FieldNameGood(p, Token(c));
    var q := FieldName(p, Token(c)).value;
    ContinueGood(q, HEADER_FIELD);
    EndGood(p.(state := VALUE_START), HEADER_FIELD);
    EndGood(p.(state := HEADER_ALMOST_DONE), HEADER_FIELD);
    EndGood(p.(state := FIELD_START), HEADER_FIELD);
  }

  lemma ValueInv(p: Parser)
    requires p.state.VALUE? && p.length <= ULLONG_MAX && !p.header.H_CONNECTION? && !p.header.H_ENCODING?
    ensures Inv(p) && ItemOf(p.state) == Some(HEADER_VALUE)
  {
  }

  lemma ValueStartGood(p: Parser, c: char)
    requires Inv(p) && p.state.VALUE_START?
    ensures Good(None, ValueStart(p, c))
  {
    hide Lower, Good, Inv, ItemOf;
    InvLength(p);
    FailGood(None, INVALID_CONTENT_LENGTH);
    PlainGood(Stay(p));
    EmptyGood(p.(index := 0, header := H_GENERAL, state := HEADER_ALMOST_DONE), HEADER_VALUE);
    EmptyGood(p.(index := 0, state := FIELD_START), HEADER_VALUE);
    var r := ValueStart(p, c);
    if r.Next? && r.own.Some? {
      ValueInv(r.p);
      BeginGood(r.p, None, HEADER_VALUE);
    }
  }

  lemma EmptyGood(p: Parser, i: Item)
    requires p.length <= ULLONG_MAX && Plain(p.state)
    ensures Good(None, Next(p, [Mark(i), Flush(i)], None))
  {
  }

  lemma AccumulateBelow(n: nat, base: nat, d: nat)
    ensures Accumulate(n, base, d).Some? ==> Accumulate(n, base, d).value < ULLONG_MAX
  {
  }

  lemma ValueTextGood(p: Parser, c: char)
    requires Inv(p) && p.state.VALUE?
    ensures Good(Some(HEADER_VALUE), ValueText(p, c))
  {
    hide Accumulate, Lower, CharAt, Digit;
    if IsNum(c) { AccumulateBelow(p.length, 10, Digit(c)); }
  }

  lemma HeaderAlmostDoneGood(p: Parser, c: char)
    requires p.length <= ULLONG_MAX
    ensures PlainResult(HeaderAlmostDone(p, c))
    ensures HeaderAlmostDone(p, c).Next? ==> HeaderAlmostDone(p, c).acts == []
  {
  }

  lemma ValueGood(p: Parser, c: char)
    requires Inv(p) && p.state.VALUE?
    ensures Good(Some(HEADER_VALUE), Value(p, c))
  {
    hide ValueText, HeaderAlmostDone;
    ValueTextGood(p, c);
    HeaderAlmostDoneGood(p.(state := HEADER_ALMOST_DONE), c);
  }

  lemma HeaderGood(p: Parser, c: char)
    requires Inv(p) && InHeader(p.state)
    ensures Good(ItemOf(p.state), Header(p, c))
  {
    hide FieldStart, Field, ValueStart, Value, HeaderAlmostDone, HeadersAlmostDone, HeadersDone, Good;
    if p.state.FIELD_START? {
      FieldStartGood(p, c);
    } else if p.state.FIELD? {
      FieldGood(p, c);
    } else if p.state.VALUE_START? {
      ValueStartGood(p, c);
    } else if p.state.VALUE? {
      ValueGood(p, c);
    } else if p.state.HEADER_ALMOST_DONE? {
      HeaderAlmostDoneGood(p, c);
      PlainGood(HeaderAlmostDone(p, c));
    } else if p.state.VALUE_LWS? {
      FieldStartGood(p.(state := FIELD_START), c);
      PlainGood(Go(p, VALUE_START));
    } else if p.state.HEADERS_ALMOST_DONE? {
      HeadersAlmostDoneGood(p, c);
    } else {
      HeadersDoneGood(p, c);
    }
  }

  /** The states of a chunk's size line. */
  lemma ChunkLineGood(p: Parser, c: char)
    requires Inv(p) && InChunk(p.state) && ParsingHeader(p.state)
    ensures Good(ItemOf(p.state), Chunk(p.(nread := p.nread + 1), c))
  {
    hide ChunkSize, Unhex;
    if p.state.CHUNK_SIZE? { ChunkSizeGood(p.(nread := p.nread + 1), c); }
    UnhexRange(c);
  }

  lemma ChunkSizeGood(p: Parser, c: char)
    requires Inv(p) && p.state.CHUNK_SIZE?
    ensures Good(None, ChunkSize(p, c))
  {
    hide Accumulate, Unhex;
    if Unhex(c) >= 0 { AccumulateBelow(p.length, 16, Unhex(c)); }
    UnhexRange(c);
  }

  lemma ChunkDataGood(p: Parser, c: char)
    requires Inv(p) && InChunk(p.state) && !ParsingHeader(p.state)
    ensures Good(ItemOf(p.state), Chunk(p, c))
  {
    hide Good, ChunkSize, Unhex, Accumulate;
    FailGood(ItemOf(p.state), STRICT);
    if p.state.CHUNK_DATA? {
      BeginGood(p.(length := p.length - 1, state := if p.length == 1 then CHUNK_DATA_ALMOST_DONE else CHUNK_DATA),
                Some(BODY), BODY);
    } else if p.state.CHUNK_DATA_ALMOST_DONE? {
      DataDoneGood(p.(state := CHUNK_DATA_DONE));
    } else {
      NextChunkGood(p.(nread := 0));
    }
  }

  lemma DataDoneGood(p: Parser)
    requires p.state.CHUNK_DATA_DONE? && p.flags.chunked && p.length <= ULLONG_MAX
    ensures Good(Some(BODY), Next(p, [Flush(BODY)], None))
  {
  }

  lemma NextChunkGood(p: Parser)
    requires p.flags.chunked && p.length <= ULLONG_MAX && p.nread == 0
    ensures Good(None, Go(p, CHUNK_SIZE_START))
  {
  }

  lemma UnhexRange(c: char)
    ensures -1 <= Unhex(c) <= 15
  {
  }

  lemma IdentityGood(p: Parser)
    requires Inv(p) && p.state.BODY_IDENTITY?
    ensures Good(Some(BODY), Identity(p))
  {
    hide ShouldKeepAlive;
  }

  /** Outside chunks the count of header bytes does not matter to the invariant. */
  lemma Counted(p: Parser)
    requires Inv(p) && !InChunk(p.state)
    ensures Inv(p.(nread := p.nread + 1))
  {
  }

  lemma DispatchGood(p: Parser, c: char)
    requires Inv(p) && !InChunk(p.state)
    ensures Good(ItemOf(p.state), Dispatch(p, c))
  {
    hide EitherLine, ResponseLine, Header, RequestLine, Identity, Good, UrlStart, UrlBegin, UrlRest;
    if p.state.DEAD? {
      PlainGood(Stay(p));
      PlainGood(Fail(CLOSED_CONNECTION));
    } else if p.state.START_REQ_OR_RES? || p.state.RES_OR_RESP_H? {
      EitherLineGood(p, c);
      PlainGood(EitherLine(p, c));
    } else if InResponseLine(p.state) {
      ResponseLineGood(p, c);
      PlainGood(ResponseLine(p, c));
    } else if InHeader(p.state) {
      HeaderGood(p, c);
    } else if p.state.BODY_IDENTITY? {
      IdentityGood(p);
    } else if p.state.BODY_IDENTITY_EOF? {
      BeginGood(p, Some(BODY), BODY);
    } else if p.state.MESSAGE_DONE? {
      CompletePlain(p);
      PlainGood(Complete(p));
    } else {
      AnyRequestLineGood(p, c);
    }
  }

  lemma CompletePlain(p: Parser)
    requires p.length <= ULLONG_MAX
    ensures PlainResult(Complete(p))
  {
  }

  lemma AnyRequestLineGood(p: Parser, c: char)
    requires Inv(p) && (InRequestLine(p.state) || InUrl(p.state) || p.state.REQ_SPACES?)
    ensures Good(ItemOf(p.state), RequestLine(p, c))
  {
    hide UrlStart, UrlBegin, UrlRest, Good, StartRequest, RequestMethod, Major, Minor, Expect, Go, Stay;
    if InRequestLine(p.state) {
      RequestLineGood(p, c);
      PlainGood(RequestLine(p, c));
    } else if p.state.REQ_SPACES? {
      UrlStartGood(p, c);
    } else {
      UrlGood(p, c);
    }
  }

  /** The step as one of the parts of the switch. */
  lemma StepIs(p: Parser, c: char)
    ensures Step(p, c) ==
              var q := if ParsingHeader(p.state) then p.(nread := p.nread + 1) else p;
              if ParsingHeader(p.state) && q.nread > MAX_HEADER_SIZE then Fail(HEADER_OVERFLOW)
              else if InChunk(p.state) then Chunk(q, c)
              else Dispatch(q, c)
  {
    hide EitherLine, ResponseLine, Header, RequestLine, Identity, Chunk, Complete;
  }

  /** Every byte keeps the invariant, trips no assertion, and has one of the shapes. */
  lemma StepGood(p: Parser, c: char)
    requires Inv(p)
    ensures Good(ItemOf(p.state), Step(p, c))
  {
    hide *;
    StepIs(p, c);
    OverflowGood(ItemOf(p.state));
    if InChunk(p.state) {
      if ParsingHeader(p.state) { ChunkLineGood(p, c); } else { ChunkDataGood(p, c); }
    } else if ParsingHeader(p.state) {
      Counted(p);
      DispatchGood(p.(nread := p.nread + 1), c);
    } else {
      DispatchGood(p, c);
    }
  }

  lemma OverflowGood(before: Option<Item>)
    ensures Good(before, Fail(HEADER_OVERFLOW))
  {
  }
}
