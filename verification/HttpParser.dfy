/** The HTTP/1.x parser as a machine that takes one byte at a time (http_parser_execute in strict mode, with
    callbacks that return 0). A step says how the parser's fields change, which callbacks and marks it asks
    for, and whether the byte is itself data of a header, URL or body. */
module HttpParser {
  import opened Common

  const ULLONG_MAX: nat := 0xFFFF_FFFF_FFFF_FFFF
  const MAX_HEADER_SIZE: nat := 80 * 1024
  const CR: char := '\r'
  const LF: char := '\n'

  datatype Type = REQUEST | RESPONSE | BOTH

  datatype Method =
    | DELETE | GET | HEAD | POST | PUT | CONNECT | OPTIONS | TRACE | COPY | LOCK | MKCOL | MOVE | PROPFIND
    | PROPPATCH | SEARCH | UNLOCK | REPORT | MKACTIVITY | CHECKOUT | MERGE | MSEARCH | NOTIFY | SUBSCRIBE
    | UNSUBSCRIBE | PATCH | PURGE

  datatype State =
    | DEAD
    | START_REQ_OR_RES | RES_OR_RESP_H | START_RES | RES_H | RES_HT | RES_HTT | RES_HTTP
    | RES_FIRST_MAJOR | RES_MAJOR | RES_FIRST_MINOR | RES_MINOR
    | RES_FIRST_STATUS | RES_STATUS_CODE | RES_STATUS | RES_LINE_ALMOST_DONE
    | START_REQ | REQ_METHOD | REQ_SPACES | REQ_SCHEMA | REQ_SCHEMA_SLASH | REQ_SCHEMA_SLASH_SLASH
    | REQ_SERVER_START | REQ_SERVER | REQ_SERVER_WITH_AT | REQ_PATH | REQ_QUERY_START | REQ_QUERY
    | REQ_FRAGMENT_START | REQ_FRAGMENT | REQ_HTTP_START | REQ_HTTP_H | REQ_HTTP_HT | REQ_HTTP_HTT | REQ_HTTP_HTTP
    | REQ_FIRST_MAJOR | REQ_MAJOR | REQ_FIRST_MINOR | REQ_MINOR | REQ_LINE_ALMOST_DONE
    | FIELD_START | FIELD | VALUE_START | VALUE | VALUE_LWS | HEADER_ALMOST_DONE
    | CHUNK_SIZE_START | CHUNK_SIZE | CHUNK_PARAMETERS | CHUNK_SIZE_ALMOST_DONE
    | HEADERS_ALMOST_DONE | HEADERS_DONE
    | CHUNK_DATA | CHUNK_DATA_ALMOST_DONE | CHUNK_DATA_DONE
    | BODY_IDENTITY | BODY_IDENTITY_EOF | MESSAGE_DONE

  datatype HeaderState =
    | H_GENERAL | H_C | H_CO | H_CON
    | H_MATCHING_CONNECTION | H_MATCHING_PROXY | H_MATCHING_LENGTH | H_MATCHING_ENCODING | H_MATCHING_UPGRADE
    | H_CONNECTION | H_LENGTH | H_ENCODING | H_UPGRADE
    | H_MATCHING_CHUNKED | H_MATCHING_KEEP_ALIVE | H_MATCHING_CLOSE
    | H_CHUNKED | H_KEEP_ALIVE | H_CLOSE

  datatype Flags = Flags(chunked: bool, keepAlive: bool, close: bool, trailing: bool, upgrade: bool)

  datatype Parser = Parser(kind: Type, state: State, header: HeaderState, index: nat, nread: nat,
                           length: nat, major: nat, minor: nat, status: nat, meth: Method,
                           flags: Flags, upgrade: bool)

  datatype Errno =
    | HEADER_OVERFLOW | CLOSED_CONNECTION | INVALID_VERSION | INVALID_STATUS | INVALID_METHOD | INVALID_URL
    | LF_EXPECTED | INVALID_HEADER_TOKEN | INVALID_CONTENT_LENGTH | INVALID_CHUNK_SIZE | INVALID_CONSTANT | STRICT
    | INVALID_EOF_STATE

  /** The kinds of data callbacks and of notifications. */
  datatype Item = URL | HEADER_FIELD | HEADER_VALUE | BODY
  datatype Note = MESSAGE_BEGIN | STATUS_COMPLETE | HEADERS_COMPLETE | MESSAGE_COMPLETE

  /** What a step asks for: set a mark, run a data callback up to this byte or with it, notify. */
  datatype Act = Mark(i: Item) | Flush(i: Item) | FlushWith(i: Item) | Notify(n: Note)

  /** own is the item that the byte itself is data of. Leave ends the call because another protocol takes
      over; Abort is a failed assertion. */
  datatype Result =
    | Next(p: Parser, acts: seq<Act>, own: Option<Item>)
    | Leave(p: Parser, acts: seq<Act>)
    | Fail(errno: Errno)
    | Abort

  const NO_FLAGS: Flags := Flags(false, false, false, false, false)

  /** http_parser_init. */
  function Init(t: Type): Parser
  {
    Parser(t, if t == REQUEST then START_REQ else if t == RESPONSE then START_RES else START_REQ_OR_RES,
           H_GENERAL, 0, 0, 0, 0, 0, 0, DELETE, NO_FLAGS, false)
  }

  // ---------------------------------------------------------------- character classes

  predicate IsNum(c: char)
  {
    '0' <= c <= '9'
  }

  function Digit(c: char): nat
    requires IsNum(c)
  {
    c as int - '0' as int
  }

  predicate IsAlpha(c: char)
  {
    'a' <= c <= 'z' || 'A' <= c <= 'Z'
  }

  /** c | 0x20, on bytes. */
  function Lower(c: char): char
  {
    if c as int < 256 && (c as int / 32) % 2 == 0 then (c as int + 32) as char else c
  }

  /** Token characters, letters in lower case; others give NUL. */
  function Token(c: char): char
  {
    if 'A' <= c <= 'Z' then Lower(c)
    else if 'a' <= c <= 'z' || IsNum(c) || c in "!#$%&'*+-.^_`|~" then c
    else '\0'
  }

  predicate IsUrlChar(c: char)
  {
    '!' <= c <= '~' && c != '#' && c != '?'
  }

  predicate IsUserinfoChar(c: char)
  {
    IsAlpha(c) || IsNum(c) || c in "-_.!~*'()%;:&=+$,"
  }

  /** The unhex table: -1 for no digit. Its initialiser covers only the first 128 bytes; the rest are 0. */
  function Unhex(c: char): int
  {
    if IsNum(c) then Digit(c)
    else if 'a' <= c <= 'f' then c as int - 'a' as int + 10
    else if 'A' <= c <= 'F' then c as int - 'A' as int + 10
    else if c as int >= 128 then 0
    else -1
  }

  function MethodName(m: Method): string
  {
    match m
    case DELETE => "DELETE" case GET => "GET" case HEAD => "HEAD" case POST => "POST" case PUT => "PUT"
    case CONNECT => "CONNECT" case OPTIONS => "OPTIONS" case TRACE => "TRACE" case COPY => "COPY"
    case LOCK => "LOCK" case MKCOL => "MKCOL" case MOVE => "MOVE" case PROPFIND => "PROPFIND"
    case PROPPATCH => "PROPPATCH" case SEARCH => "SEARCH" case UNLOCK => "UNLOCK" case REPORT => "REPORT"
    case MKACTIVITY => "MKACTIVITY" case CHECKOUT => "CHECKOUT" case MERGE => "MERGE" case MSEARCH => "M-SEARCH"
    case NOTIFY => "NOTIFY" case SUBSCRIBE => "SUBSCRIBE" case UNSUBSCRIBE => "UNSUBSCRIBE"
    case PATCH => "PATCH" case PURGE => "PURGE"
  }

  /** A C string indexed: NUL at its end. */
  function CharAt(s: string, i: nat): char
  {
    if i < |s| then s[i] else '\0'
  }

  // ---------------------------------------------------------------- results

  function Go(p: Parser, s: State): Result
  {
    Next(p.(state := s), [], None)
  }

  function Stay(p: Parser): Result
  {
    Next(p, [], None)
  }

  function Tell(p: Parser, s: State, n: Note): Result
  {
    Next(p.(state := s), [Notify(n)], None)
  }

  /** goto reexecute_byte, after what was done already. */
  function After(acts: seq<Act>, r: Result): Result
  {
    match r
    case Next(p, more, own) => Next(p, acts + more, own)
    case Leave(p, more) => Leave(p, acts + more)
    case Fail(e) => Fail(e)
    case Abort => Abort
  }

  function StartState(p: Parser): State
  {
    if p.kind == REQUEST then START_REQ else START_RES
  }

  /** http_message_needs_eof. */
  predicate NeedsEof(p: Parser)
  {
    && p.kind != REQUEST
    && !(p.status / 100 == 1 || p.status == 204 || p.status == 304)
    && !(p.flags.chunked || p.length != ULLONG_MAX)
  }

  /** http_should_keep_alive. */
  predicate ShouldKeepAlive(p: Parser)
  {
    && (if p.major > 0 && p.minor > 0 then !p.flags.close else p.flags.keepAlive)
    && !NeedsEof(p)
  }

  /** NEW_MESSAGE in strict mode. */
  function NewMessage(p: Parser): State
  {
    if ShouldKeepAlive(p) then StartState(p) else DEAD
  }

  function Complete(p: Parser): Result
  {
    Tell(p, NewMessage(p), MESSAGE_COMPLETE)
  }

  // ---------------------------------------------------------------- first lines

  /** A number of at most three digits, with its next digit. */
  function NextDigit(n: nat, c: char): Option<nat>
  {
    if !IsNum(c) || n * 10 + Digit(c) > 999 then None else Some(n * 10 + Digit(c))
  }

  /** The first guess at the method. */
  function FirstGuess(c: char): Option<Method>
  {
    match c
    case 'C' => Some(CONNECT) case 'D' => Some(DELETE) case 'G' => Some(GET) case 'H' => Some(HEAD)
    case 'L' => Some(LOCK) case 'M' => Some(MKCOL) case 'N' => Some(NOTIFY) case 'O' => Some(OPTIONS)
    case 'P' => Some(POST) case 'R' => Some(REPORT) case 'S' => Some(SUBSCRIBE) case 'T' => Some(TRACE)
    case 'U' => Some(UNLOCK)
    case _ => None
  }

  function StartRequest(p: Parser, c: char): Result
  {
    if c == CR || c == LF then Stay(p)
    else
      match FirstGuess(c)
      case Some(m) =>
        Tell(p.(flags := NO_FLAGS, length := ULLONG_MAX, index := 1, meth := m), REQ_METHOD, MESSAGE_BEGIN)
      case None => Fail(INVALID_METHOD)
  }

  /** The method that a differing byte at an index turns the guess into. */
  function Reguess(m: Method, index: nat, c: char): Option<Method>
  {
    match m
    case CONNECT =>
      if index == 1 && c == 'H' then Some(CHECKOUT) else if index == 2 && c == 'P' then Some(COPY) else None
    case MKCOL =>
      if index == 1 && c == 'O' then Some(MOVE)
      else if index == 1 && c == 'E' then Some(MERGE)
      else if index == 1 && c == '-' then Some(MSEARCH)
      else if index == 2 && c == 'A' then Some(MKACTIVITY)
      else None
    case SUBSCRIBE => if index == 1 && c == 'E' then Some(SEARCH) else None
    case POST =>
      if index == 1 && c == 'R' then Some(PROPFIND)
      else if index == 1 && c == 'U' then Some(PUT)
      else if index == 1 && c == 'A' then Some(PATCH)
      else None
    case PUT => if index == 2 && c == 'R' then Some(PURGE) else None
    case UNLOCK => if index == 2 && c == 'S' then Some(UNSUBSCRIBE) else None
    case PROPFIND => if index == 4 && c == 'P' then Some(PROPPATCH) else None
    case _ => None
  }

  function RequestMethod(p: Parser, c: char): Result
  {
    if c == '\0' then Fail(INVALID_METHOD)
    else
      var expected := CharAt(MethodName(p.meth), p.index);
      if c == ' ' && expected == '\0' then Next(p.(state := REQ_SPACES, index := p.index + 1), [], None)
      else if c == expected then Stay(p.(index := p.index + 1))
      else
        match Reguess(p.meth, p.index, c)
        case Some(m) => Stay(p.(meth := m, index := p.index + 1))
        case None => Fail(INVALID_METHOD)
  }

  /** parse_url_char: DEAD for a byte that does not fit. */
  function UrlChar(s: State, c: char): State
  {
    if c in " \r\n\t" || c as int == 12 then DEAD
    else
      match s
      case REQ_SPACES => if c == '/' || c == '*' then REQ_PATH else if IsAlpha(c) then REQ_SCHEMA else DEAD
      case REQ_SCHEMA => if IsAlpha(c) then REQ_SCHEMA else if c == ':' then REQ_SCHEMA_SLASH else DEAD
      case REQ_SCHEMA_SLASH => if c == '/' then REQ_SCHEMA_SLASH_SLASH else DEAD
      case REQ_SCHEMA_SLASH_SLASH => if c == '/' then REQ_SERVER_START else DEAD
      case REQ_SERVER_WITH_AT => if c == '@' then DEAD else ServerChar(c)
      case REQ_SERVER_START => ServerChar(c)
      case REQ_SERVER => ServerChar(c)
      case REQ_PATH =>
        if IsUrlChar(c) then REQ_PATH
        else if c == '?' then REQ_QUERY_START
        else if c == '#' then REQ_FRAGMENT_START
        else DEAD
      case REQ_QUERY_START => QueryChar(c)
      case REQ_QUERY => QueryChar(c)
      case REQ_FRAGMENT_START =>
        if IsUrlChar(c) || c == '?' then REQ_FRAGMENT else if c == '#' then REQ_FRAGMENT_START else DEAD
      case REQ_FRAGMENT => if IsUrlChar(c) || c == '?' || c == '#' then REQ_FRAGMENT else DEAD
      case _ => DEAD
  }

  function ServerChar(c: char): State
  {
    if c == '/' then REQ_PATH
    else if c == '?' then REQ_QUERY_START
    else if c == '@' then REQ_SERVER_WITH_AT
    else if IsUserinfoChar(c) || c == '[' || c == ']' then REQ_SERVER
    else DEAD
  }

  function QueryChar(c: char): State
  {
    if IsUrlChar(c) || c == '?' then REQ_QUERY else if c == '#' then REQ_FRAGMENT_START else DEAD
  }

  function UrlStart(p: Parser, c: char): Result
  {
    if c == ' ' then Stay(p)
    else
      var s := UrlChar(if p.meth == CONNECT then REQ_SERVER_START else p.state, c);
      if s == DEAD then Fail(INVALID_URL) else Next(p.(state := s), [Mark(URL)], Some(URL))
  }

  /** The parts of a URL in which it may not end. */
  function UrlBegin(p: Parser, c: char): Result
  {
    var s := UrlChar(p.state, c);
    if s == DEAD then Fail(INVALID_URL) else Next(p.(state := s), [], Some(URL))
  }

  function UrlRest(p: Parser, c: char): Result
  {
    if c == ' ' then Next(p.(state := REQ_HTTP_START), [Flush(URL)], None)
    else if c == CR || c == LF then
      Next(p.(major := 0, minor := 9, state := if c == CR then REQ_LINE_ALMOST_DONE else FIELD_START), [Flush(URL)],
           None)
    else UrlBegin(p, c)
  }

  function Expect(p: Parser, c: char, want: char, s: State): Result
  {
    if c != want then Fail(STRICT) else Go(p, s)
  }

  function Major(p: Parser, c: char, dot: State): Result
  {
    if c == '.' then Go(p, dot)
    else match NextDigit(p.major, c) case Some(n) => Stay(p.(major := n)) case None => Fail(INVALID_VERSION)
  }

  function Minor(p: Parser, c: char): Result
  {
    match NextDigit(p.minor, c) case Some(n) => Stay(p.(minor := n)) case None => Fail(INVALID_VERSION)
  }

  function StatusCode(p: Parser, c: char): Result
  {
    if IsNum(c) then
      match NextDigit(p.status, c) case Some(n) => Stay(p.(status := n)) case None => Fail(INVALID_STATUS)
    else if c == ' ' then Go(p, RES_STATUS)
    else if c == CR then Go(p, RES_LINE_ALMOST_DONE)
    else if c == LF then Go(p, FIELD_START)
    else Fail(INVALID_STATUS)
  }

  function ResponseLine(p: Parser, c: char): Result
  {
    match p.state
    case START_RES =>
      var q := p.(flags := NO_FLAGS, length := ULLONG_MAX);
      if c == 'H' then Tell(q, RES_H, MESSAGE_BEGIN)
      else if c == CR || c == LF then Tell(q, START_RES, MESSAGE_BEGIN)
      else Fail(INVALID_CONSTANT)
    case RES_H => Expect(p, c, 'T', RES_HT)
    case RES_HT => Expect(p, c, 'T', RES_HTT)
    case RES_HTT => Expect(p, c, 'P', RES_HTTP)
    case RES_HTTP => Expect(p, c, '/', RES_FIRST_MAJOR)
    case RES_FIRST_MAJOR => if !IsNum(c) then Fail(INVALID_VERSION) else Go(p.(major := Digit(c)), RES_MAJOR)
    case RES_MAJOR => Major(p, c, RES_FIRST_MINOR)
    case RES_FIRST_MINOR => if !IsNum(c) then Fail(INVALID_VERSION) else Go(p.(minor := Digit(c)), RES_MINOR)
    case RES_MINOR => if c == ' ' then Go(p, RES_FIRST_STATUS) else Minor(p, c)
    case RES_FIRST_STATUS =>
      if IsNum(c) then Go(p.(status := Digit(c)), RES_STATUS_CODE)
      else if c == ' ' then Stay(p)
      else Fail(INVALID_STATUS)
    case RES_STATUS_CODE => StatusCode(p, c)
    case RES_STATUS => if c == CR then Go(p, RES_LINE_ALMOST_DONE) else if c == LF then Go(p, FIELD_START) else Stay(p)
    case _ => if c != LF then Fail(STRICT) else Tell(p, FIELD_START, STATUS_COMPLETE)
  }

  function RequestLine(p: Parser, c: char): Result
  {
    match p.state
    case START_REQ => StartRequest(p, c)
    case REQ_METHOD => RequestMethod(p, c)
    case REQ_SPACES => UrlStart(p, c)
    case REQ_HTTP_START => if c == 'H' then Go(p, REQ_HTTP_H) else if c == ' ' then Stay(p) else Fail(INVALID_CONSTANT)
    case REQ_HTTP_H => Expect(p, c, 'T', REQ_HTTP_HT)
    case REQ_HTTP_HT => Expect(p, c, 'T', REQ_HTTP_HTT)
    case REQ_HTTP_HTT => Expect(p, c, 'P', REQ_HTTP_HTTP)
    case REQ_HTTP_HTTP => Expect(p, c, '/', REQ_FIRST_MAJOR)
    case REQ_FIRST_MAJOR => if !('1' <= c <= '9') then Fail(INVALID_VERSION) else Go(p.(major := Digit(c)), REQ_MAJOR)
    case REQ_MAJOR => Major(p, c, REQ_FIRST_MINOR)
    case REQ_FIRST_MINOR => if !IsNum(c) then Fail(INVALID_VERSION) else Go(p.(minor := Digit(c)), REQ_MINOR)
    case REQ_MINOR =>
      if c == CR then Go(p, REQ_LINE_ALMOST_DONE) else if c == LF then Go(p, FIELD_START) else Minor(p, c)
    case REQ_LINE_ALMOST_DONE => if c != LF then Fail(LF_EXPECTED) else Go(p, FIELD_START)
    case REQ_SCHEMA => UrlBegin(p, c)
    case REQ_SCHEMA_SLASH => UrlBegin(p, c)
    case REQ_SCHEMA_SLASH_SLASH => UrlBegin(p, c)
    case REQ_SERVER_START => UrlBegin(p, c)
    case _ => UrlRest(p, c)
  }

  function EitherLine(p: Parser, c: char): Result
  {
    if p.state == START_REQ_OR_RES then
      if c == CR || c == LF then Stay(p)
      else
        var q := p.(flags := NO_FLAGS, length := ULLONG_MAX);
        if c == 'H' then Tell(q, RES_OR_RESP_H, MESSAGE_BEGIN)
        else StartRequest(q.(kind := REQUEST, state := START_REQ), c)
    else
      if c == 'T' then Go(p.(kind := RESPONSE), RES_HT)
      else if c == 'E' then Go(p.(kind := REQUEST, meth := HEAD, index := 2), REQ_METHOD)
      else Fail(INVALID_CONSTANT)
  }

  // ---------------------------------------------------------------- headers

  /** After the header block: what kind of body follows, if any. */
  function HeadersDone(p: Parser, c: char): Result
  {
    if c != LF then Fail(STRICT)
    else
      var q := p.(nread := 0);
      if q.upgrade then Leave(q.(state := NewMessage(q)), [Notify(MESSAGE_COMPLETE)])
      else if q.flags.chunked then Go(q, CHUNK_SIZE_START)
      else if q.length == 0 then Complete(q)
      else if q.length != ULLONG_MAX then Go(q, BODY_IDENTITY)
      else if q.kind == REQUEST || !NeedsEof(q) then Complete(q)
      else Go(q, BODY_IDENTITY_EOF)
  }

  function HeadersAlmostDone(p: Parser, c: char): Result
  {
    if c != LF then Fail(STRICT)
    else if p.flags.trailing then Complete(p)
    else
      After([Notify(HEADERS_COMPLETE)],
            HeadersDone(p.(state := HEADERS_DONE, upgrade := p.flags.upgrade || p.meth == CONNECT), c))
  }

  function FieldStart(p: Parser, c: char): Result
  {
    if c == CR then Go(p, HEADERS_ALMOST_DONE)
    else if c == LF then HeadersAlmostDone(p.(state := HEADERS_ALMOST_DONE), c)
    else
      var t := Token(c);
      if t == '\0' then Fail(INVALID_HEADER_TOKEN)
      else
        var h := match t case 'c' => H_C case 'p' => H_MATCHING_PROXY case 't' => H_MATCHING_ENCODING
                         case 'u' => H_MATCHING_UPGRADE case _ => H_GENERAL;
        Next(p.(state := FIELD, index := 0, header := h), [Mark(HEADER_FIELD)], Some(HEADER_FIELD))
  }

  /** Compare the next byte with a name: no longer a match, the whole name, or so far so good. */
  function Matching(p: Parser, c: char, name: string, whole: HeaderState): Parser
  {
    var i := p.index + 1;
    if i > |name| || c != CharAt(name, i) then p.(index := i, header := H_GENERAL)
    else if i == |name| - 1 then p.(index := i, header := whole)
    else p.(index := i)
  }

  function FieldName(p: Parser, t: char): Option<Parser>
  {
    match p.header
    case H_GENERAL => Some(p)
    case H_C => Some(p.(index := p.index + 1, header := if t == 'o' then H_CO else H_GENERAL))
    case H_CO => Some(p.(index := p.index + 1, header := if t == 'n' then H_CON else H_GENERAL))
    case H_CON =>
      Some(p.(index := p.index + 1,
              header := if t == 'n' then H_MATCHING_CONNECTION else if t == 't' then H_MATCHING_LENGTH else H_GENERAL))
    case H_MATCHING_CONNECTION => Some(Matching(p, t, "connection", H_CONNECTION))
    case H_MATCHING_PROXY => Some(Matching(p, t, "proxy-connection", H_CONNECTION))
    case H_MATCHING_LENGTH => Some(Matching(p, t, "content-length", H_LENGTH))
    case H_MATCHING_ENCODING => Some(Matching(p, t, "transfer-encoding", H_ENCODING))
    case H_MATCHING_UPGRADE => Some(Matching(p, t, "upgrade", H_UPGRADE))
    case H_CONNECTION => Some(p.(header := H_GENERAL))
    case H_LENGTH => Some(p.(header := H_GENERAL))
    case H_ENCODING => Some(p.(header := H_GENERAL))
    case H_UPGRADE => Some(p.(header := H_GENERAL))
    case _ => None
  }

  function Field(p: Parser, c: char): Result
  {
    var t := Token(c);
    if t != '\0' then
      match FieldName(p, t) case Some(q) => Next(q, [], Some(HEADER_FIELD)) case None => Abort
    else if c == ':' then Next(p.(state := VALUE_START), [Flush(HEADER_FIELD)], None)
    else if c == CR then Next(p.(state := HEADER_ALMOST_DONE), [Flush(HEADER_FIELD)], None)
    else if c == LF then Next(p.(state := FIELD_START), [Flush(HEADER_FIELD)], None)
    else Fail(INVALID_HEADER_TOKEN)
  }

  function ValueStart(p: Parser, c: char): Result
  {
    if c == ' ' || c == '\t' then Stay(p)
    else
      var q := p.(state := VALUE, index := 0);
      var begun := [Mark(HEADER_VALUE)];
      if c == CR then
        Next(q.(header := H_GENERAL, state := HEADER_ALMOST_DONE), [Mark(HEADER_VALUE), Flush(HEADER_VALUE)], None)
      else if c == LF then Next(q.(state := FIELD_START), [Mark(HEADER_VALUE), Flush(HEADER_VALUE)], None)
      else
        match q.header
        case H_UPGRADE => Next(q.(flags := q.flags.(upgrade := true), header := H_GENERAL), begun, Some(HEADER_VALUE))
        case H_ENCODING =>
          Next(q.(header := if Lower(c) == 'c' then H_MATCHING_CHUNKED else H_GENERAL), begun, Some(HEADER_VALUE))
        case H_LENGTH =>
          if !IsNum(c) then Fail(INVALID_CONTENT_LENGTH) else Next(q.(length := Digit(c)), begun, Some(HEADER_VALUE))
        case H_CONNECTION =>
          Next(q.(header := if Lower(c) == 'k' then H_MATCHING_KEEP_ALIVE
                            else if Lower(c) == 'c' then H_MATCHING_CLOSE else H_GENERAL), begun, Some(HEADER_VALUE))
        case _ => Next(q.(header := H_GENERAL), begun, Some(HEADER_VALUE))
  }

  /** n * base + d on 64 bits, refused when it overflows or reaches the reserved maximum. */
  function Accumulate(n: nat, base: nat, d: nat): Option<nat>
  {
    var t := (n * base + d) % (ULLONG_MAX + 1);
    if t < n || t == ULLONG_MAX then None else Some(t)
  }

  function ValueText(p: Parser, c: char): Result
  {
    match p.header
    case H_GENERAL => Next(p, [], Some(HEADER_VALUE))
    case H_CONNECTION => Abort
    case H_ENCODING => Abort
    case H_LENGTH =>
      if c == ' ' then Next(p, [], Some(HEADER_VALUE))
      else if !IsNum(c) then Fail(INVALID_CONTENT_LENGTH)
      else
        (match Accumulate(p.length, 10, Digit(c))
         case Some(n) => Next(p.(length := n), [], Some(HEADER_VALUE))
         case None => Fail(INVALID_CONTENT_LENGTH))
    case H_MATCHING_CHUNKED => Next(Matching(p, Lower(c), "chunked", H_CHUNKED), [], Some(HEADER_VALUE))
    case H_MATCHING_KEEP_ALIVE => Next(Matching(p, Lower(c), "keep-alive", H_KEEP_ALIVE), [], Some(HEADER_VALUE))
    case H_MATCHING_CLOSE => Next(Matching(p, Lower(c), "close", H_CLOSE), [], Some(HEADER_VALUE))
    case _ =>
      if c == ' ' && (p.header == H_CHUNKED || p.header == H_KEEP_ALIVE || p.header == H_CLOSE)
      then Next(p, [], Some(HEADER_VALUE))
      else Next(p.(header := H_GENERAL), [], Some(HEADER_VALUE))
  }

  function HeaderAlmostDone(p: Parser, c: char): Result
  {
    if c != LF then Fail(STRICT)
    else
      var f := match p.header
               case H_KEEP_ALIVE => p.flags.(keepAlive := true)
               case H_CLOSE => p.flags.(close := true)
               case H_CHUNKED => p.flags.(chunked := true)
               case _ => p.flags;
      Go(p.(flags := f), VALUE_LWS)
  }

  function Value(p: Parser, c: char): Result
  {
    if c == CR then Next(p.(state := HEADER_ALMOST_DONE), [Flush(HEADER_VALUE)], None)
    else if c == LF then After([Flush(HEADER_VALUE)], HeaderAlmostDone(p.(state := HEADER_ALMOST_DONE), c))
    else ValueText(p, c)
  }

  function Header(p: Parser, c: char): Result
  {
    match p.state
    case FIELD_START => FieldStart(p, c)
    case FIELD => Field(p, c)
    case VALUE_START => ValueStart(p, c)
    case VALUE => Value(p, c)
    case HEADER_ALMOST_DONE => HeaderAlmostDone(p, c)
    case VALUE_LWS => if c == ' ' || c == '\t' then Go(p, VALUE_START) else FieldStart(p.(state := FIELD_START), c)
    case HEADERS_ALMOST_DONE => HeadersAlmostDone(p, c)
    case _ => HeadersDone(p, c)
  }

  // ---------------------------------------------------------------- bodies

  function ChunkSize(p: Parser, c: char): Result
  {
    if c == CR then Go(p, CHUNK_SIZE_ALMOST_DONE)
    else if Unhex(c) == -1 then if c == ';' || c == ' ' then Go(p, CHUNK_PARAMETERS) else Fail(INVALID_CHUNK_SIZE)
    else
      match Accumulate(p.length, 16, Unhex(c))
      case Some(n) => Stay(p.(length := n))
      case None => Fail(INVALID_CONTENT_LENGTH)
  }

  function Chunk(p: Parser, c: char): Result
  {
    if !p.flags.chunked then Abort
    else
      match p.state
      case CHUNK_SIZE_START =>
        if p.nread != 1 then Abort
        else if Unhex(c) == -1 then Fail(INVALID_CHUNK_SIZE)
        else Go(p.(length := Unhex(c)), CHUNK_SIZE)
      case CHUNK_SIZE => ChunkSize(p, c)
      case CHUNK_PARAMETERS => if c == CR then Go(p, CHUNK_SIZE_ALMOST_DONE) else Stay(p)
      case CHUNK_SIZE_ALMOST_DONE =>
        if c != LF then Fail(STRICT)
        else
          var q := p.(nread := 0);
          if q.length == 0 then Go(q.(flags := q.flags.(trailing := true)), FIELD_START) else Go(q, CHUNK_DATA)
      case CHUNK_DATA =>
        if p.length == 0 || p.length == ULLONG_MAX then Abort
        else
          Next(p.(length := p.length - 1, state := if p.length == 1 then CHUNK_DATA_ALMOST_DONE else CHUNK_DATA),
               [Mark(BODY)], Some(BODY))
      case CHUNK_DATA_ALMOST_DONE =>
        if p.length != 0 then Abort
        else if c != CR then Fail(STRICT)
        else Next(p.(state := CHUNK_DATA_DONE), [Flush(BODY)], None)
      case _ => if c != LF then Fail(STRICT) else Go(p.(nread := 0), CHUNK_SIZE_START)
  }

  function Identity(p: Parser): Result
  {
    if p.length == 0 || p.length == ULLONG_MAX then Abort
    else if p.length == 1 then
      var q := p.(length := 0, state := MESSAGE_DONE);
      Next(q.(state := NewMessage(q)), [Mark(BODY), FlushWith(BODY), Notify(MESSAGE_COMPLETE)], Some(BODY))
    else Next(p.(length := p.length - 1), [Mark(BODY)], Some(BODY))
  }

  // ---------------------------------------------------------------- one byte

  predicate ParsingHeader(s: State)
  {
    && !s.CHUNK_DATA? && !s.CHUNK_DATA_ALMOST_DONE? && !s.CHUNK_DATA_DONE?
    && !s.BODY_IDENTITY? && !s.BODY_IDENTITY_EOF? && !s.MESSAGE_DONE?
  }

  predicate InResponseLine(s: State)
  {
    || s.START_RES? || s.RES_H? || s.RES_HT? || s.RES_HTT? || s.RES_HTTP? || s.RES_FIRST_MAJOR?
    || s.RES_MAJOR? || s.RES_FIRST_MINOR? || s.RES_MINOR? || s.RES_FIRST_STATUS? || s.RES_STATUS_CODE?
    || s.RES_STATUS? || s.RES_LINE_ALMOST_DONE?
  }

  predicate InHeader(s: State)
  {
    || s.FIELD_START? || s.FIELD? || s.VALUE_START? || s.VALUE? || s.VALUE_LWS? || s.HEADER_ALMOST_DONE?
    || s.HEADERS_ALMOST_DONE? || s.HEADERS_DONE?
  }

  predicate InChunk(s: State)
  {
    || s.CHUNK_SIZE_START? || s.CHUNK_SIZE? || s.CHUNK_PARAMETERS? || s.CHUNK_SIZE_ALMOST_DONE?
    || s.CHUNK_DATA? || s.CHUNK_DATA_ALMOST_DONE? || s.CHUNK_DATA_DONE?
  }

  /** The states within a URL, at whose bytes a call sets the URL mark when it begins there. */
  predicate InUrl(s: State)
  {
    || s.REQ_SCHEMA? || s.REQ_SCHEMA_SLASH? || s.REQ_SCHEMA_SLASH_SLASH? || s.REQ_SERVER_START?
    || s.REQ_SERVER? || s.REQ_SERVER_WITH_AT? || s.REQ_PATH? || s.REQ_QUERY_START? || s.REQ_QUERY?
    || s.REQ_FRAGMENT_START? || s.REQ_FRAGMENT?
  }

  /** The switch on the state. */
  function Dispatch(p: Parser, c: char): Result
  {
    if p.state == DEAD then if c == CR || c == LF then Stay(p) else Fail(CLOSED_CONNECTION)
    else if p.state == START_REQ_OR_RES || p.state == RES_OR_RESP_H then EitherLine(p, c)
    else if InResponseLine(p.state) then ResponseLine(p, c)
    else if InHeader(p.state) then Header(p, c)
    else if InChunk(p.state) then Chunk(p, c)
    else if p.state == BODY_IDENTITY then Identity(p)
    else if p.state == BODY_IDENTITY_EOF then Next(p, [Mark(BODY)], Some(BODY))
    else if p.state == MESSAGE_DONE then Complete(p)
    else RequestLine(p, c)
  }

  /** One byte, counted against the limit on header bytes. */
  function Step(p: Parser, c: char): Result
  {
    if ParsingHeader(p.state) then
      if p.nread + 1 > MAX_HEADER_SIZE then Fail(HEADER_OVERFLOW) else Dispatch(p.(nread := p.nread + 1), c)
    else Dispatch(p, c)
  }
}
