/** The first line of a message: a request line sets the method and the version to what is written, a status line the
    version and the status. */
module HttpLines {
  import opened Common
  import opened HttpParser
  import opened HttpRun
  import opened HttpSafety
  import opened HttpExecute
  import opened HttpFraming

  // ---------------------------------------------------------------- stepping

  predicate InRequestLine(s: State)
  {
    || s.START_REQ? || s.REQ_METHOD? || s.REQ_SPACES? || InUrl(s) || s.REQ_HTTP_START? || s.REQ_HTTP_H?
    || s.REQ_HTTP_HT? || s.REQ_HTTP_HTT? || s.REQ_HTTP_HTTP? || s.REQ_FIRST_MAJOR? || s.REQ_MAJOR?
    || s.REQ_FIRST_MINOR? || s.REQ_MINOR? || s.REQ_LINE_ALMOST_DONE?
  }

  lemma RequestStep(p: Parser, c: char)
    requires InRequestLine(p.state) && p.nread < MAX_HEADER_SIZE
    ensures Step(p, c) == RequestLine(p.(nread := p.nread + 1), c)
  {
    hide EitherLine, ResponseLine, RequestLine, Header, Chunk;
  }

  lemma ResponseStep(p: Parser, c: char)
    requires InResponseLine(p.state) && p.nread < MAX_HEADER_SIZE
    ensures Step(p, c) == ResponseLine(p.(nread := p.nread + 1), c)
  {
    hide EitherLine, ResponseLine, RequestLine, Header, Chunk;
  }

  /** A byte that only changes the state. */
  lemma Silent(p: Parser, c: char, q: Parser)
    requires Step(p, c) == Next(q, [], None)
    ensures Run(p, [c]) == Running(q, [])
  {
    hide Step;
    NoEvents(c, URL);
    RunSingle(p, c, q, [], None);
  }

  // ---------------------------------------------------------------- the method

  /** The parser's guess after the first k letters of a method's name. */
  function Guess(m: Method, k: nat): Option<Method>
    requires 1 <= k <= |MethodName(m)|
  {
    var c := MethodName(m)[k - 1];
    if k == 1 then FirstGuess(c)
    else
      match Guess(m, k - 1)
      case None => None
      case Some(g) => if c == CharAt(MethodName(g), k - 1) then Some(g) else Reguess(g, k - 1, c)
  }

  lemma {:induction false} GuessBefore(m: Method, k: nat, n: nat)
    requires 1 <= k <= n <= |MethodName(m)| && Guess(m, n).Some?
    ensures Guess(m, k).Some?
    decreases n
  {
    hide MethodName, FirstGuess, Reguess;
    if k < n { GuessBefore(m, k, n - 1); }
  }

  /** The guess after k letters, from the one before. */
  lemma GuessNext(m: Method, k: nat, f: Method)
    requires 2 <= k <= |MethodName(m)| && Guess(m, k - 1) == Some(f)
    ensures Guess(m, k) == var c := MethodName(m)[k - 1];
                           if c == CharAt(MethodName(f), k - 1) then Some(f) else Reguess(f, k - 1, c)
  {
    hide MethodName, FirstGuess, Reguess;
  }

  lemma GuessCheckout()
    ensures |MethodName(CHECKOUT)| >= 2 && Guess(CHECKOUT, 2) == Some(CHECKOUT)
  {
    assert Guess(CHECKOUT, 1) == Some(CONNECT);
    GuessNext(CHECKOUT, 2, CONNECT);
  }

  lemma GuessCopy()
    ensures |MethodName(COPY)| >= 3 && Guess(COPY, 3) == Some(COPY)
  {
    assert Guess(COPY, 1) == Some(CONNECT);
    GuessNext(COPY, 2, CONNECT);
    assert Guess(COPY, 2) == Some(CONNECT);
    GuessNext(COPY, 3, CONNECT);
  }

  lemma GuessMove()
    ensures |MethodName(MOVE)| >= 2 && Guess(MOVE, 2) == Some(MOVE)
  {
    assert Guess(MOVE, 1) == Some(MKCOL);
    GuessNext(MOVE, 2, MKCOL);
  }

  lemma GuessMerge()
    ensures |MethodName(MERGE)| >= 2 && Guess(MERGE, 2) == Some(MERGE)
  {
    assert Guess(MERGE, 1) == Some(MKCOL);
    GuessNext(MERGE, 2, MKCOL);
  }

  lemma GuessMsearch()
    ensures |MethodName(MSEARCH)| >= 2 && Guess(MSEARCH, 2) == Some(MSEARCH)
  {
    assert Guess(MSEARCH, 1) == Some(MKCOL);
    GuessNext(MSEARCH, 2, MKCOL);
  }

  lemma GuessMkactivity()
    ensures |MethodName(MKACTIVITY)| >= 3 && Guess(MKACTIVITY, 3) == Some(MKACTIVITY)
  {
    assert Guess(MKACTIVITY, 1) == Some(MKCOL);
    GuessNext(MKACTIVITY, 2, MKCOL);
    assert Guess(MKACTIVITY, 2) == Some(MKCOL);
    GuessNext(MKACTIVITY, 3, MKCOL);
  }

  lemma GuessSearch()
    ensures |MethodName(SEARCH)| >= 2 && Guess(SEARCH, 2) == Some(SEARCH)
  {
    assert Guess(SEARCH, 1) == Some(SUBSCRIBE);
    GuessNext(SEARCH, 2, SUBSCRIBE);
  }

  lemma GuessPropfind()
    ensures |MethodName(PROPFIND)| >= 2 && Guess(PROPFIND, 2) == Some(PROPFIND)
  {
    assert Guess(PROPFIND, 1) == Some(POST);
    GuessNext(PROPFIND, 2, POST);
  }

  lemma GuessPut()
    ensures |MethodName(PUT)| >= 2 && Guess(PUT, 2) == Some(PUT)
  {
    assert Guess(PUT, 1) == Some(POST);
    GuessNext(PUT, 2, POST);
  }

  lemma GuessPatch()
    ensures |MethodName(PATCH)| >= 2 && Guess(PATCH, 2) == Some(PATCH)
  {
    assert Guess(PATCH, 1) == Some(POST);
    GuessNext(PATCH, 2, POST);
  }

  lemma GuessPurge()
    ensures |MethodName(PURGE)| >= 3 && Guess(PURGE, 3) == Some(PURGE)
  {
    assert Guess(PURGE, 1) == Some(POST);
    GuessNext(PURGE, 2, POST);
    assert Guess(PURGE, 2) == Some(PUT);
    GuessNext(PURGE, 3, PUT);
  }

  lemma GuessUnsubscribe()
    ensures |MethodName(UNSUBSCRIBE)| >= 3 && Guess(UNSUBSCRIBE, 3) == Some(UNSUBSCRIBE)
  {
    assert Guess(UNSUBSCRIBE, 1) == Some(UNLOCK);
    GuessNext(UNSUBSCRIBE, 2, UNLOCK);
    assert Guess(UNSUBSCRIBE, 2) == Some(UNLOCK);
    GuessNext(UNSUBSCRIBE, 3, UNLOCK);
  }

  lemma GuessProppatch()
    ensures |MethodName(PROPPATCH)| >= 5 && Guess(PROPPATCH, 5) == Some(PROPPATCH)
  {
    assert Guess(PROPPATCH, 1) == Some(POST);
    GuessNext(PROPPATCH, 2, POST);
    GuessNext(PROPPATCH, 3, PROPFIND);
    GuessNext(PROPPATCH, 4, PROPFIND);
    GuessNext(PROPPATCH, 5, PROPFIND);
  }

  /** Every method is guessed by some letter. */
  lemma GuessedBy(m: Method) returns (k: nat)
    ensures 1 <= k <= |MethodName(m)| && Guess(m, k) == Some(m)
  {
    k := 1;
    match m
    case CHECKOUT => GuessCheckout(); k := 2;
    case COPY => GuessCopy(); k := 3;
    case MOVE => GuessMove(); k := 2;
    case MERGE => GuessMerge(); k := 2;
    case MSEARCH => GuessMsearch(); k := 2;
    case MKACTIVITY => GuessMkactivity(); k := 3;
    case SEARCH => GuessSearch(); k := 2;
    case PROPFIND => GuessPropfind(); k := 2;
    case PUT => GuessPut(); k := 2;
    case PATCH => GuessPatch(); k := 2;
    case PURGE => GuessPurge(); k := 3;
    case UNSUBSCRIBE => GuessUnsubscribe(); k := 3;
    case PROPPATCH => GuessProppatch(); k := 5;
    case _ =>
      FirstGuessed(m);
  }

  lemma FirstGuessed(m: Method)
    requires m in {DELETE, GET, HEAD, POST, CONNECT, OPTIONS, TRACE, LOCK, MKCOL, REPORT, UNLOCK, NOTIFY, SUBSCRIBE}
    ensures |MethodName(m)| >= 1 && Guess(m, 1) == Some(m)
  {
  }

  /** The last guess is the method. */
  lemma GuessRight(m: Method)
    ensures |MethodName(m)| >= 1 && Guess(m, |MethodName(m)|) == Some(m)
  {
    hide *;
    var k := GuessedBy(m);
    GuessOn(m, k);
  }

  /** A guess that is right stays. */
  lemma {:induction false} GuessOn(m: Method, k: nat)
    requires 1 <= k <= |MethodName(m)| && Guess(m, k) == Some(m)
    ensures Guess(m, |MethodName(m)|) == Some(m)
    decreases |MethodName(m)| - k
  {
    hide MethodName, FirstGuess, Reguess;
    if k < |MethodName(m)| { GuessOn(m, k + 1); }
  }

  /** Neither a control character nor a space. */
  predicate Printable(c: char)
  {
    '!' <= c <= '~'
  }

  lemma FirstNames(m: Method, k: nat)
    requires m in {DELETE, GET, HEAD, POST, PUT, CONNECT, OPTIONS, TRACE, COPY} && k < |MethodName(m)|
    ensures Printable(MethodName(m)[k])
  {
  }

  lemma MoreNames(m: Method, k: nat)
    requires m in {LOCK, MKCOL, MOVE, PROPFIND, PROPPATCH, SEARCH, UNLOCK, REPORT, MKACTIVITY} && k < |MethodName(m)|
    ensures Printable(MethodName(m)[k])
  {
  }

  lemma LastNames(m: Method, k: nat)
    requires m in {CHECKOUT, MERGE, MSEARCH, NOTIFY, SUBSCRIBE, UNSUBSCRIBE, PATCH, PURGE} && k < |MethodName(m)|
    ensures Printable(MethodName(m)[k])
  {
  }

  lemma NoNulName(m: Method, k: nat)
    requires k < |MethodName(m)|
    ensures Printable(MethodName(m)[k])
  {
    hide MethodName;
    if m in {DELETE, GET, HEAD, POST, PUT, CONNECT, OPTIONS, TRACE, COPY} {
      FirstNames(m, k);
    } else if m in {LOCK, MKCOL, MOVE, PROPFIND, PROPPATCH, SEARCH, UNLOCK, REPORT, MKACTIVITY} {
      MoreNames(m, k);
    } else {
      LastNames(m, k);
    }
  }

  /** After k letters of the name. */
  function InMethod(p: Parser, m: Method, k: nat, g: Method): Parser
  {
    p.(nread := p.nread + k, state := REQ_METHOD, flags := NO_FLAGS, length := ULLONG_MAX, index := k, meth := g)
  }

  lemma FirstOfMethod(p: Parser, m: Method)
    requires p.state.START_REQ? && p.nread < MAX_HEADER_SIZE && 1 <= |MethodName(m)| && Guess(m, 1).Some?
    ensures Step(p, MethodName(m)[0]) == Next(InMethod(p, m, 1, Guess(m, 1).value), [Notify(MESSAGE_BEGIN)], None)
  {
    hide Step, MethodName, FirstGuess, UrlStart, UrlBegin, UrlRest, RequestMethod, Major, Minor;
    NoNulName(m, 0);
    RequestStep(p, MethodName(m)[0]);
  }

  lemma MethodStep(p: Parser, c: char)
    requires p.state.REQ_METHOD? && p.nread < MAX_HEADER_SIZE
    ensures Step(p, c) == RequestMethod(p.(nread := p.nread + 1), c)
  {
    hide Step, RequestMethod, UrlStart, UrlBegin, UrlRest, StartRequest, Major, Minor;
    RequestStep(p, c);
  }

  lemma NextOfMethod(p: Parser, m: Method, k: nat)
    requires 1 <= k < |MethodName(m)| && Guess(m, k).Some? && Guess(m, k + 1).Some? && p.nread + k < MAX_HEADER_SIZE
    ensures Step(InMethod(p, m, k, Guess(m, k).value), MethodName(m)[k]) ==
              Next(InMethod(p, m, k + 1, Guess(m, k + 1).value), [], None)
  {
    GuessNext(m, k + 1, Guess(m, k).value);
    hide Step, MethodName, Guess, Reguess;
    NoNulName(m, k);
    MethodStep(InMethod(p, m, k, Guess(m, k).value), MethodName(m)[k]);
  }

  lemma BeginEvents(c: char)
    ensures Events([Notify(MESSAGE_BEGIN)], None, c) == [Told(MESSAGE_BEGIN)]
    ensures Events([Notify(STATUS_COMPLETE)], None, c) == [Told(STATUS_COMPLETE)]
  {
    var l := Log(map[], []);
    DoOne(l, "", 0, [Notify(MESSAGE_BEGIN)]);
    DoOne(l, "", 0, [Notify(STATUS_COMPLETE)]);
  }

  lemma {:induction false} MethodRead(p: Parser, m: Method, k: nat)
    requires p.state.START_REQ? && 1 <= k <= |MethodName(m)| && p.nread + k <= MAX_HEADER_SIZE
    ensures Guess(m, k).Some?
    ensures Run(p, MethodName(m)[..k]) == Running(InMethod(p, m, k, Guess(m, k).value), [Told(MESSAGE_BEGIN)])
  {
    hide *;
    GuessRight(m);
    GuessBefore(m, k, |MethodName(m)|);
    var name := MethodName(m);
    if k == 1 {
      FirstOfMethod(p, m);
      BeginEvents(name[0]);
      RunSingle(p, name[0], InMethod(p, m, 1, Guess(m, 1).value), [Notify(MESSAGE_BEGIN)], None);
      assert name[..1] == [name[0]];
    } else {
      GuessBefore(m, k - 1, |name|);
      MethodRead(p, m, k - 1);
      InMethodState(p, m, k - 1);
      NextOfMethod(p, m, k - 1);
      NoEvents(name[k - 1], URL);
      RunOne(p, name[..k - 1], name[k - 1]);
      assert name[..k] == name[..k - 1] + [name[k - 1]];
      assert [Told(MESSAGE_BEGIN)] + [] == [Told(MESSAGE_BEGIN)];
    }
  }

  lemma InMethodState(p: Parser, m: Method, k: nat)
    ensures forall g :: InMethod(p, m, k, g).state.REQ_METHOD?
  {
  }

  lemma MethodEnd(p: Parser, m: Method)
    requires p.nread + |MethodName(m)| < MAX_HEADER_SIZE
    ensures var q := InMethod(p, m, |MethodName(m)|, m);
            Step(q, ' ') == Next(q.(nread := q.nread + 1, state := REQ_SPACES, index := q.index + 1), [], None)
  {
    hide Step, MethodName, Reguess;
    MethodStep(InMethod(p, m, |MethodName(m)|, m), ' ');
  }

  // ---------------------------------------------------------------- the URL

  /** The state after a URL, read from state s on. */
  function UrlState(s: State, url: string): State
  {
    if |url| == 0 then s else UrlChar(UrlState(s, url[..|url| - 1]), url[|url| - 1])
  }

  function UrlFrom(m: Method): State
  {
    if m == CONNECT then REQ_SERVER_START else REQ_SPACES
  }

  /** A URL that a request line may have: every byte fits, and it does not end within the scheme. */
  predicate UrlText(m: Method, url: string)
  {
    |url| > 0 && UrlFits(UrlFrom(m), url) && UrlEnds(UrlState(UrlFrom(m), url))
  }

  predicate UrlFits(from: State, url: string)
  {
    forall k :: 0 < k <= |url| ==> UrlState(from, url[..k]) != DEAD
  }

  lemma UrlLast(from: State, url: string)
    requires |url| > 0 && UrlFits(from, url)
    ensures var n := |url| - 1;
            && UrlFits(from, url[..n]) && UrlState(from, url) == UrlChar(UrlState(from, url[..n]), url[n])
            && UrlState(from, url) != DEAD && UrlState(from, "") == from
  {
    hide UrlChar;
    var n := |url| - 1;
    assert url[..n + 1] == url && UrlState(from, url[..n + 1]) != DEAD;
    forall k | 0 < k <= n ensures UrlState(from, url[..n][..k]) != DEAD { assert url[..n][..k] == url[..k]; }
  }

  /** A space may end the URL. */
  predicate UrlEnds(s: State)
  {
    || s.REQ_SERVER? || s.REQ_SERVER_WITH_AT? || s.REQ_PATH? || s.REQ_QUERY_START? || s.REQ_QUERY?
    || s.REQ_FRAGMENT_START? || s.REQ_FRAGMENT?
  }

  lemma UrlCharStates(s: State, c: char)
    ensures UrlChar(s, c) == DEAD || (InUrl(UrlChar(s, c)) && c != ' ' && c != CR && c != LF)
  {
    hide IsUserinfoChar;
  }

  lemma UrlFirst(p: Parser, c: char)
    requires p.state.REQ_SPACES? && p.nread < MAX_HEADER_SIZE && UrlChar(UrlFrom(p.meth), c) != DEAD
    ensures Step(p, c) == Next(p.(nread := p.nread + 1, state := UrlChar(UrlFrom(p.meth), c)), [Mark(URL)], Some(URL))
  {
    UrlCharStates(UrlFrom(p.meth), c);
    hide Step, UrlChar, StartRequest, RequestMethod, UrlBegin, UrlRest, Major, Minor;
    RequestStep(p, c);
  }

  lemma UrlNext(p: Parser, c: char)
    requires InUrl(p.state) && p.nread < MAX_HEADER_SIZE && UrlChar(p.state, c) != DEAD
    ensures Step(p, c) == Next(p.(nread := p.nread + 1, state := UrlChar(p.state, c)), [], Some(URL))
  {
    UrlCharStates(p.state, c);
    hide Step, UrlChar, StartRequest, RequestMethod, UrlStart, Major, Minor;
    RequestStep(p, c);
  }

  lemma {:induction false} UrlRead(p: Parser, url: string)
    requires p.state.REQ_SPACES? && |url| > 0 && p.nread + |url| <= MAX_HEADER_SIZE && UrlFits(UrlFrom(p.meth), url)
    ensures Run(p, url) ==
              Running(p.(nread := p.nread + |url|, state := UrlState(UrlFrom(p.meth), url)), Bytes(URL, url))
    ensures InUrl(UrlState(UrlFrom(p.meth), url))
  {
    hide *;
    var n := |url| - 1;
    var c, from := url[n], UrlFrom(p.meth);
    UrlLast(from, url);
    UrlCharStates(UrlState(from, url[..n]), c);
    NoEvents(c, URL);
    BytesSnoc(URL, url[..n], c);
    assert url == url[..n] + [c];
    if n == 0 {
      assert url[..n] == "";
      UrlFirst(p, c);
      NoBytes(URL);
      RunSingle(p, c, p.(nread := p.nread + 1, state := UrlChar(from, c)), [Mark(URL)], Some(URL));
    } else {
      UrlRead(p, url[..n]);
      UrlNext(p.(nread := p.nread + n, state := UrlState(from, url[..n])), c);
      RunOne(p, url[..n], c);
    }
  }

  lemma UrlEnd(p: Parser)
    requires UrlEnds(p.state) && p.nread < MAX_HEADER_SIZE
    ensures Step(p, ' ') == Next(p.(nread := p.nread + 1, state := REQ_HTTP_START), [Flush(URL)], None)
  {
    hide Step, UrlChar, StartRequest, RequestMethod, UrlStart, UrlBegin, Major, Minor;
    RequestStep(p, ' ');
  }

  // ---------------------------------------------------------------- the version

  predicate Digits(ds: string)
  {
    |ds| > 0 && forall k :: 0 <= k < |ds| ==> IsNum(ds[k])
  }

  /** The value of digits. */
  function ValueOf(ds: string): nat
    requires forall k :: 0 <= k < |ds| ==> IsNum(ds[k])
  {
    if |ds| == 0 then 0 else 10 * ValueOf(ds[..|ds| - 1]) + Digit(ds[|ds| - 1])
  }

  lemma ValueMore(ds: string)
    requires Digits(ds)
    ensures var n := |ds| - 1;
            && (forall k :: 0 <= k < n ==> IsNum(ds[..n][k])) && ValueOf(ds) == 10 * ValueOf(ds[..n]) + Digit(ds[n])
    ensures |ds| == 1 ==> ValueOf(ds) == Digit(ds[0])
  {
    var n := |ds| - 1;
    if n == 0 { assert ds[..0] == ""; }
  }

  /** Where the parser expects a number of a version, and where it goes on with it; and how it is set. */
  datatype Part = MAJOR | MINOR

  function First(kind: Type, x: Part): State
  {
    if kind == REQUEST then (if x == MAJOR then REQ_FIRST_MAJOR else REQ_FIRST_MINOR)
    else (if x == MAJOR then RES_FIRST_MAJOR else RES_FIRST_MINOR)
  }

  function Further(kind: Type, x: Part): State
  {
    if kind == REQUEST then (if x == MAJOR then REQ_MAJOR else REQ_MINOR)
    else (if x == MAJOR then RES_MAJOR else RES_MINOR)
  }

  function SetPart(p: Parser, x: Part, n: nat): Parser
  {
    if x == MAJOR then p.(major := n) else p.(minor := n)
  }

  /** A request's version must not begin with zero. */
  predicate VersionText(kind: Type, x: Part, ds: string)
  {
    Digits(ds) && ValueOf(ds) <= 999 && (kind == REQUEST && x == MAJOR ==> ds[0] != '0')
  }

  lemma FirstDigitOf(p: Parser, kind: Type, x: Part, c: char)
    requires p.state == First(kind, x) && p.nread < MAX_HEADER_SIZE && IsNum(c)
    requires kind == REQUEST && x == MAJOR ==> c != '0'
    ensures Step(p, c) == Next(SetPart(p.(nread := p.nread + 1, state := Further(kind, x)), x, Digit(c)), [], None)
  {
    hide Step, UrlChar, StartRequest, RequestMethod, UrlStart, UrlBegin, UrlRest, StatusCode;
    if kind == REQUEST { RequestStep(p, c); } else { ResponseStep(p, c); }
  }

  lemma NextDigitOf(p: Parser, kind: Type, x: Part, n: nat, c: char)
    requires p.state == Further(kind, x) && p.nread < MAX_HEADER_SIZE && IsNum(c) && 10 * n + Digit(c) <= 999
    requires n == if x == MAJOR then p.major else p.minor
    ensures Step(p, c) == Next(SetPart(p.(nread := p.nread + 1), x, 10 * n + Digit(c)), [], None)
  {
    hide Step, UrlChar, StartRequest, RequestMethod, UrlStart, UrlBegin, UrlRest, StatusCode;
    if kind == REQUEST { RequestStep(p, c); } else { ResponseStep(p, c); }
  }

  /** The digits of a version set that part of it to their value. */
  lemma {:induction false} PartRead(p: Parser, kind: Type, x: Part, ds: string)
    requires p.state == First(kind, x) && VersionText(kind, x, ds) && p.nread + |ds| <= MAX_HEADER_SIZE
    ensures Run(p, ds) ==
              Running(SetPart(p.(nread := p.nread + |ds|, state := Further(kind, x)), x, ValueOf(ds)), [])
  {
    hide Step, Run, Digit, ValueOf;
    var n := |ds| - 1;
    var c := ds[n];
    ValueMore(ds);
    NoEvents(c, URL);
    assert ds == ds[..n] + [c];
    if n == 0 {
      FirstDigitOf(p, kind, x, c);
      Silent(p, c, SetPart(p.(nread := p.nread + 1, state := Further(kind, x)), x, Digit(c)));
    } else {
      PartRead(p, kind, x, ds[..n]);
      NextDigitOf(Run(p, ds[..n]).p, kind, x, ValueOf(ds[..n]), c);
      RunOne(p, ds[..n], c);
    }
  }

  lemma Dot(p: Parser, kind: Type)
    requires p.state == Further(kind, MAJOR) && p.nread < MAX_HEADER_SIZE
    ensures Run(p, ".") == Running(p.(nread := p.nread + 1, state := First(kind, MINOR)), [])
  {
    hide Step, Run, UrlChar, StartRequest, RequestMethod, UrlStart, UrlBegin, UrlRest, StatusCode, Minor;
    if kind == REQUEST { RequestStep(p, '.'); } else { ResponseStep(p, '.'); }
    Silent(p, '.', p.(nread := p.nread + 1, state := First(kind, MINOR)));
  }

  /** A version as it is written. */
  function VersionPart(major: string, minor: string): string
  {
    major + "." + minor
  }

  lemma VersionRead(p: Parser, kind: Type, major: string, minor: string)
    requires p.state == First(kind, MAJOR) && VersionText(kind, MAJOR, major) && VersionText(kind, MINOR, minor)
    requires p.nread + |VersionPart(major, minor)| <= MAX_HEADER_SIZE
    ensures Run(p, VersionPart(major, minor)) ==
              Running(p.(nread := p.nread + |VersionPart(major, minor)|, state := Further(kind, MINOR),
                         major := ValueOf(major), minor := ValueOf(minor)), [])
  {
    hide Step, Run, ValueOf, First, Further;
    var p1 := p.(nread := p.nread + |major|, state := Further(kind, MAJOR), major := ValueOf(major));
    var p2 := p1.(nread := p1.nread + 1, state := First(kind, MINOR));
    PartRead(p, kind, MAJOR, major);
    Dot(p1, kind);
    RunQuiet(p, major, ".", p1, p2, []);
    PartRead(p2, kind, MINOR, minor);
    var p3 := p2.(nread := p2.nread + |minor|, state := Further(kind, MINOR), minor := ValueOf(minor));
    RunQuiet(p, major + ".", minor, p2, p3, []);
  }

  // ---------------------------------------------------------------- the request line

  lemma HttpLetter(p: Parser, c: char)
    requires p.nread < MAX_HEADER_SIZE
    requires match p.state
             case REQ_HTTP_START => c == 'H'
             case REQ_HTTP_H => c == 'T'
             case REQ_HTTP_HT => c == 'T'
             case REQ_HTTP_HTT => c == 'P'
             case REQ_HTTP_HTTP => c == '/'
             case _ => false
    ensures Run(p, [c]) ==
              Running(p.(nread := p.nread + 1,
                         state := match p.state
                                  case REQ_HTTP_START => REQ_HTTP_H
                                  case REQ_HTTP_H => REQ_HTTP_HT
                                  case REQ_HTTP_HT => REQ_HTTP_HTT
                                  case REQ_HTTP_HTT => REQ_HTTP_HTTP
                                  case _ => REQ_FIRST_MAJOR), [])
  {
    hide Step, Run, UrlChar, StartRequest, RequestMethod, UrlStart, UrlBegin, UrlRest, Major, Minor;
    RequestStep(p, c);
    Silent(p, c, Step(p, c).p);
  }

  lemma HttpLetters(p: Parser, p3: Parser)
    requires p.state.REQ_HTTP_START? && p.nread + 5 <= MAX_HEADER_SIZE
    requires p3 == p.(nread := p.nread + 3, state := REQ_HTTP_HTT)
    ensures var p1, p2 := p.(nread := p.nread + 1, state := REQ_HTTP_H), p.(nread := p.nread + 2, state := REQ_HTTP_HT);
            Run(p, "H") == Running(p1, []) && Run(p1, "T") == Running(p2, []) && Run(p2, "T") == Running(p3, [])
  {
    hide *;
    HttpLetter(p, 'H');
    HttpLetter(p.(nread := p.nread + 1, state := REQ_HTTP_H), 'T');
    HttpLetter(p.(nread := p.nread + 2, state := REQ_HTTP_HT), 'T');
  }

  lemma LastLetters(p3: Parser, p5: Parser)
    requires p3.state.REQ_HTTP_HTT? && p3.nread + 2 <= MAX_HEADER_SIZE
    requires p5 == p3.(nread := p3.nread + 2, state := REQ_FIRST_MAJOR)
    ensures var p4 := p3.(nread := p3.nread + 1, state := REQ_HTTP_HTTP);
            Run(p3, "P") == Running(p4, []) && Run(p4, "/") == Running(p5, [])
  {
    hide *;
    HttpLetter(p3, 'P');
    HttpLetter(p3.(nread := p3.nread + 1, state := REQ_HTTP_HTTP), '/');
  }

  lemma HttpSlash(p: Parser)
    requires p.state.REQ_HTTP_START? && p.nread + 5 <= MAX_HEADER_SIZE
    ensures Run(p, "HTTP/") == Running(p.(nread := p.nread + 5, state := REQ_FIRST_MAJOR), [])
  {
    hide *;
    var p3 := p.(nread := p.nread + 3, state := REQ_HTTP_HTT);
    var p5 := p.(nread := p.nread + 5, state := REQ_FIRST_MAJOR);
    HttpLetters(p, p3);
    LastLetters(p3, p5);
    FiveLetters(p, p.(nread := p.nread + 1, state := REQ_HTTP_H), p.(nread := p.nread + 2, state := REQ_HTTP_HT), p3,
                p3.(nread := p3.nread + 1, state := REQ_HTTP_HTTP), p5, []);
  }

  lemma FiveLetters(p: Parser, p1: Parser, p2: Parser, p3: Parser, p4: Parser, p5: Parser, e: seq<Event>)
    requires Run(p, "H") == Running(p1, e) && Run(p1, "T") == Running(p2, []) && Run(p2, "T") == Running(p3, [])
    requires Run(p3, "P") == Running(p4, []) && Run(p4, "/") == Running(p5, [])
    ensures Run(p, "HTTP/") == Running(p5, e)
  {
    hide *;
    RunQuiet(p1, "T", "T", p2, p3, []);
    RunQuiet(p1, "T" + "T", "P", p3, p4, []);
    RunQuiet(p1, "T" + "T" + "P", "/", p4, p5, []);
    RunMore(p, "H", "T" + "T" + "P" + "/", p1, e, p5, []);
    assert "H" + ("T" + "T" + "P" + "/") == "HTTP/" && e + [] == e;
  }

  lemma RequestBreak(p: Parser, eol: string)
    requires p.state.REQ_MINOR? && LineBreak(eol) && p.nread + |eol| <= MAX_HEADER_SIZE
    ensures Run(p, eol) == Running(p.(nread := p.nread + |eol|, state := FIELD_START), [])
  {
    hide Step, Run, UrlChar, StartRequest, RequestMethod, UrlStart, UrlBegin, UrlRest, Major, Minor;
    var p1 := p.(nread := p.nread + 1, state := REQ_LINE_ALMOST_DONE);
    var p2 := p.(nread := p.nread + |eol|, state := FIELD_START);
    if eol == [LF] {
      RequestStep(p, LF);
      Silent(p, LF, p2);
    } else {
      RequestStep(p, CR);
      Silent(p, CR, p1);
      RequestStep(p1, LF);
      Silent(p1, LF, p2);
      RunQuiet(p, [CR], [LF], p1, p2, []);
      assert [CR] + [LF] == [CR, LF];
    }
  }

  function RequestHead(m: Method, url: string): string
  {
    MethodName(m) + " " + url + " "
  }

  function RequestTail(major: string, minor: string, eol: string): string
  {
    "HTTP/" + VersionPart(major, minor) + eol
  }

  /** METHOD SP url SP HTTP/major.minor, and the end of the line. */
  function RequestLineText(m: Method, url: string, major: string, minor: string, eol: string): string
  {
    RequestHead(m, url) + RequestTail(major, minor, eol)
  }

  function AfterHead(p: Parser, m: Method, url: string): Parser
  {
    p.(nread := p.nread + |RequestHead(m, url)|, state := REQ_HTTP_START, flags := NO_FLAGS, length := ULLONG_MAX,
       index := |MethodName(m)| + 1, meth := m)
  }

  lemma HeadRead(p: Parser, m: Method, url: string)
    requires p.state.START_REQ? && UrlText(m, url) && p.nread + |RequestHead(m, url)| <= MAX_HEADER_SIZE
    ensures Run(p, RequestHead(m, url)) == Running(AfterHead(p, m, url), [Told(MESSAGE_BEGIN)] + Bytes(URL, url))
  {
    hide Step, Run, Bytes, MethodName, UrlState, UrlEnds, Guess, UrlFrom, UrlFits;
    var name := MethodName(m);
    var begun := [Told(MESSAGE_BEGIN)];
    var p1 := InMethod(p, m, |name|, m);
    var p2 := p1.(nread := p1.nread + 1, state := REQ_SPACES, index := |name| + 1);
    var p3 := p2.(nread := p2.nread + |url|, state := UrlState(UrlFrom(m), url));
    GuessRight(m);
    MethodRead(p, m, |name|);
    assert name[..|name|] == name;
    MethodEnd(p, m);
    Silent(p1, ' ', p2);
    RunMore(p, name, " ", p1, begun, p2, []);
    assert begun + [] == begun;
    UrlRead(p2, url);
    RunMore(p, name + " ", url, p2, begun, p3, Bytes(URL, url));
    UrlEnd(p3);
    NoEvents(' ', URL);
    RunSingle(p3, ' ', AfterHead(p, m, url), [Flush(URL)], None);
    RunMore(p, name + " " + url, " ", p3, begun + Bytes(URL, url), AfterHead(p, m, url), []);
    assert begun + Bytes(URL, url) + [] == begun + Bytes(URL, url);
  }

  lemma VersionDigits(major: string, minor: string)
    ensures VersionText(REQUEST, MAJOR, major) ==> Digits(major) && forall k :: 0 <= k < |major| ==> IsNum(major[k])
    ensures VersionText(REQUEST, MINOR, minor) ==> Digits(minor) && forall k :: 0 <= k < |minor| ==> IsNum(minor[k])
    ensures First(REQUEST, MAJOR) == REQ_FIRST_MAJOR && Further(REQUEST, MINOR) == REQ_MINOR
  {
    hide ValueOf;
  }

  lemma TailIs(major: string, minor: string, eol: string)
    ensures RequestTail(major, minor, eol) == "HTTP/" + VersionPart(major, minor) + eol
    ensures |RequestTail(major, minor, eol)| == 5 + |VersionPart(major, minor)| + |eol|
  {
    hide VersionPart;
  }

  lemma TailRead(p: Parser, major: string, minor: string, eol: string)
    requires p.state.REQ_HTTP_START? && LineBreak(eol)
    requires VersionText(REQUEST, MAJOR, major) && VersionText(REQUEST, MINOR, minor)
    requires p.nread + |RequestTail(major, minor, eol)| <= MAX_HEADER_SIZE
    ensures Run(p, RequestTail(major, minor, eol)) ==
              Running(p.(nread := p.nread + |RequestTail(major, minor, eol)|, state := FIELD_START,
                         major := ValueOf(major), minor := ValueOf(minor)), [])
  {
    hide *;
    VersionDigits(major, minor);
    TailIs(major, minor, eol);
    var p1 := p.(nread := p.nread + 5, state := REQ_FIRST_MAJOR);
    var p2 := p1.(nread := p1.nread + |VersionPart(major, minor)|, state := REQ_MINOR, major := ValueOf(major),
                  minor := ValueOf(minor));
    var p3 := p2.(nread := p2.nread + |eol|, state := FIELD_START);
    HttpSlash(p);
    VersionRead(p1, REQUEST, major, minor);
    RunQuiet(p, "HTTP/", VersionPart(major, minor), p1, p2, []);
    RequestBreak(p2, eol);
    RunQuiet(p, "HTTP/" + VersionPart(major, minor), eol, p2, p3, []);
  }

  /** After a request line. */
  function AfterRequestLine(p: Parser, m: Method, url: string, major: string, minor: string, eol: string): Parser
    requires Digits(major) && Digits(minor)
  {
    p.(nread := p.nread + |RequestLineText(m, url, major, minor, eol)|, state := FIELD_START, flags := NO_FLAGS,
       length := ULLONG_MAX, index := |MethodName(m)| + 1, meth := m, major := ValueOf(major), minor := ValueOf(minor))
  }

  /** A request line sets the method and both numbers of the version to what is written, and the headers begin. */
  lemma RequestLineRead(p: Parser, m: Method, url: string, major: string, minor: string, eol: string)
    requires p.state.START_REQ? && UrlText(m, url) && LineBreak(eol)
    requires VersionText(REQUEST, MAJOR, major) && VersionText(REQUEST, MINOR, minor)
    requires p.nread + |RequestLineText(m, url, major, minor, eol)| <= MAX_HEADER_SIZE
    ensures Run(p, RequestLineText(m, url, major, minor, eol)) ==
              Running(AfterRequestLine(p, m, url, major, minor, eol), [Told(MESSAGE_BEGIN)] + Bytes(URL, url))
  {
    hide Run, Bytes, ValueOf, LineBreak, RequestHead, RequestTail, UrlText, MethodName;
    var begun := [Told(MESSAGE_BEGIN)] + Bytes(URL, url);
    HeadRead(p, m, url);
    TailRead(AfterHead(p, m, url), major, minor, eol);
    RunMore(p, RequestHead(m, url), RequestTail(major, minor, eol), AfterHead(p, m, url), begun,
            AfterRequestLine(p, m, url, major, minor, eol), []);
    assert begun + [] == begun;
  }

  // ---------------------------------------------------------------- the status line

  lemma ResponseLetter(p: Parser, c: char)
    requires p.nread < MAX_HEADER_SIZE
    requires match p.state
             case RES_H => c == 'T'
             case RES_HT => c == 'T'
             case RES_HTT => c == 'P'
             case RES_HTTP => c == '/'
             case _ => false
    ensures Run(p, [c]) ==
              Running(p.(nread := p.nread + 1,
                         state := match p.state
                                  case RES_H => RES_HT
                                  case RES_HT => RES_HTT
                                  case RES_HTT => RES_HTTP
                                  case _ => RES_FIRST_MAJOR), [])
  {
    hide Step, Run, StatusCode, Major, Minor;
    ResponseStep(p, c);
    Silent(p, c, Step(p, c).p);
  }

  lemma ResponseBegins(p: Parser)
    requires p.state.START_RES? && p.nread < MAX_HEADER_SIZE
    ensures Run(p, "H") ==
              Running(p.(nread := p.nread + 1, state := RES_H, flags := NO_FLAGS, length := ULLONG_MAX),
                      [Told(MESSAGE_BEGIN)])
  {
    hide Step, Run, StatusCode, Major, Minor;
    ResponseStep(p, 'H');
    BeginEvents('H');
    RunSingle(p, 'H', Step(p, 'H').p, [Notify(MESSAGE_BEGIN)], None);
  }

  lemma ResponseSlash(p: Parser)
    requires p.state.START_RES? && p.nread + 5 <= MAX_HEADER_SIZE
    ensures Run(p, "HTTP/") == Running(p.(nread := p.nread + 5, state := RES_FIRST_MAJOR, flags := NO_FLAGS,
                                          length := ULLONG_MAX), [Told(MESSAGE_BEGIN)])
  {
    hide *;
    var q := p.(flags := NO_FLAGS, length := ULLONG_MAX);
    var p1 := q.(nread := p.nread + 1, state := RES_H);
    var p2 := q.(nread := p.nread + 2, state := RES_HT);
    var p3 := q.(nread := p.nread + 3, state := RES_HTT);
    var p4 := q.(nread := p.nread + 4, state := RES_HTTP);
    var p5 := q.(nread := p.nread + 5, state := RES_FIRST_MAJOR);
    ResponseBegins(p);
    ResponseLetter(p1, 'T');
    ResponseLetter(p2, 'T');
    ResponseLetter(p3, 'P');
    ResponseLetter(p4, '/');
    FiveLetters(p, p1, p2, p3, p4, p5, [Told(MESSAGE_BEGIN)]);
  }

  lemma FirstOfStatus(p: Parser, c: char)
    requires p.state.RES_FIRST_STATUS? && p.nread < MAX_HEADER_SIZE && IsNum(c)
    ensures Step(p, c) == Next(p.(nread := p.nread + 1, state := RES_STATUS_CODE, status := Digit(c)), [], None)
  {
    hide Step, StatusCode, Major, Minor;
    ResponseStep(p, c);
  }

  lemma NextOfStatus(p: Parser, c: char)
    requires p.state.RES_STATUS_CODE? && p.nread < MAX_HEADER_SIZE && IsNum(c) && 10 * p.status + Digit(c) <= 999
    ensures Step(p, c) == Next(p.(nread := p.nread + 1, status := 10 * p.status + Digit(c)), [], None)
  {
    hide Step, Major, Minor;
    ResponseStep(p, c);
  }

  /** The digits of a status. */
  lemma {:induction false} StatusRead(p: Parser, ds: string)
    requires p.state.RES_FIRST_STATUS? && Digits(ds) && ValueOf(ds) <= 999 && p.nread + |ds| <= MAX_HEADER_SIZE
    ensures Run(p, ds) == Running(p.(nread := p.nread + |ds|, state := RES_STATUS_CODE, status := ValueOf(ds)), [])
  {
    hide Step, Run, Digit, ValueOf;
    var n := |ds| - 1;
    var c := ds[n];
    ValueMore(ds);
    NoEvents(c, URL);
    assert ds == ds[..n] + [c];
    if n == 0 {
      FirstOfStatus(p, c);
      Silent(p, c, p.(nread := p.nread + 1, state := RES_STATUS_CODE, status := Digit(c)));
    } else {
      StatusRead(p, ds[..n]);
      NextOfStatus(Run(p, ds[..n]).p, c);
      RunOne(p, ds[..n], c);
    }
  }

  /** What may follow the status on its line: nothing, or a space and a text. */
  predicate Reason(text: string)
  {
    |text| > 0 ==> text[0] == ' ' && forall k :: 0 <= k < |text| ==> text[k] != CR && text[k] != LF
  }

  lemma ReasonStep(p: Parser, c: char)
    requires p.nread < MAX_HEADER_SIZE && c != CR && c != LF
    requires p.state.RES_STATUS? || (p.state.RES_STATUS_CODE? && c == ' ')
    ensures Step(p, c) == Next(p.(nread := p.nread + 1, state := RES_STATUS), [], None)
  {
    hide Step, Major, Minor;
    ResponseStep(p, c);
  }

  lemma {:induction false} ReasonRead(p: Parser, text: string)
    requires p.state.RES_STATUS_CODE? && Reason(text) && p.nread + |text| <= MAX_HEADER_SIZE
    ensures Run(p, text) ==
              Running(p.(nread := p.nread + |text|, state := if text == "" then RES_STATUS_CODE else RES_STATUS), [])
  {
    hide Step, Run;
    if |text| == 0 {
      RunEmpty(p, text);
    } else {
      var n := |text| - 1;
      ReasonRead(p, text[..n]);
      ReasonStep(Run(p, text[..n]).p, text[n]);
      NoEvents(text[n], URL);
      RunOne(p, text[..n], text[n]);
      assert text == text[..n] + [text[n]];
    }
  }

  lemma StatusFeed(p: Parser)
    requires (p.state.RES_STATUS? || p.state.RES_STATUS_CODE?) && p.nread < MAX_HEADER_SIZE
    ensures Step(p, LF) == Next(p.(nread := p.nread + 1, state := FIELD_START), [], None)
    ensures Step(p, CR) == Next(p.(nread := p.nread + 1, state := RES_LINE_ALMOST_DONE), [], None)
  {
    hide Step, Major, Minor;
    ResponseStep(p, LF);
    ResponseStep(p, CR);
  }

  lemma StatusLineEnd(p: Parser)
    requires p.state.RES_LINE_ALMOST_DONE? && p.nread < MAX_HEADER_SIZE
    ensures Step(p, LF) == Next(p.(nread := p.nread + 1, state := FIELD_START), [Notify(STATUS_COMPLETE)], None)
  {
    hide Step, Major, Minor, StatusCode;
    ResponseStep(p, LF);
  }

  /** The end of a status line is reported if it has a carriage return. */
  function StatusEnd(eol: string): seq<Event>
  {
    if eol == [LF] then [] else [Told(STATUS_COMPLETE)]
  }

  lemma StatusBreak(p: Parser, eol: string)
    requires (p.state.RES_STATUS? || p.state.RES_STATUS_CODE?) && LineBreak(eol) && p.nread + |eol| <= MAX_HEADER_SIZE
    ensures Run(p, eol) == Running(p.(nread := p.nread + |eol|, state := FIELD_START), StatusEnd(eol))
  {
    hide Step, Run;
    StatusFeed(p);
    var p1 := p.(nread := p.nread + 1, state := RES_LINE_ALMOST_DONE);
    var p2 := p.(nread := p.nread + |eol|, state := FIELD_START);
    if eol == [LF] {
      Silent(p, LF, p2);
    } else {
      Silent(p, CR, p1);
      StatusLineEnd(p1);
      BeginEvents(LF);
      RunSingle(p1, LF, p2, [Notify(STATUS_COMPLETE)], None);
      RunQuiet(p, [CR], [LF], p1, p2, [Told(STATUS_COMPLETE)]);
      assert [CR] + [LF] == [CR, LF];
    }
  }

  lemma StatusSpace(p: Parser)
    requires p.state.RES_MINOR? && p.nread < MAX_HEADER_SIZE
    ensures Run(p, " ") == Running(p.(nread := p.nread + 1, state := RES_FIRST_STATUS), [])
  {
    hide Step, Run, StatusCode;
    ResponseStep(p, ' ');
    Silent(p, ' ', p.(nread := p.nread + 1, state := RES_FIRST_STATUS));
  }

  function StatusPart(status: string, reason: string, eol: string): string
  {
    " " + status + reason + eol
  }

  /** HTTP/major.minor SP status, a reason, and the end of the line. */
  function StatusLineText(major: string, minor: string, status: string, reason: string, eol: string): string
  {
    "HTTP/" + VersionPart(major, minor) + StatusPart(status, reason, eol)
  }

  lemma StatusPartRead(p: Parser, status: string, reason: string, eol: string)
    requires p.state.RES_MINOR? && Digits(status) && ValueOf(status) <= 999 && Reason(reason) && LineBreak(eol)
    requires p.nread + |StatusPart(status, reason, eol)| <= MAX_HEADER_SIZE
    ensures Run(p, StatusPart(status, reason, eol)) ==
              Running(p.(nread := p.nread + |StatusPart(status, reason, eol)|, state := FIELD_START,
                         status := ValueOf(status)), StatusEnd(eol))
  {
    hide Step, Run, ValueOf, LineBreak, Reason;
    var p1 := p.(nread := p.nread + 1, state := RES_FIRST_STATUS);
    var p2 := p1.(nread := p1.nread + |status|, state := RES_STATUS_CODE, status := ValueOf(status));
    var p3 := p2.(nread := p2.nread + |reason|, state := if reason == "" then RES_STATUS_CODE else RES_STATUS);
    var p4 := p3.(nread := p3.nread + |eol|, state := FIELD_START);
    StatusSpace(p);
    StatusRead(p1, status);
    RunQuiet(p, " ", status, p1, p2, []);
    ReasonRead(p2, reason);
    RunQuiet(p, " " + status, reason, p2, p3, []);
    StatusBreak(p3, eol);
    RunQuiet(p, " " + status + reason, eol, p3, p4, StatusEnd(eol));
  }

  function AfterStatusLine(p: Parser, major: string, minor: string, status: string, reason: string, eol: string): Parser
    requires Digits(major) && Digits(minor) && Digits(status)
  {
    p.(nread := p.nread + |StatusLineText(major, minor, status, reason, eol)|, state := FIELD_START, flags := NO_FLAGS,
       length := ULLONG_MAX, major := ValueOf(major), minor := ValueOf(minor), status := ValueOf(status))
  }

  /** A status line sets both numbers of the version and the status to what is written, and the headers begin. */
  lemma StatusLineRead(p: Parser, major: string, minor: string, status: string, reason: string, eol: string)
    requires p.state.START_RES? && LineBreak(eol) && Reason(reason)
    requires VersionText(RESPONSE, MAJOR, major) && VersionText(RESPONSE, MINOR, minor)
    requires Digits(status) && ValueOf(status) <= 999
    requires p.nread + |StatusLineText(major, minor, status, reason, eol)| <= MAX_HEADER_SIZE
    ensures Run(p, StatusLineText(major, minor, status, reason, eol)) ==
              Running(AfterStatusLine(p, major, minor, status, reason, eol), [Told(MESSAGE_BEGIN)] + StatusEnd(eol))
  {
    hide Run, ValueOf, LineBreak, StatusPart, VersionPart, Reason, StatusEnd;
    var begun := [Told(MESSAGE_BEGIN)];
    var p1 := p.(nread := p.nread + 5, state := RES_FIRST_MAJOR, flags := NO_FLAGS, length := ULLONG_MAX);
    var p2 := p1.(nread := p1.nread + |VersionPart(major, minor)|, state := RES_MINOR, major := ValueOf(major),
                  minor := ValueOf(minor));
    ResponseSlash(p);
    VersionRead(p1, RESPONSE, major, minor);
    RunMore(p, "HTTP/", VersionPart(major, minor), p1, begun, p2, []);
    assert begun + [] == begun;
    StatusPartRead(p2, status, reason, eol);
    RunMore(p, "HTTP/" + VersionPart(major, minor), StatusPart(status, reason, eol), p2, begun,
            AfterStatusLine(p, major, minor, status, reason, eol), StatusEnd(eol));
  }

  // ---------------------------------------------------------------- a request or a response

  lemma EitherStep(p: Parser, c: char)
    requires (p.state.START_REQ_OR_RES? || p.state.RES_OR_RESP_H?) && p.nread < MAX_HEADER_SIZE
    ensures Step(p, c) == EitherLine(p.(nread := p.nread + 1), c)
  {
    hide EitherLine, ResponseLine, RequestLine, Header, Chunk;
  }

  lemma SecondLetter(p: Parser, c: char)
    requires p.nread < MAX_HEADER_SIZE
    requires (p.state.REQ_METHOD? && p.meth == HEAD && p.index == 1 && c == 'E') || (p.state.RES_H? && c == 'T')
    ensures Step(p, c) ==
              Next(p.(nread := p.nread + 1, state := if c == 'E' then REQ_METHOD else RES_HT,
                      index := if c == 'E' then 2 else p.index), [], None)
  {
    hide Step, Reguess, UrlStart, UrlBegin, UrlRest, StatusCode, Major, Minor;
    if c == 'E' { RequestStep(p, c); } else { ResponseStep(p, c); }
  }

  /** The first letters tell which of the two it is. */
  lemma FirstLetters(p: Parser, q: Parser, c: char)
    requires p.state.START_REQ_OR_RES? && p.nread + 2 <= MAX_HEADER_SIZE && (c == 'E' || c == 'T')
    requires q == if c == 'E' then p.(kind := REQUEST, state := START_REQ) else p.(kind := RESPONSE, state := START_RES)
    ensures Run(p, ['H', c]) == Run(q, ['H', c]) && Run(p, ['H', c]).Running?
  {
    hide Step, Run, EitherLine, RequestLine, ResponseLine, Events;
    var p1 := p.(nread := p.nread + 1, flags := NO_FLAGS, length := ULLONG_MAX, state := RES_OR_RESP_H);
    var q1 := if c == 'E' then p1.(kind := REQUEST, state := REQ_METHOD, index := 1, meth := HEAD)
              else p1.(kind := RESPONSE, state := RES_H);
    FirstH(p, q, p1, q1, c);
    RunSingle(p, 'H', p1, [Notify(MESSAGE_BEGIN)], None);
    RunSingle(q, 'H', q1, [Notify(MESSAGE_BEGIN)], None);
    SecondH(p1, q1, c);
    var r := Step(q1, c).p;
    RunSingle(p1, c, r, [], None);
    RunSingle(q1, c, r, [], None);
    var e, e' := Events([Notify(MESSAGE_BEGIN)], None, 'H'), Events([], None, c);
    RunMore(p, ['H'], [c], p1, e, r, e');
    RunMore(q, ['H'], [c], q1, e, r, e');
    assert ['H'] + [c] == ['H', c];
  }

  lemma FirstH(p: Parser, q: Parser, p1: Parser, q1: Parser, c: char)
    requires p.state.START_REQ_OR_RES? && p.nread < MAX_HEADER_SIZE
    requires q == if c == 'E' then p.(kind := REQUEST, state := START_REQ) else p.(kind := RESPONSE, state := START_RES)
    requires p1 == p.(nread := p.nread + 1, flags := NO_FLAGS, length := ULLONG_MAX, state := RES_OR_RESP_H)
    requires q1 == if c == 'E' then p1.(kind := REQUEST, state := REQ_METHOD, index := 1, meth := HEAD)
                   else p1.(kind := RESPONSE, state := RES_H)
    ensures Step(p, 'H') == Next(p1, [Notify(MESSAGE_BEGIN)], None)
    ensures Step(q, 'H') == Next(q1, [Notify(MESSAGE_BEGIN)], None)
  {
    hide Step, UrlStart, UrlBegin, UrlRest, StatusCode, Major, Minor, RequestMethod;
    EitherStep(p, 'H');
    if c == 'E' { RequestStep(q, 'H'); } else { ResponseStep(q, 'H'); }
  }

  lemma SecondH(p1: Parser, q1: Parser, c: char)
    requires p1.state.RES_OR_RESP_H? && p1.nread < MAX_HEADER_SIZE && (c == 'E' || c == 'T')
    requires q1 == if c == 'E' then p1.(kind := REQUEST, state := REQ_METHOD, index := 1, meth := HEAD)
                   else p1.(kind := RESPONSE, state := RES_H)
    ensures Step(p1, c) == Step(q1, c) && Step(q1, c).Next? && Step(q1, c).acts == [] && Step(q1, c).own == None
  {
    hide Step, StartRequest;
    EitherStep(p1, c);
    SecondLetter(q1, c);
  }

  /** A parser for either kind reads an input that begins with HT as one for responses does, and any other as one for
      requests. */
  lemma EitherReads(p: Parser, text: string)
    requires p.state.START_REQ_OR_RES? && p.nread + 2 <= MAX_HEADER_SIZE && |text| >= 2
    requires text[0] != CR && text[0] != LF
    ensures text[0] == 'H' && text[1] == 'T' ==> Run(p, text) == Run(p.(kind := RESPONSE, state := START_RES), text)
    ensures text[0] != 'H' || text[1] == 'E' ==> Run(p, text) == Run(p.(kind := REQUEST, state := START_REQ), text)
  {
    hide Step, Run, EitherLine, RequestLine, ResponseLine;
    if text[0] == 'H' {
      if text[1] == 'T' || text[1] == 'E' {
        var q := if text[1] == 'E' then p.(kind := REQUEST, state := START_REQ)
                 else p.(kind := RESPONSE, state := START_RES);
        FirstLetters(p, q, text[1]);
        assert text == ['H', text[1]] + text[2..];
        RunAppend(p, ['H', text[1]], text[2..]);
        RunAppend(q, ['H', text[1]], text[2..]);
      }
    } else {
      var q := p.(kind := REQUEST, state := START_REQ);
      NotH(p, q, text[0]);
      SameFirst(p, q, text);
    }
  }

  lemma NotH(p: Parser, q: Parser, c: char)
    requires p.state.START_REQ_OR_RES? && p.nread < MAX_HEADER_SIZE && c != 'H' && c != CR && c != LF
    requires q == p.(kind := REQUEST, state := START_REQ)
    ensures Step(p, c) == Step(q, c)
  {
    hide Step, UrlStart, UrlBegin, UrlRest, Major, Minor, RequestMethod, FirstGuess;
    EitherStep(p, c);
    RequestStep(q, c);
  }

  lemma {:induction false} SameFirst(p: Parser, q: Parser, text: string)
    requires |text| > 0 && Step(p, text[0]) == Step(q, text[0])
    ensures Run(p, text) == Run(q, text)
  {
    hide Step, Events, Notes;
    var n := |text| - 1;
    if n > 0 {
      SameFirst(p, q, text[..n]);
    } else {
      assert text[..0] == "";
      RunEmpty(p, text[..0]);
      RunEmpty(q, text[..0]);
    }
  }
}
