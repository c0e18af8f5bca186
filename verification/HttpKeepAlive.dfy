/** When a connection stays usable: what the Connection header lines of a message say, which version its first line
    gives, and what becomes of the first byte after it. */
module HttpKeepAlive {
  import opened Common
  import opened HttpParser
  import opened HttpRun
  import opened HttpSafety
  import opened HttpExecute
  import opened HttpFraming
  import opened HttpHeaders
  import opened HttpLines

  const CONNECTION: string := "connection"
  const PROXY_CONNECTION: string := "proxy-connection"
  const UPGRADE: string := "upgrade"
  const CLOSE: string := "close"
  const KEEP_ALIVE: string := "keep-alive"

  // ---------------------------------------------------------------- names

  /** The text begins the name, letters in either case. */
  predicate Begins(name: string, s: string)
  {
    |s| <= |name| && forall k :: 0 <= k < |s| ==> Token(s[k]) == name[k]
  }

  /** What the parser makes of a header name, or of its beginning. */
  function HeaderOf(s: string): HeaderState
  {
    var k := |s|;
    if Begins(CONNECTION, s) then
      if k <= 1 then H_C else if k == 2 then H_CO else if k == 3 then H_CON
      else if k < |CONNECTION| then H_MATCHING_CONNECTION else H_CONNECTION
    else if Begins(CONTENT_LENGTH, s) then if k < |CONTENT_LENGTH| then H_MATCHING_LENGTH else H_LENGTH
    else if Begins(PROXY_CONNECTION, s) then if k < |PROXY_CONNECTION| then H_MATCHING_PROXY else H_CONNECTION
    else if Begins(TRANSFER_ENCODING, s) then if k < |TRANSFER_ENCODING| then H_MATCHING_ENCODING else H_ENCODING
    else if Begins(UPGRADE, s) then if k < |UPGRADE| then H_MATCHING_UPGRADE else H_UPGRADE
    else H_GENERAL
  }

  /** Every character may be part of a name. */
  predicate Tokens(s: string)
  {
    forall k :: 0 <= k < |s| ==> Token(s[k]) != '\0'
  }

  lemma BeginsNext(name: string, s: string, c: char)
    ensures Begins(name, s + [c]) <==> Begins(name, s) && |s| < |name| && Token(c) == name[|s|]
  {
    hide Token;
    var t := s + [c];
    assert t[|s|] == c && t[..|s|] == s;
    if Begins(name, t) {
      forall k | 0 <= k < |s| ensures Token(s[k]) == name[k] { assert t[k] == s[k]; }
    }
  }

  lemma FourthLetter(s: string)
    requires |s| >= 4
    ensures Begins(CONNECTION, s) ==> Token(s[3]) == 'n'
    ensures Begins(CONTENT_LENGTH, s) ==> Token(s[3]) == 't'
  {
    hide Token;
  }

  /** The names differ in their first letter, but for two that differ in their fourth. */
  lemma NamesDiffer(s: string)
    requires |s| > 0
    ensures Begins(CONNECTION, s) || Begins(CONTENT_LENGTH, s) ==> Token(s[0]) == 'c'
    ensures Begins(PROXY_CONNECTION, s) ==> Token(s[0]) == 'p'
    ensures Begins(TRANSFER_ENCODING, s) ==> Token(s[0]) == 't'
    ensures Begins(UPGRADE, s) ==> Token(s[0]) == 'u'
    ensures |s| <= 3 ==> (Begins(CONNECTION, s) <==> Begins(CONTENT_LENGTH, s))
    ensures |s| >= 4 ==> !(Begins(CONNECTION, s) && Begins(CONTENT_LENGTH, s))
  {
    hide Token;
    if |s| >= 4 { FourthLetter(s); }
  }

  lemma FirstOfName(p: Parser, c: char)
    requires AtLine(p.state) && p.nread < MAX_HEADER_SIZE && Token(c) != '\0'
    ensures Step(p, c) == Next(p.(nread := p.nread + 1, state := FIELD, index := 0, header := HeaderOf([c])),
                               [Mark(HEADER_FIELD)], Some(HEADER_FIELD))
  {
    NoLineBreak(c);
    hide Step, Token, Field, ValueStart, Value, HeaderAlmostDone, HeadersAlmostDone, HeadersDone;
    HeaderStep(p, c);
    BeginsNone();
    assert "" + [c] == [c];
    BeginsNext(CONNECTION, "", c);
    BeginsNext(CONTENT_LENGTH, "", c);
    BeginsNext(PROXY_CONNECTION, "", c);
    BeginsNext(TRANSFER_ENCODING, "", c);
    BeginsNext(UPGRADE, "", c);
  }

  lemma BeginsNone()
    ensures forall name :: Begins(name, "")
  {
  }

  lemma NoLineBreak(c: char)
    requires Token(c) != '\0'
    ensures c != CR && c != LF && c != ' ' && c != '\t' && c != ':'
  {
  }

  /** Comparing goes on as long as the text begins the name. */
  lemma MatchingIs(p: Parser, s: string, c: char, name: string, whole: HeaderState)
    requires 0 < |s| < |name| && p.index == |s| - 1 && Begins(name, s) && Token(c) != '\0'
    ensures var q := Matching(p, Token(c), name, whole);
            && q == p.(index := |s|, header := q.header)
            && q.header == if !Begins(name, s + [c]) then H_GENERAL
                           else if |s| + 1 == |name| then whole else p.header
  {
    hide Token, Begins;
    BeginsNext(name, s, c);
  }

  /** One more character of a name. */
  lemma NameNext(p: Parser, s: string, c: char)
    requires |s| > 0 && p.header == HeaderOf(s) && (p.header != H_GENERAL ==> p.index == |s| - 1) && Token(c) != '\0'
    ensures FieldName(p, Token(c)).Some?
    ensures var q := FieldName(p, Token(c)).value;
            && q == p.(index := q.index, header := HeaderOf(s + [c])) && (q.header != H_GENERAL ==> q.index == |s|)
  {
    NamesDiffer(s);
    NamesDiffer(s + [c]);
    assert (s + [c])[0] == s[0];
    hide Token, Begins, Matching;
    BeginsNext(CONNECTION, s, c);
    BeginsNext(CONTENT_LENGTH, s, c);
    BeginsNext(PROXY_CONNECTION, s, c);
    BeginsNext(TRANSFER_ENCODING, s, c);
    BeginsNext(UPGRADE, s, c);
    match p.header
    case H_MATCHING_CONNECTION => MatchingIs(p, s, c, "connection", H_CONNECTION);
    case H_MATCHING_PROXY => MatchingIs(p, s, c, "proxy-connection", H_CONNECTION);
    case H_MATCHING_LENGTH => MatchingIs(p, s, c, "content-length", H_LENGTH);
    case H_MATCHING_ENCODING => MatchingIs(p, s, c, "transfer-encoding", H_ENCODING);
    case H_MATCHING_UPGRADE => MatchingIs(p, s, c, "upgrade", H_UPGRADE);
    case _ =>
  }

  /** Any name is read, and the parser knows the header if it is one of those it looks for. */
  lemma {:induction false} AnyName(p: Parser, s: string)
    requires AtLine(p.state) && |s| > 0 && Tokens(s) && p.nread + |s| <= MAX_HEADER_SIZE
    ensures Run(p, s).Running?
    ensures var q := Run(p, s).p;
            && q == p.(nread := p.nread + |s|, state := FIELD, index := q.index, header := HeaderOf(s))
            && (q.header != H_GENERAL ==> q.index == |s| - 1)
  {
    hide Step, Run, Events, FieldName, Token, HeaderOf;
    var n := |s| - 1;
    var c := s[n];
    assert s == s[..n] + [c];
    if n == 0 {
      assert s == [c];
      FirstOfName(p, c);
      RunSingle(p, c, p.(nread := p.nread + 1, state := FIELD, index := 0, header := HeaderOf([c])),
                [Mark(HEADER_FIELD)], Some(HEADER_FIELD));
    } else {
      AnyName(p, s[..n]);
      var q := Run(p, s[..n]).p;
      FieldStep(q, c);
      NameNext(q.(nread := q.nread + 1), s[..n], c);
      RunOne(p, s[..n], c);
    }
  }

  /** The name of the header that says whether the connection stays. */
  predicate NamesConnection(s: string)
  {
    Names(CONNECTION, s) || Names(PROXY_CONNECTION, s)
  }

  lemma HeadersKnown(s: string)
    requires |s| > 0
    ensures HeaderOf(s) == H_CONNECTION <==> NamesConnection(s)
    ensures HeaderOf(s) == H_ENCODING <==> Names(TRANSFER_ENCODING, s)
    ensures HeaderOf(s) == H_UPGRADE <==> Names(UPGRADE, s)
    ensures Wordless(HeaderOf(s)) || HeaderOf(s) == H_CONNECTION || HeaderOf(s) == H_ENCODING
  {
    NamesDiffer(s);
    hide Token;
  }

  // ---------------------------------------------------------------- values

  /** A header state that no Connection value leads to. */
  predicate Wordless(h: HeaderState)
  {
    && !h.H_CONNECTION? && !h.H_MATCHING_CLOSE? && !h.H_MATCHING_KEEP_ALIVE? && !h.H_CLOSE? && !h.H_KEEP_ALIVE?
    && !h.H_ENCODING? && !h.H_MATCHING_CHUNKED? && !h.H_CHUNKED?
  }

  /** The text begins the word, letters in either case. */
  predicate BeginsWord(word: string, v: string)
  {
    |v| <= |word| && forall k :: 0 <= k < |v| ==> Lower(v[k]) == word[k]
  }

  /** The text is the word, letters in either case, and spaces after it. */
  predicate Says(word: string, v: string)
  {
    |word| <= |v| && BeginsWord(word, v[..|word|]) && forall k :: |word| <= k < |v| ==> v[k] == ' '
  }

  /** What the parser makes of a Connection value, or of its beginning. */
  function WordOf(v: string): HeaderState
  {
    if Says(CLOSE, v) then H_CLOSE
    else if Says(KEEP_ALIVE, v) then H_KEEP_ALIVE
    else if BeginsWord(CLOSE, v) then H_MATCHING_CLOSE
    else if BeginsWord(KEEP_ALIVE, v) then H_MATCHING_KEEP_ALIVE
    else H_GENERAL
  }

  /** What it makes of a Transfer-Encoding value. */
  function CodingOf(v: string): HeaderState
  {
    if Says(CHUNKED, v) then H_CHUNKED else if BeginsWord(CHUNKED, v) then H_MATCHING_CHUNKED else H_GENERAL
  }

  lemma WordNext(word: string, v: string, c: char)
    ensures BeginsWord(word, v + [c]) <==> BeginsWord(word, v) && |v| < |word| && Lower(c) == word[|v|]
  {
    hide Lower;
    var t := v + [c];
    assert t[|v|] == c && t[..|v|] == v;
    if BeginsWord(word, t) {
      forall k | 0 <= k < |v| ensures Lower(v[k]) == word[k] { assert t[k] == v[k]; }
    }
  }

  lemma SaysNext(word: string, v: string, c: char)
    requires |v| > 0 && |word| > 0
    ensures Says(word, v + [c]) <==>
              (Says(word, v) && c == ' ') || (|v| + 1 == |word| && BeginsWord(word, v + [c]))
  {
    hide Lower;
    var t := v + [c];
    assert t[|v|] == c && t[..|v|] == v;
    if |v| >= |word| {
      assert t[..|word|] == v[..|word|];
      if Says(word, t) {
        forall k | |word| <= k < |v| ensures v[k] == ' ' { assert t[k] == v[k]; }
      }
    } else if |v| + 1 == |word| {
      assert t[..|word|] == t;
    }
  }

  /** A text that says a word does not begin another, and begins its own only without spaces. */
  lemma WordsDiffer(v: string)
    requires |v| > 0
    ensures BeginsWord(CLOSE, v) || Says(CLOSE, v) ==> Lower(v[0]) == 'c'
    ensures BeginsWord(KEEP_ALIVE, v) || Says(KEEP_ALIVE, v) ==> Lower(v[0]) == 'k'
    ensures BeginsWord(CLOSE, v) ==> (Says(CLOSE, v) <==> |v| == |CLOSE|)
    ensures BeginsWord(KEEP_ALIVE, v) ==> (Says(KEEP_ALIVE, v) <==> |v| == |KEEP_ALIVE|)
    ensures BeginsWord(CHUNKED, v) ==> (Says(CHUNKED, v) <==> |v| == |CHUNKED|)
  {
    hide Lower;
    if |v| >= |CLOSE| { assert v[..|CLOSE|][0] == v[0]; }
    if |v| >= |KEEP_ALIVE| { assert v[..|KEEP_ALIVE|][0] == v[0]; }
    assert v[..|v|] == v;
  }

  lemma FirstOfValue(p: Parser, c: char)
    requires p.state.VALUE_START? && p.header.H_CONNECTION? && p.nread < MAX_HEADER_SIZE
    requires c != ' ' && c != '\t' && c != CR && c != LF
    ensures Step(p, c) == Next(p.(nread := p.nread + 1, state := VALUE, index := 0, header := WordOf([c])),
                               [Mark(HEADER_VALUE)], Some(HEADER_VALUE))
  {
    assert [c][0] == c;
    WordsDiffer([c]);
    OneLetter(c);
    hide Step, Lower, Says, BeginsWord, FieldStart, Field, Value, HeaderAlmostDone, HeadersAlmostDone, HeadersDone;
    HeaderStep(p, c);
  }

  lemma OneLetter(c: char)
    ensures BeginsWord(CLOSE, [c]) <==> Lower(c) == 'c'
    ensures BeginsWord(KEEP_ALIVE, [c]) <==> Lower(c) == 'k'
    ensures BeginsWord(CHUNKED, [c]) <==> Lower(c) == 'c'
    ensures !Says(CLOSE, [c]) && !Says(KEEP_ALIVE, [c]) && !Says(CHUNKED, [c])
  {
    hide Lower;
    assert [c][0] == c;
  }

  lemma LowerNotNul(c: char)
    ensures Lower(c) != '\0'
  {
  }

  lemma MatchingWord(p: Parser, v: string, c: char, word: string, whole: HeaderState)
    requires 0 < |v| < |word| && p.index == |v| - 1 && BeginsWord(word, v)
    ensures var q := Matching(p, Lower(c), word, whole);
            && q == p.(index := |v|, header := q.header)
            && q.header == if !BeginsWord(word, v + [c]) then H_GENERAL
                           else if |v| + 1 == |word| then whole else p.header
  {
    LowerNotNul(c);
    hide Lower, BeginsWord;
    WordNext(word, v, c);
  }

  /** One more character of a Connection value. */
  lemma ValueNext(p: Parser, v: string, c: char)
    requires |v| > 0 && p.header == WordOf(v) && c != CR && c != LF
    requires p.header.H_MATCHING_CLOSE? || p.header.H_MATCHING_KEEP_ALIVE? ==> p.index == |v| - 1
    ensures ValueText(p, c).Next?
    ensures var q := ValueText(p, c).p;
            && q == p.(index := q.index, header := WordOf(v + [c]))
            && (q.header.H_MATCHING_CLOSE? || q.header.H_MATCHING_KEEP_ALIVE? ==> q.index == |v|)
  {
    WordsDiffer(v);
    WordsDiffer(v + [c]);
    assert (v + [c])[0] == v[0];
    hide Lower, BeginsWord, Says, Matching, Accumulate;
    WordNext(CLOSE, v, c);
    WordNext(KEEP_ALIVE, v, c);
    SaysNext(CLOSE, v, c);
    SaysNext(KEEP_ALIVE, v, c);
    match p.header
    case H_MATCHING_CLOSE => MatchingWord(p, v, c, "close", H_CLOSE);
    case H_MATCHING_KEEP_ALIVE => MatchingWord(p, v, c, "keep-alive", H_KEEP_ALIVE);
    case _ =>
  }

  lemma ValueStep(p: Parser, c: char)
    requires p.state.VALUE? && p.nread < MAX_HEADER_SIZE && c != CR && c != LF
    ensures Step(p, c) == ValueText(p.(nread := p.nread + 1), c)
  {
    hide Step, ValueText, FieldStart, Field, ValueStart, HeaderAlmostDone, HeadersAlmostDone, HeadersDone;
    HeaderStep(p, c);
  }

  /** The text of a value: it does not begin with a blank, and does not break the line. */
  predicate ValueChars(v: string)
  {
    && (|v| > 0 ==> v[0] != ' ' && v[0] != '\t')
    && forall k :: 0 <= k < |v| ==> v[k] != CR && v[k] != LF
  }

  lemma {:induction false} ConnectionValue(p: Parser, v: string)
    requires p.state.VALUE_START? && p.header.H_CONNECTION? && |v| > 0 && ValueChars(v)
    requires p.nread + |v| <= MAX_HEADER_SIZE
    ensures Run(p, v).Running?
    ensures var q := Run(p, v).p;
            && q == p.(nread := p.nread + |v|, state := VALUE, index := q.index, header := WordOf(v))
            && (q.header.H_MATCHING_CLOSE? || q.header.H_MATCHING_KEEP_ALIVE? ==> q.index == |v| - 1)
  {
    hide Step, Run, Events, WordOf, ValueText;
    var n := |v| - 1;
    var c := v[n];
    assert v == v[..n] + [c];
    if n == 0 {
      assert v == [c];
      FirstOfValue(p, c);
      RunSingle(p, c, p.(nread := p.nread + 1, state := VALUE, index := 0, header := WordOf([c])),
                [Mark(HEADER_VALUE)], Some(HEADER_VALUE));
    } else {
      ConnectionValue(p, v[..n]);
      var q := Run(p, v[..n]).p;
      ValueStep(q, c);
      ValueNext(q.(nread := q.nread + 1), v[..n], c);
      RunOne(p, v[..n], c);
    }
  }

  // ---------------------------------------------------------------- the value of a Transfer-Encoding header

  lemma FirstOfCoding(p: Parser, c: char)
    requires p.state.VALUE_START? && p.header.H_ENCODING? && p.nread < MAX_HEADER_SIZE
    requires c != ' ' && c != '\t' && c != CR && c != LF
    ensures Step(p, c) == Next(p.(nread := p.nread + 1, state := VALUE, index := 0, header := CodingOf([c])),
                               [Mark(HEADER_VALUE)], Some(HEADER_VALUE))
  {
    OneLetter(c);
    hide Step, Lower, Says, BeginsWord, FieldStart, Field, Value, HeaderAlmostDone, HeadersAlmostDone, HeadersDone;
    HeaderStep(p, c);
  }

  lemma CodingNext(p: Parser, v: string, c: char)
    requires |v| > 0 && p.header == CodingOf(v) && c != CR && c != LF
    requires p.header.H_MATCHING_CHUNKED? ==> p.index == |v| - 1
    ensures ValueText(p, c).Next?
    ensures var q := ValueText(p, c).p;
            && q == p.(index := q.index, header := CodingOf(v + [c]))
            && (q.header.H_MATCHING_CHUNKED? ==> q.index == |v|)
  {
    WordsDiffer(v);
    WordsDiffer(v + [c]);
    hide Lower, BeginsWord, Says, Matching, Accumulate;
    WordNext(CHUNKED, v, c);
    SaysNext(CHUNKED, v, c);
    if p.header.H_MATCHING_CHUNKED? { MatchingWord(p, v, c, "chunked", H_CHUNKED); }
  }

  lemma {:induction false} CodingValue(p: Parser, v: string)
    requires p.state.VALUE_START? && p.header.H_ENCODING? && |v| > 0 && ValueChars(v)
    requires p.nread + |v| <= MAX_HEADER_SIZE
    ensures Run(p, v).Running?
    ensures var q := Run(p, v).p;
            && q == p.(nread := p.nread + |v|, state := VALUE, index := q.index, header := CodingOf(v))
            && (q.header.H_MATCHING_CHUNKED? ==> q.index == |v| - 1)
  {
    hide Step, Run, Events, CodingOf, ValueText;
    var n := |v| - 1;
    var c := v[n];
    assert v == v[..n] + [c];
    if n == 0 {
      assert v == [c];
      FirstOfCoding(p, c);
      RunSingle(p, c, p.(nread := p.nread + 1, state := VALUE, index := 0, header := CodingOf([c])),
                [Mark(HEADER_VALUE)], Some(HEADER_VALUE));
    } else {
      CodingValue(p, v[..n]);
      var q := Run(p, v[..n]).p;
      ValueStep(q, c);
      CodingNext(q.(nread := q.nread + 1), v[..n], c);
      RunOne(p, v[..n], c);
    }
  }

  // ---------------------------------------------------------------- header lines

  /** What the first line has said of a message stays. */
  predicate SameMessage(p: Parser, q: Parser)
  {
    q.kind == p.kind && q.major == p.major && q.minor == p.minor && q.status == p.status && q.meth == p.meth
  }

  /** What header lines can say of what follows: the connection closes or stays, the body is chunked, another protocol
      begins. */
  datatype Said = Said(close: bool, keepAlive: bool, chunked: bool, upgrade: bool)

  const NOTHING: Said := Said(false, false, false, false)

  /** This has been said, or had been. */
  predicate Given(p: Parser, q: Parser, s: Said)
  {
    && q.flags.close == (p.flags.close || s.close) && q.flags.keepAlive == (p.flags.keepAlive || s.keepAlive)
    && q.flags.chunked == (p.flags.chunked || s.chunked) && q.flags.upgrade == (p.flags.upgrade || s.upgrade)
  }

  /** Only this has been said. */
  predicate Hears(p: Parser, q: Parser, s: Said)
  {
    SameMessage(p, q) && Given(p, q, s) && q.flags.trailing == p.flags.trailing
  }

  /** A line feed ends a value. */
  predicate EndsValue(p: Parser, c: char)
  {
    c == LF && (p.state.VALUE? || p.state.HEADER_ALMOST_DONE?)
  }

  /** What a value says when the line breaks. */
  function SaidAtEnd(h: HeaderState): Said
  {
    Said(h.H_CLOSE?, h.H_KEEP_ALIVE?, h.H_CHUNKED?, false)
  }

  /** What a byte makes the headers say: the end of a value all but an upgrade, which its first character does. */
  function SaidBy(p: Parser, c: char): Said
  {
    if EndsValue(p, c) then SaidAtEnd(p.header)
    else if p.state.VALUE_START? && p.header.H_UPGRADE? && c != ' ' && c != '\t' && c != CR && c != LF then
      NOTHING.(upgrade := true)
    else NOTHING
  }

  predicate HearsResult(p: Parser, r: Result, s: Said)
  {
    r.Next? ==> Hears(p, r.p, s)
  }

  lemma DoneKeeps(p: Parser, c: char)
    ensures HearsResult(p, HeadersAlmostDone(p, c), NOTHING) && HearsResult(p, HeadersDone(p, c), NOTHING)
  {
    hide NewMessage, NeedsEof;
  }

  lemma FieldKeeps(p: Parser, c: char)
    ensures HearsResult(p, FieldStart(p, c), NOTHING) && HearsResult(p, Field(p, c), NOTHING)
  {
    DoneKeeps(p.(state := HEADERS_ALMOST_DONE), c);
    hide Token, HeadersAlmostDone, CharAt;
  }

  lemma StartKeeps(p: Parser, c: char)
    requires p.state.VALUE_START?
    ensures HearsResult(p, ValueStart(p, c), SaidBy(p, c))
  {
    hide Lower;
  }

  lemma TextKeeps(p: Parser, c: char)
    ensures HearsResult(p, ValueText(p, c), NOTHING)
  {
    TextSame(p, c);
    hide ValueText;
  }

  lemma TextSame(p: Parser, c: char)
    ensures var r := ValueText(p, c);
            r.Next? ==> r.p == p.(index := r.p.index, header := r.p.header, length := r.p.length)
  {
    MatchingSame(p, Lower(c), "chunked", H_CHUNKED);
    MatchingSame(p, Lower(c), "keep-alive", H_KEEP_ALIVE);
    MatchingSame(p, Lower(c), "close", H_CLOSE);
    hide Lower, Accumulate, Matching;
  }

  lemma MatchingSame(p: Parser, c: char, name: string, whole: HeaderState)
    ensures var q := Matching(p, c, name, whole); q == p.(index := q.index, header := q.header)
  {
    hide CharAt;
  }

  lemma BreakKeeps(p: Parser, c: char)
    ensures HearsResult(p, HeaderAlmostDone(p, c), if c == LF then SaidAtEnd(p.header) else NOTHING)
  {
  }

  lemma ValueKeeps(p: Parser, c: char)
    ensures HearsResult(p, Value(p, c), if c == LF then SaidAtEnd(p.header) else NOTHING)
  {
    hide ValueText, HeaderAlmostDone;
    TextKeeps(p, c);
    BreakKeeps(p.(state := HEADER_ALMOST_DONE), c);
  }

  /** A byte of the headers sets a flag only if a value says so there. */
  lemma HeaderKeeps(p: Parser, c: char)
    requires InHeader(p.state) && Step(p, c).Next?
    ensures Hears(p, Step(p, c).p, SaidBy(p, c))
  {
    hide Step, FieldStart, Field, ValueStart, Value, HeaderAlmostDone, HeadersAlmostDone, HeadersDone;
    if p.nread < MAX_HEADER_SIZE {
      HeaderStep(p, c);
      var q := p.(nread := p.nread + 1);
      DoneKeeps(q, c);
      FieldKeeps(q, c);
      FieldKeeps(q.(state := FIELD_START), c);
      if q.state.VALUE_START? { StartKeeps(q, c); }
      ValueKeeps(q, c);
      BreakKeeps(q, c);
    } else {
      TooManyBytes(p, c);
    }
  }

  lemma OtherStep(p: Parser, c: char)
    requires (p.state.VALUE_START? && c != ' ' && c != '\t') || p.state.VALUE?
    requires c != CR && c != LF && Wordless(p.header) && p.nread < MAX_HEADER_SIZE && Step(p, c).Next?
    ensures Step(p, c).p.state.VALUE? && Wordless(Step(p, c).p.header) && Step(p, c).p.nread == p.nread + 1
  {
    hide Step, Lower, Accumulate, CharAt, FieldStart, Field, HeaderAlmostDone, HeadersAlmostDone, HeadersDone;
    HeaderStep(p, c);
  }

  /** A run up to some byte, and from there on. */
  lemma RunParts(p: Parser, a: string, b: string)
    requires Run(p, a + b).Running?
    ensures Run(p, a).Running? && Run(Run(p, a).p, b).Running?
    ensures Run(p, a + b) == Running(Run(Run(p, a).p, b).p, Run(p, a).events + Run(Run(p, a).p, b).events)
  {
    hide Run;
    if !Run(p, a).Running? { RunStops(p, a, b); }
    RunAppend(p, a, b);
  }

  lemma RunLast(p: Parser, bs: string)
    requires |bs| > 0 && Run(p, bs).Running?
    ensures Run(p, bs[..|bs| - 1]).Running? && StepsTo(Run(p, bs[..|bs| - 1]).p, bs[|bs| - 1], Run(p, bs).p)
  {
    hide Step, Events;
  }

  ghost predicate StepsTo(p: Parser, c: char, q: Parser)
  {
    Step(p, c).Next? && Step(p, c).p == q
  }

  lemma {:induction false} OtherValue(p: Parser, v: string)
    requires p.state.VALUE_START? && Wordless(p.header) && |v| > 0 && ValueChars(v) && Run(p, v).Running?
    requires p.nread + |v| <= MAX_HEADER_SIZE
    ensures var q := Run(p, v).p;
            && q.state.VALUE? && Wordless(q.header) && q.nread == p.nread + |v|
            && Hears(p, q, NOTHING.(upgrade := p.header.H_UPGRADE?))
  {
    hide Step, Run, Wordless, Events;
    var n := |v| - 1;
    RunLast(p, v);
    if n == 0 {
      assert v[..0] == "";
      RunEmpty(p, v[..0]);
    } else {
      OtherValue(p, v[..n]);
    }
    var q := Run(p, v[..n]).p;
    OtherStep(q, v[n]);
    HeaderKeeps(q, v[n]);
  }

  datatype HeaderLine = HeaderLine(name: string, blanks: string, value: string, eol: string)

  predicate GoodLine(l: HeaderLine)
  {
    |l.name| > 0 && Tokens(l.name) && Blank(l.blanks) && ValueChars(l.value) && LineBreak(l.eol)
  }

  function LineText(l: HeaderLine): string
  {
    Line(l.name, l.blanks, l.value, l.eol)
  }

  /** Connection: close, or Proxy-Connection: close, in any letter case. */
  predicate SaysClose(l: HeaderLine)
  {
    NamesConnection(l.name) && Says(CLOSE, l.value)
  }

  predicate SaysKeepAlive(l: HeaderLine)
  {
    NamesConnection(l.name) && Says(KEEP_ALIVE, l.value)
  }

  /** Transfer-Encoding: chunked. */
  predicate SaysCoded(l: HeaderLine)
  {
    Names(TRANSFER_ENCODING, l.name) && Says(CHUNKED, l.value)
  }

  /** Upgrade, with any value. */
  predicate SaysUpgrade(l: HeaderLine)
  {
    Names(UPGRADE, l.name) && l.value != ""
  }

  function SaidIn(l: HeaderLine): Said
  {
    Said(SaysClose(l), SaysKeepAlive(l), SaysCoded(l), SaysUpgrade(l))
  }

  /** At the colon and the blanks after a name. */
  lemma NameAndColon(p: Parser, name: string, blanks: string)
    requires AtLine(p.state) && |name| > 0 && Tokens(name) && Blank(blanks)
    requires p.nread + |name| + 1 + |blanks| <= MAX_HEADER_SIZE
    ensures Run(p, name + ":" + blanks).Running?
    ensures var q := Run(p, name + ":" + blanks).p;
            q == p.(nread := p.nread + |name| + 1 + |blanks|, state := VALUE_START, index := q.index,
                    header := HeaderOf(name))
  {
    hide Step, Run, Events, HeaderOf, Tokens, Blank;
    AnyName(p, name);
    var p1 := Run(p, name).p;
    var p2 := p1.(nread := p1.nread + 1, state := VALUE_START);
    Colon(p1);
    NoEvents(':', HEADER_FIELD);
    RunSingle(p1, ':', p2, [Flush(HEADER_FIELD)], None);
    RunMore(p, name, ":", p1, Run(p, name).events, p2, []);
    Blanks(p2, blanks);
    RunMore(p, name + ":", blanks, p2, Run(p, name).events + [], p2.(nread := p2.nread + |blanks|), []);
  }

  /** The end of a line. */
  lemma EndOfLine(p: Parser, eol: string)
    requires (p.state.VALUE? || p.state.VALUE_START?) && LineBreak(eol) && Run(p, eol).Running?
    requires p.nread + |eol| <= MAX_HEADER_SIZE
    ensures var q := Run(p, eol).p;
            && AtLine(q.state) && q.nread == p.nread + |eol|
            && Hears(p, q, if p.state.VALUE? then SaidAtEnd(p.header) else NOTHING)
  {
    hide Step, Run;
    RunLast(p, eol);
    if eol == [LF] {
      assert eol[..0] == "";
      RunEmpty(p, eol[..0]);
      HeaderKeeps(p, LF);
      LineFeed(p);
    } else {
      assert eol[..1] == [CR];
      RunLast(p, [CR]);
      assert [CR][..0] == "";
      RunEmpty(p, [CR][..0]);
      var p1 := Run(p, [CR]).p;
      HeaderKeeps(p, CR);
      CarriageReturn(p);
      HeaderKeeps(p1, LF);
      LineFeed(p1);
    }
  }

  lemma CarriageReturn(p: Parser)
    requires (p.state.VALUE? || p.state.VALUE_START?) && p.nread < MAX_HEADER_SIZE && Step(p, CR).Next?
    ensures var q := Step(p, CR).p;
            && q.state.HEADER_ALMOST_DONE? && q.nread == p.nread + 1
            && q.header == if p.state.VALUE? then p.header else H_GENERAL
  {
    hide Step, FieldStart, Field, ValueText, HeaderAlmostDone, HeadersAlmostDone, HeadersDone, Lower;
    HeaderStep(p, CR);
  }

  lemma LineFeed(p: Parser)
    requires p.state.VALUE? || p.state.VALUE_START? || p.state.HEADER_ALMOST_DONE?
    requires p.nread < MAX_HEADER_SIZE && Step(p, LF).Next?
    ensures AtLine(Step(p, LF).p.state) && Step(p, LF).p.nread == p.nread + 1
  {
    hide Step, FieldStart, Field, ValueText, HeadersAlmostDone, HeadersDone, Lower;
    HeaderStep(p, LF);
  }

  /** A value, from its first character to the end of its line. */
  lemma ValueAndBreak(p: Parser, l: HeaderLine)
    requires p.state.VALUE_START? && GoodLine(l) && p.header == HeaderOf(l.name)
    requires p.nread + |l.value| + |l.eol| <= MAX_HEADER_SIZE && Run(p, l.value + l.eol).Running?
    ensures var q := Run(p, l.value + l.eol).p;
            && AtLine(q.state) && q.nread == p.nread + |l.value| + |l.eol| && Hears(p, q, SaidIn(l))
  {
    hide Run, HeaderOf, WordOf, CodingOf, ValueChars, LineBreak, NamesConnection, Names, Says, Wordless, Tokens, Blank;
    var v, eol := l.value, l.eol;
    RunParts(p, v, eol);
    HeadersKnown(l.name);
    WordIs(v);
    if v == "" {
      RunEmpty(p, v);
    } else if p.header == H_CONNECTION {
      ConnectionValue(p, v);
    } else if p.header == H_ENCODING {
      CodingValue(p, v);
    } else {
      OtherValue(p, v);
      WordlessIs(Run(p, v).p.header);
    }
    EndOfLine(Run(p, v).p, eol);
  }

  lemma WordIs(v: string)
    ensures WordOf(v).H_CLOSE? <==> Says(CLOSE, v)
    ensures WordOf(v).H_KEEP_ALIVE? <==> Says(KEEP_ALIVE, v)
    ensures CodingOf(v).H_CHUNKED? <==> Says(CHUNKED, v)
    ensures !WordOf(v).H_CHUNKED? && !CodingOf(v).H_CLOSE? && !CodingOf(v).H_KEEP_ALIVE?
    ensures v == "" ==> !Says(CLOSE, v) && !Says(KEEP_ALIVE, v) && !Says(CHUNKED, v)
  {
    if v != "" { WordsDiffer(v); }
    hide BeginsWord, Lower;
  }

  lemma WordlessIs(h: HeaderState)
    ensures Wordless(h) ==> !h.H_CLOSE? && !h.H_KEEP_ALIVE? && !h.H_CHUNKED?
  {
  }

  /** A header line sets the close flag if and only if it says close, and likewise for keep-alive, for the chunked
      coding and for an upgrade. */
  lemma LineRead(p: Parser, l: HeaderLine)
    requires AtLine(p.state) && GoodLine(l)
    requires p.nread + |LineText(l)| <= MAX_HEADER_SIZE && Run(p, LineText(l)).Running?
    ensures var q := Run(p, LineText(l)).p;
            && AtLine(q.state) && q.nread == p.nread + |LineText(l)| && Hears(p, q, SaidIn(l))
  {
    hide Run, HeaderOf, SaidIn, Tokens, Blank, ValueChars, LineBreak;
    NameAndColon(p, l.name, l.blanks);
    RunParts(p, l.name + ":" + l.blanks, l.value + l.eol);
    ValueAndBreak(Run(p, l.name + ":" + l.blanks).p, l);
  }

  function LinesText(ls: seq<HeaderLine>): string
  {
    if |ls| == 0 then "" else LinesText(ls[..|ls| - 1]) + LineText(ls[|ls| - 1])
  }

  predicate GoodLines(ls: seq<HeaderLine>)
  {
    forall i :: 0 <= i < |ls| ==> GoodLine(ls[i])
  }

  predicate SomeClose(ls: seq<HeaderLine>)
  {
    exists i :: 0 <= i < |ls| && SaysClose(ls[i])
  }

  predicate SomeKeepAlive(ls: seq<HeaderLine>)
  {
    exists i :: 0 <= i < |ls| && SaysKeepAlive(ls[i])
  }

  predicate SomeCoded(ls: seq<HeaderLine>)
  {
    exists i :: 0 <= i < |ls| && SaysCoded(ls[i])
  }

  predicate SomeUpgrade(ls: seq<HeaderLine>)
  {
    exists i :: 0 <= i < |ls| && SaysUpgrade(ls[i])
  }

  function SaidInAny(ls: seq<HeaderLine>): Said
  {
    Said(SomeClose(ls), SomeKeepAlive(ls), SomeCoded(ls), SomeUpgrade(ls))
  }

  function Either(a: Said, b: Said): Said
  {
    Said(a.close || b.close, a.keepAlive || b.keepAlive, a.chunked || b.chunked, a.upgrade || b.upgrade)
  }

  lemma SomeNext(ls: seq<HeaderLine>)
    requires |ls| > 0
    ensures SaidInAny(ls) == Either(SaidInAny(ls[..|ls| - 1]), SaidIn(ls[|ls| - 1]))
  {
    hide SaysClose, SaysKeepAlive, SaysCoded, SaysUpgrade;
    var n := |ls| - 1;
    var front := ls[..n];
    forall i | 0 <= i < n ensures front[i] == ls[i] {}
    if SomeClose(front) {
      var i :| 0 <= i < n && SaysClose(front[i]);
      assert SaysClose(ls[i]);
    }
    if SomeKeepAlive(front) {
      var i :| 0 <= i < n && SaysKeepAlive(front[i]);
      assert SaysKeepAlive(ls[i]);
    }
    if SomeCoded(front) {
      var i :| 0 <= i < n && SaysCoded(front[i]);
      assert SaysCoded(ls[i]);
    }
    if SomeUpgrade(front) {
      var i :| 0 <= i < n && SaysUpgrade(front[i]);
      assert SaysUpgrade(ls[i]);
    }
  }

  /** Header lines set the flags that some of them say. */
  lemma {:induction false} LinesRead(p: Parser, ls: seq<HeaderLine>)
    requires AtLine(p.state) && GoodLines(ls) && p.nread + |LinesText(ls)| <= MAX_HEADER_SIZE
    requires Run(p, LinesText(ls)).Running?
    ensures var q := Run(p, LinesText(ls)).p;
            && AtLine(q.state) && q.nread == p.nread + |LinesText(ls)| && Hears(p, q, SaidInAny(ls))
  {
    hide Run, LineText, GoodLine, SaidInAny, SaidIn;
    if |ls| == 0 {
      NoneSaid();
      RunEmpty(p, "");
      assert ls == [];
    } else {
      var n := |ls| - 1;
      SomeNext(ls);
      RunParts(p, LinesText(ls[..n]), LineText(ls[n]));
      LinesRead(p, ls[..n]);
      LineRead(Run(p, LinesText(ls[..n])).p, ls[n]);
    }
  }

  lemma NoneSaid()
    ensures SaidInAny([]) == NOTHING
  {
  }

  // ---------------------------------------------------------------- the end of a message

  /** After a message of this version, with these flags, another may follow: if both numbers of the version are above
      zero, unless close was said, and otherwise only if keep-alive was. */
  predicate Persists(major: nat, minor: nat, close: bool, keepAlive: bool)
  {
    if major > 0 && minor > 0 then !close else keepAlive
  }

  /** The end of a response shows: it has a status without a body, is chunked, or has a length. */
  predicate EndShows(status: nat, chunked: bool, sized: bool)
  {
    (100 <= status < 200 || status == 204 || status == 304) || chunked || sized
  }

  /** Where a parser is after a message. */
  function AfterMessage(q: Parser): State
  {
    if !Persists(q.major, q.minor, q.flags.close, q.flags.keepAlive) then DEAD
    else if q.kind == REQUEST then START_REQ
    else if EndShows(q.status, q.flags.chunked, q.length != ULLONG_MAX) then START_RES
    else DEAD
  }

  /** Whenever a byte completes a message, the version, the flags, and for responses the status and the length decide
      whether the parser is ready for another. */
  lemma Completes(p: Parser, c: char)
    requires Step(p, c).Next? && Notify(MESSAGE_COMPLETE) in Step(p, c).acts
    ensures Step(p, c).p.state == AfterMessage(Step(p, c).p)
  {
    hide Step;
    if p.nread < MAX_HEADER_SIZE || !ParsingHeader(p.state) {
      CompletesIn(if ParsingHeader(p.state) then p.(nread := p.nread + 1) else p, c);
      StepIs(p, c);
    } else {
      StepIs(p, c);
    }
  }

  lemma StepIs(p: Parser, c: char)
    ensures Step(p, c) == if !ParsingHeader(p.state) then Dispatch(p, c)
                          else if p.nread < MAX_HEADER_SIZE then Dispatch(p.(nread := p.nread + 1), c)
                          else Fail(HEADER_OVERFLOW)
  {
    hide Dispatch;
  }

  /** A result that completes a message leaves the parser where it should be. */
  predicate WellDone(r: Result)
  {
    r.Next? && Notify(MESSAGE_COMPLETE) in r.acts ==> r.p.state == AfterMessage(r.p)
  }

  lemma CompletesIn(p: Parser, c: char)
    ensures WellDone(Dispatch(p, c))
  {
    hide EitherLine, ResponseLine, Header, Chunk, Identity, RequestLine, Complete, WellDone;
    NoneInLines(p, c);
    HeaderDone(p, c);
    NoneInChunk(p, c);
    IdentityDone(p);
    CompleteDone(p);
    StillGoing(p, c);
  }

  lemma StillGoing(p: Parser, c: char)
    ensures WellDone(Stay(p)) && WellDone(Fail(CLOSED_CONNECTION)) && WellDone(Next(p, [Mark(BODY)], Some(BODY)))
  {
  }

  lemma CompleteDone(p: Parser)
    ensures WellDone(Complete(p))
  {
  }

  lemma IdentityDone(p: Parser)
    ensures WellDone(Identity(p))
  {
  }

  lemma NoneInChunk(p: Parser, c: char)
    ensures WellDone(Chunk(p, c))
  {
    hide Accumulate, Unhex;
  }

  lemma NoneInRequest(p: Parser, c: char)
    ensures WellDone(RequestLine(p, c)) && WellDone(StartRequest(p, c))
  {
    hide UrlChar, MethodName, Reguess, FirstGuess, NextDigit, CharAt;
  }

  lemma NoneInResponse(p: Parser, c: char)
    ensures WellDone(ResponseLine(p, c))
  {
    hide NextDigit;
  }

  lemma NoneInEither(p: Parser, c: char)
    ensures WellDone(EitherLine(p, c))
  {
    NoneInRequest(p.(flags := NO_FLAGS, length := ULLONG_MAX, kind := REQUEST, state := START_REQ), c);
    hide RequestLine, StartRequest;
  }

  lemma NoneInLines(p: Parser, c: char)
    ensures WellDone(EitherLine(p, c)) && WellDone(ResponseLine(p, c)) && WellDone(RequestLine(p, c))
  {
    hide *;
    NoneInRequest(p, c);
    NoneInResponse(p, c);
    NoneInEither(p, c);
  }

  lemma HeadersDoneWell(p: Parser, c: char)
    ensures WellDone(HeadersDone(p, c)) && WellDone(HeadersAlmostDone(p, c))
    ensures WellDone(After([Notify(HEADERS_COMPLETE)], HeadersDone(p, c)))
  {
    var q := p.(nread := 0);
    CompleteDone(q);
    CompleteDone(p);
    assert WellDone(HeadersDone(p, c));
    var r := p.(state := HEADERS_DONE, upgrade := p.flags.upgrade || p.meth == CONNECT);
    CompleteDone(r.(nread := 0));
  }

  lemma FieldDone(p: Parser, c: char)
    ensures WellDone(FieldStart(p, c)) && WellDone(Field(p, c))
  {
    hide HeadersAlmostDone, Token, FieldName;
    HeadersDoneWell(p.(state := HEADERS_ALMOST_DONE), c);
  }

  lemma ValueDone(p: Parser, c: char)
    ensures WellDone(ValueStart(p, c)) && WellDone(Value(p, c)) && WellDone(HeaderAlmostDone(p, c))
  {
    hide Lower, Accumulate, Matching;
  }

  lemma HeaderDone(p: Parser, c: char)
    ensures WellDone(Header(p, c))
  {
    hide FieldStart, Field, ValueStart, Value, HeaderAlmostDone, HeadersAlmostDone, HeadersDone, WellDone, Go;
    FieldDone(p, c);
    FieldDone(p.(state := FIELD_START), c);
    ValueDone(p, c);
    HeadersDoneWell(p, c);
    GoDone(p);
  }

  lemma GoDone(p: Parser)
    ensures WellDone(Go(p, VALUE_START))
  {
  }

  // ---------------------------------------------------------------- whole messages

  /** No header line is being read: the parser is between lines, at the end of the headers, or in a body. */
  predicate BetweenLines(s: State)
  {
    AtLine(s) || s.HEADERS_ALMOST_DONE? || InChunk(s) || s.BODY_IDENTITY?
  }

  /** The bytes hold no header line. */
  ghost predicate NoLines(p: Parser, bs: string)
  {
    forall i :: 0 <= i < |bs| ==> Run(p, bs[..i]).Running? && BetweenLines(Run(p, bs[..i]).p.state)
  }

  predicate KeepsResult(p: Parser, r: Result)
  {
    r.Next? ==> SameMessage(p, r.p) && Given(p, r.p, NOTHING)
  }

  lemma ChunkKeeps(p: Parser, c: char)
    ensures KeepsResult(p, Chunk(p, c))
  {
    ChunkSame(p, c);
    hide Chunk;
  }

  /** A byte of a chunked body changes no more than this. */
  predicate ChunkChanges(p: Parser, r: Result)
  {
    r.Next? ==> r.p == p.(nread := r.p.nread, length := r.p.length, state := r.p.state, flags := r.p.flags)
                && r.p.flags == p.flags.(trailing := r.p.flags.trailing)
  }

  lemma SizeSame(p: Parser, c: char)
    ensures ChunkChanges(p, ChunkSize(p, c))
  {
    hide Unhex, Accumulate;
  }

  lemma ChunkSame(p: Parser, c: char)
    ensures ChunkChanges(p, Chunk(p, c))
  {
    SizeSame(p, c);
    hide Unhex, ChunkSize;
  }

  lemma IdentityKeeps(p: Parser)
    ensures KeepsResult(p, Identity(p))
  {
    hide NewMessage;
  }

  lemma BodyKeeps(p: Parser, c: char)
    requires (InChunk(p.state) || p.state.BODY_IDENTITY?) && Step(p, c).Next?
    ensures SameMessage(p, Step(p, c).p) && Given(p, Step(p, c).p, NOTHING)
  {
    StepIs(p, c);
    ChunkKeeps(p, c);
    ChunkKeeps(p.(nread := p.nread + 1), c);
    IdentityKeeps(p);
    hide Step, EitherLine, ResponseLine, Header, RequestLine, Chunk, Identity;
  }

  lemma {:induction false} NoLinesKeep(p: Parser, bs: string)
    requires NoLines(p, bs) && Run(p, bs).Running?
    ensures SameMessage(p, Run(p, bs).p) && Given(p, Run(p, bs).p, NOTHING)
  {
    hide Step, Run, BetweenLines, InChunk;
    if |bs| == 0 {
      RunEmpty(p, bs);
    } else {
      var n := |bs| - 1;
      RunLast(p, bs);
      forall i | 0 <= i < n ensures Run(p, bs[..n][..i]).Running? && BetweenLines(Run(p, bs[..n][..i]).p.state) {
        assert bs[..n][..i] == bs[..i];
      }
      NoLinesKeep(p, bs[..n]);
      var q := Run(p, bs[..n]).p;
      BetweenParts(q.state);
      if InChunk(q.state) || q.state.BODY_IDENTITY? { BodyKeeps(q, bs[n]); } else { HeaderKeeps(q, bs[n]); }
    }
  }

  lemma BetweenParts(s: State)
    requires BetweenLines(s)
    ensures InChunk(s) || s.BODY_IDENTITY? || (InHeader(s) && !s.VALUE? && !s.HEADER_ALMOST_DONE? && !s.VALUE_START?)
  {
  }

  /** The last byte completes a message. */
  ghost predicate CompletesMessage(p: Parser, bs: string)
  {
    && |bs| > 0 && Run(p, bs).Running? && Run(p, bs[..|bs| - 1]).Running?
    && |Run(p, bs).events| > |Run(p, bs[..|bs| - 1]).events|
    && Run(p, bs).events[|Run(p, bs).events| - 1] == Told(MESSAGE_COMPLETE)
  }

  lemma {:induction false} NotedBy(acts: seq<Act>, n: Note)
    requires Told(n) in Notes(acts)
    ensures Notify(n) in acts
  {
    if |acts| > 0 {
      var last := |acts| - 1;
      if acts[last] != Notify(n) { NotedBy(acts[..last], n); }
    }
  }

  lemma CompletedBy(p: Parser, bs: string)
    requires CompletesMessage(p, bs)
    ensures Run(p, bs).p.state == AfterMessage(Run(p, bs).p)
  {
    var n := |bs| - 1;
    RunLast(p, bs);
    var q := Run(p, bs[..n]).p;
    var r := Step(q, bs[n]);
    assert Run(p, bs).events == Run(p, bs[..n]).events + Events(r.acts, r.own, bs[n]);
    hide Step, Run, Notes;
    assert Told(MESSAGE_COMPLETE) in Notes(r.acts);
    NotedBy(r.acts, MESSAGE_COMPLETE);
    Completes(q, bs[n]);
  }

  /** A message after its first line: header lines, bytes without any (the end of the headers, a body, or all but the
      end of a chunked one), the lines of a trailer, and the bytes up to its end. */
  datatype Rest = Rest(lines: seq<HeaderLine>, middle: string, trailer: seq<HeaderLine>, end: string)

  function RestText(m: Rest): string
  {
    LinesText(m.lines) + m.middle + (LinesText(m.trailer) + m.end)
  }

  /** The parser finds it so. */
  ghost predicate ReadsAs(p: Parser, m: Rest)
  {
    && GoodLines(m.lines) && GoodLines(m.trailer) && p.nread + |LinesText(m.lines)| <= MAX_HEADER_SIZE
    && Run(p, LinesText(m.lines)).Running?
    && var b := Run(p, LinesText(m.lines)).p;
       && NoLines(b, m.middle) && Run(b, m.middle).Running?
       && var t := Run(b, m.middle).p;
          && (|m.trailer| > 0 ==> AtLine(t.state)) && t.nread + |LinesText(m.trailer)| <= MAX_HEADER_SIZE
          && Run(t, LinesText(m.trailer)).Running? && NoLines(Run(t, LinesText(m.trailer)).p, m.end)
  }

  predicate ClosesIn(m: Rest)
  {
    SomeClose(m.lines) || SomeClose(m.trailer)
  }

  predicate KeepsAliveIn(m: Rest)
  {
    SomeKeepAlive(m.lines) || SomeKeepAlive(m.trailer)
  }

  predicate CodedIn(m: Rest)
  {
    SomeCoded(m.lines) || SomeCoded(m.trailer)
  }

  function SaidInRest(m: Rest): Said
  {
    Either(SaidInAny(m.lines), SaidInAny(m.trailer))
  }

  lemma TrailerLines(p: Parser, ls: seq<HeaderLine>)
    requires (|ls| > 0 ==> AtLine(p.state)) && GoodLines(ls) && p.nread + |LinesText(ls)| <= MAX_HEADER_SIZE
    requires Run(p, LinesText(ls)).Running?
    ensures SameMessage(p, Run(p, LinesText(ls)).p)
    ensures Given(p, Run(p, LinesText(ls)).p, SaidInAny(ls))
  {
    hide Run, GoodLines, SaidInAny;
    if |ls| == 0 {
      NoneSaid();
      assert ls == [];
      assert LinesText(ls) == "";
      RunEmpty(p, LinesText(ls));
    } else {
      LinesRead(p, ls);
    }
  }

  /** At the end of a message the flags are those that its lines say, and what its first line says has stayed. */
  lemma RestRead(p: Parser, m: Rest)
    requires AtLine(p.state) && ReadsAs(p, m) && CompletesMessage(p, RestText(m))
    ensures var q := Run(p, RestText(m)).p;
            SameMessage(p, q) && Given(p, q, SaidInRest(m)) && q.state == AfterMessage(q)
  {
    hide Run, LinesText, GoodLines, NoLines, SaidInAny, CompletesMessage, AfterMessage;
    CompletedBy(p, RestText(m));
    CompletesRunning(p, RestText(m));
    var front, back := LinesText(m.lines) + m.middle, LinesText(m.trailer) + m.end;
    RunParts(p, front, back);
    RunParts(p, LinesText(m.lines), m.middle);
    LinesRead(p, m.lines);
    var b := Run(p, LinesText(m.lines)).p;
    NoLinesKeep(b, m.middle);
    var t := Run(b, m.middle).p;
    RunParts(t, LinesText(m.trailer), m.end);
    TrailerLines(t, m.trailer);
    NoLinesKeep(Run(t, LinesText(m.trailer)).p, m.end);
  }

  lemma CompletesRunning(p: Parser, bs: string)
    requires CompletesMessage(p, bs)
    ensures Run(p, bs).Running?
  {
  }

  /** The first byte after a message: it begins another, or it is refused because the connection is closed. */
  lemma NextByte(q: Parser, c: char)
    requires q.nread < MAX_HEADER_SIZE && c != CR && c != LF
    ensures q.state.DEAD? ==> Step(q, c) == Fail(CLOSED_CONNECTION)
    ensures q.state.START_RES? && c == 'H' ==> Step(q, c).Next? && Step(q, c).acts == [Notify(MESSAGE_BEGIN)]
                                               && Step(q, c).own == None
    ensures q.state.START_REQ? && FirstGuess(c).Some? ==> Step(q, c).Next? && Step(q, c).acts == [Notify(MESSAGE_BEGIN)]
                                                          && Step(q, c).own == None
  {
    StepIs(q, c);
    hide Step, EitherLine, Header, Chunk, FirstGuess, Major, Minor, StatusCode;
  }

  /** After a text, the byte begins another message. */
  ghost predicate BeginsAnother(p: Parser, bs: string, c: char)
  {
    && Run(p, bs).Running? && Run(p, bs + [c]).Running?
    && Run(p, bs + [c]).events == Run(p, bs).events + [Told(MESSAGE_BEGIN)]
  }

  lemma AnotherByte(p: Parser, bs: string, c: char)
    requires Run(p, bs).Running? && Run(p, bs).p.nread < MAX_HEADER_SIZE && c != CR && c != LF
    ensures var q := Run(p, bs).p;
            && (q.state.DEAD? ==> Run(p, bs + [c]) == Failed(CLOSED_CONNECTION, |bs|))
            && (q.state.START_RES? && c == 'H' ==> BeginsAnother(p, bs, c))
            && (q.state.START_REQ? && FirstGuess(c).Some? ==> BeginsAnother(p, bs, c))
  {
    assert (bs + [c])[..|bs|] == bs;
    assert Run(p, bs + [c]) == Advance(Run(p, bs), c, |bs|);
    hide Step, Run, Events, FirstGuess;
    NextByte(Run(p, bs).p, c);
    BeginEvents(c);
  }

  /** A request on its own, and the first byte of what follows it: a following request is begun if and only if both
      numbers of its version are above zero and no line said close, or one of them is zero and some line said
      keep-alive; otherwise the byte is refused. */
  lemma RequestThenNext(p: Parser, m: Method, url: string, major: string, minor: string, eol: string, rest: Rest,
                        next: Method)
    requires p.kind == REQUEST && p.state.START_REQ? && UrlText(m, url) && LineBreak(eol)
    requires VersionText(REQUEST, MAJOR, major) && VersionText(REQUEST, MINOR, minor)
    requires p.nread + |RequestLineText(m, url, major, minor, eol)| <= MAX_HEADER_SIZE
    requires var a := AfterRequestLine(p, m, url, major, minor, eol);
             ReadsAs(a, rest) && CompletesMessage(a, RestText(rest)) && Run(a, RestText(rest)).p.nread < MAX_HEADER_SIZE
    ensures var text, c := RequestLineText(m, url, major, minor, eol) + RestText(rest), CharAt(MethodName(next), 0);
            if (ValueOf(major) > 0 && ValueOf(minor) > 0 && !ClosesIn(rest))
               || ((ValueOf(major) == 0 || ValueOf(minor) == 0) && KeepsAliveIn(rest))
            then BeginsAnother(p, text, c) else Run(p, text + [c]) == Failed(CLOSED_CONNECTION, |text|)
  {
    FirstOfNext(next);
    hide Run, ValueOf, RequestLineText, RestText, ReadsAs, CompletesMessage, SomeClose, SomeKeepAlive, SomeCoded,
      SomeUpgrade, UrlText, LineBreak,
      MethodName, FirstGuess, BeginsAnother;
    var line, tail := RequestLineText(m, url, major, minor, eol), RestText(rest);
    var a := AfterRequestLine(p, m, url, major, minor, eol);
    RequestLineRead(p, m, url, major, minor, eol);
    RestRead(a, rest);
    CompletesRunning(a, tail);
    RunMore(p, line, tail, a, Run(p, line).events, Run(a, tail).p, Run(a, tail).events);
    AnotherByte(p, line + tail, CharAt(MethodName(next), 0));
  }

  lemma FirstOfNext(m: Method)
    ensures var c := CharAt(MethodName(m), 0); FirstGuess(c).Some? && c != CR && c != LF
  {
    hide MethodName, FirstGuess;
    GuessRight(m);
    GuessBefore(m, 1, |MethodName(m)|);
    NoNulName(m, 0);
  }

  /** A response on its own, and the first byte of what follows it: in addition its end must show, by its status, by the
      chunked coding or by a length. */
  lemma ResponseThenNext(p: Parser, major: string, minor: string, status: string, reason: string, eol: string,
                         rest: Rest)
    requires p.kind == RESPONSE && p.state.START_RES? && LineBreak(eol) && Reason(reason)
    requires VersionText(RESPONSE, MAJOR, major) && VersionText(RESPONSE, MINOR, minor)
    requires Digits(status) && ValueOf(status) <= 999
    requires p.nread + |StatusLineText(major, minor, status, reason, eol)| <= MAX_HEADER_SIZE
    requires var a := AfterStatusLine(p, major, minor, status, reason, eol);
             ReadsAs(a, rest) && CompletesMessage(a, RestText(rest)) && Run(a, RestText(rest)).p.nread < MAX_HEADER_SIZE
    ensures var text := StatusLineText(major, minor, status, reason, eol) + RestText(rest);
            var q := Run(AfterStatusLine(p, major, minor, status, reason, eol), RestText(rest)).p;
            if ((ValueOf(major) > 0 && ValueOf(minor) > 0 && !ClosesIn(rest))
                || ((ValueOf(major) == 0 || ValueOf(minor) == 0) && KeepsAliveIn(rest)))
               && (ValueOf(status) / 100 == 1 || ValueOf(status) == 204 || ValueOf(status) == 304 || CodedIn(rest)
                   || q.length != ULLONG_MAX)
            then BeginsAnother(p, text, 'H') else Run(p, text + ['H']) == Failed(CLOSED_CONNECTION, |text|)
  {
    hide Run, ValueOf, StatusLineText, RestText, ReadsAs, CompletesMessage, SomeClose, SomeKeepAlive, SomeCoded,
      SomeUpgrade, LineBreak, Reason, BeginsAnother;
    var line, tail := StatusLineText(major, minor, status, reason, eol), RestText(rest);
    var a := AfterStatusLine(p, major, minor, status, reason, eol);
    StatusLineRead(p, major, minor, status, reason, eol);
    RestRead(a, rest);
    CompletesRunning(a, tail);
    RunMore(p, line, tail, a, Run(p, line).events, Run(a, tail).p, Run(a, tail).events);
    AnotherByte(p, line + tail, 'H');
  }

  // ---------------------------------------------------------------- what follows the headers

  /** The headers end at a line feed: the connection is handed over to another protocol; or chunks follow; or the
      message is complete, as its length is zero or it has none and no body; or a body of its length follows, or one up
      to the end. */
  function AfterHeaders(q: Parser, handOver: bool, chunked: bool): Result
  {
    var r := q.(nread := 0, upgrade := handOver);
    var done := [Notify(HEADERS_COMPLETE), Notify(MESSAGE_COMPLETE)];
    if handOver then Leave(r.(state := AfterMessage(r)), done)
    else if chunked then Next(r.(state := CHUNK_SIZE_START), [Notify(HEADERS_COMPLETE)], None)
    else if q.length == 0 || (q.length == ULLONG_MAX && (q.kind == REQUEST || EndShows(q.status, false, false))) then
      Next(r.(state := AfterMessage(r)), done, None)
    else
      Next(r.(state := if q.length == ULLONG_MAX then BODY_IDENTITY_EOF else BODY_IDENTITY), [Notify(HEADERS_COMPLETE)],
           None)
  }

  lemma EndStep(q: Parser)
    requires BeforeEnd(q.state) && q.nread < MAX_HEADER_SIZE && !q.flags.trailing
    ensures Step(q, LF) == AfterHeaders(q, q.flags.upgrade || q.meth == CONNECT, q.flags.chunked)
  {
    HeadersEnd(q);
    hide Step;
    assert [Notify(HEADERS_COMPLETE)] + [Notify(MESSAGE_COMPLETE)] ==
           [Notify(HEADERS_COMPLETE), Notify(MESSAGE_COMPLETE)];
  }

  /** After any header lines, it is an upgrade that some line said, or the method CONNECT, that hands the connection
      over, and it is the chunked coding that some line said that makes chunks follow. */
  lemma HeadersThenBody(p: Parser, ls: seq<HeaderLine>)
    requires AtLine(p.state) && GoodLines(ls) && p.nread + |LinesText(ls)| < MAX_HEADER_SIZE && !p.flags.trailing
    requires Run(p, LinesText(ls)).Running?
    ensures Run(p, LinesText(ls) + [LF]) ==
              match AfterHeaders(Run(p, LinesText(ls)).p, p.flags.upgrade || SomeUpgrade(ls) || p.meth == CONNECT,
                                 p.flags.chunked || SomeCoded(ls))
              case Next(q, acts, own) => Running(q, Run(p, LinesText(ls)).events + Events(acts, own, LF))
              case Leave(q, acts) => Left(q, Run(p, LinesText(ls)).events + Notes(acts), |LinesText(ls)|)
              case Fail(e) => Failed(e, |LinesText(ls)|)
              case Abort => Aborted
  {
    var text := LinesText(ls);
    assert (text + [LF])[..|text|] == text;
    assert Run(p, text + [LF]) == Advance(Run(p, text), LF, |text|);
    hide Run, Step, SomeClose, SomeKeepAlive, SomeCoded, SomeUpgrade, AfterHeaders, Events, Notes, GoodLines, LinesText;
    LinesRead(p, ls);
    LineBefore(Run(p, text).p.state);
    EndStep(Run(p, text).p);
  }

  lemma LineBefore(s: State)
    requires AtLine(s)
    ensures BeforeEnd(s)
  {
  }

  // ---------------------------------------------------------------- without a body, or with one up to the end

  /** The end of headers without a length and without the chunked coding: a request is complete, and so is a response
      whose status says that there is no body. */
  lemma NoBody(p: Parser)
    requires BeforeEnd(p.state) && p.nread < MAX_HEADER_SIZE && p.length == ULLONG_MAX
    requires !p.flags.trailing && !p.flags.upgrade && p.meth != CONNECT && !p.flags.chunked
    requires p.kind == REQUEST || EndShows(p.status, false, false)
    ensures var q := p.(nread := 0, upgrade := false);
            Run(p, [LF]) == Running(q.(state := AfterMessage(q)), [Told(HEADERS_COMPLETE), Told(MESSAGE_COMPLETE)])
  {
    hide Step, Run, Events;
    HeadersEnd(p);
    NoteEvents(LF);
    assert [Notify(HEADERS_COMPLETE)] + [Notify(MESSAGE_COMPLETE)] ==
           [Notify(HEADERS_COMPLETE), Notify(MESSAGE_COMPLETE)];
    var q := p.(nread := 0, upgrade := false);
    RunSingle(p, LF, q.(state := AfterMessage(q)), [Notify(HEADERS_COMPLETE), Notify(MESSAGE_COMPLETE)], None);
  }

  lemma {:induction false} BodyUntilEnd(p: Parser, bs: string)
    requires p.state.BODY_IDENTITY_EOF?
    ensures Run(p, bs) == Running(p, Bytes(BODY, bs))
  {
    hide Run, Bytes, Step;
    if |bs| == 0 {
      RunEmpty(p, bs);
      NoBytes(BODY);
    } else {
      var n := |bs| - 1;
      BodyUntilEnd(p, bs[..n]);
      StepIs(p, bs[n]);
      NoEvents(bs[n], BODY);
      RunOne(p, bs[..n], bs[n]);
      BytesSnoc(BODY, bs[..n], bs[n]);
      assert bs == bs[..n] + [bs[n]];
    }
  }

  /** Any other response without a length and without the chunked coding never ends: every further byte is body. */
  lemma EndlessResponse(p: Parser, body: string)
    requires BeforeEnd(p.state) && p.nread < MAX_HEADER_SIZE && p.length == ULLONG_MAX
    requires !p.flags.trailing && !p.flags.upgrade && p.meth != CONNECT && !p.flags.chunked
    requires p.kind != REQUEST && !EndShows(p.status, false, false)
    ensures Run(p, [LF] + body).Running?
    ensures Run(p, [LF] + body).events == [Told(HEADERS_COMPLETE)] + Bytes(BODY, body)
  {
    hide Step, Run, Events, Bytes;
    HeadersEnd(p);
    NoteEvents(LF);
    assert [Notify(HEADERS_COMPLETE)] + [] == [Notify(HEADERS_COMPLETE)];
    var q := p.(nread := 0, upgrade := false, state := BODY_IDENTITY_EOF);
    RunSingle(p, LF, q, [Notify(HEADERS_COMPLETE)], None);
    BodyUntilEnd(q, body);
    RunMore(p, [LF], body, q, [Told(HEADERS_COMPLETE)], q, Bytes(BODY, body));
  }

  /** A request line and the empty line after it. */
  function BareRequest(m: Method, url: string, major: string, minor: string): string
  {
    RequestLineText(m, url, major, minor, [CR, LF]) + [CR, LF]
  }

  lemma EmptyStart(p: Parser)
    requires p.state.FIELD_START? && p.nread < MAX_HEADER_SIZE
    ensures Step(p, CR) == Next(p.(nread := p.nread + 1, state := HEADERS_ALMOST_DONE), [], None)
  {
    hide Step, Token, Field, ValueStart, Value, HeaderAlmostDone, HeadersAlmostDone, HeadersDone;
    HeaderStep(p, CR);
  }

  lemma AlmostDone(p: Parser)
    requires p.state.HEADERS_ALMOST_DONE?
    ensures BeforeEnd(p.state)
  {
  }

  lemma EmptyLine(p: Parser)
    requires p.state.FIELD_START? && p.nread + 2 <= MAX_HEADER_SIZE && p.length == ULLONG_MAX && p.kind == REQUEST
    requires !p.flags.trailing && !p.flags.upgrade && p.meth != CONNECT && !p.flags.chunked
    ensures var q := p.(nread := 0, upgrade := false);
            Run(p, [CR, LF]) == Running(q.(state := AfterMessage(q)), [Told(HEADERS_COMPLETE), Told(MESSAGE_COMPLETE)])
  {
    hide *;
    var p1 := p.(nread := p.nread + 1, state := HEADERS_ALMOST_DONE);
    EmptyStart(p);
    Silent(p, CR, p1);
    AlmostDone(p1);
    NoBody(p1);
    var q := p.(nread := 0, upgrade := false);
    AfterSame(p1.(nread := 0, upgrade := false), q);
    RunQuiet(p, [CR], [LF], p1, q.(state := AfterMessage(q)), [Told(HEADERS_COMPLETE), Told(MESSAGE_COMPLETE)]);
    assert [CR] + [LF] == [CR, LF];
  }

  lemma AfterSame(p: Parser, q: Parser)
    requires p == q.(state := p.state)
    ensures AfterMessage(p) == AfterMessage(q)
  {
  }

  /** Requests one after another on a connection that stays: each is begun and completed. */
  lemma {:induction false} BareRequests(p: Parser, m: Method, url: string, major: string, minor: string)
    requires p.kind == REQUEST && p.state.START_REQ? && UrlText(m, url) && m != CONNECT
    requires VersionText(REQUEST, MAJOR, major) && VersionText(REQUEST, MINOR, minor)
    requires p.nread + |BareRequest(m, url, major, minor)| <= MAX_HEADER_SIZE
    ensures Run(p, BareRequest(m, url, major, minor)).Running?
    ensures Run(p, BareRequest(m, url, major, minor)).events ==
              [Told(MESSAGE_BEGIN)] + Bytes(URL, url) + [Told(HEADERS_COMPLETE), Told(MESSAGE_COMPLETE)]
    ensures var q := Run(p, BareRequest(m, url, major, minor)).p;
            q.kind == REQUEST && q.nread == 0
            && q.state == if ValueOf(major) > 0 && ValueOf(minor) > 0 then START_REQ else DEAD
  {
    hide Run, Bytes, RequestLineText, ValueOf, UrlText;
    var a := AfterRequestLine(p, m, url, major, minor, [CR, LF]);
    RequestLineRead(p, m, url, major, minor, [CR, LF]);
    EmptyLine(a);
    var q := a.(nread := 0, upgrade := false);
    RunMore(p, RequestLineText(m, url, major, minor, [CR, LF]), [CR, LF], a, [Told(MESSAGE_BEGIN)] + Bytes(URL, url),
            q.(state := AfterMessage(q)), [Told(HEADERS_COMPLETE), Told(MESSAGE_COMPLETE)]);
  }
}
