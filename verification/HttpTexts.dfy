/** The texts that the parser's predicates stand for, letter by letter: names and words in any letter case, numbers as
    they are written, the names of the methods. */
module HttpTexts {
  import opened Common
  import opened HttpParser
  import opened HttpRun
  import opened HttpFraming
  import opened HttpHeaders
  import opened HttpLines
  import opened HttpKeepAlive

  // ---------------------------------------------------------------- letters

  /** Small letters and hyphens: what header names and words are made of. */
  predicate Small(name: string)
  {
    forall k :: 0 <= k < |name| ==> 'a' <= name[k] <= 'z' || name[k] == '-'
  }

  /** The same character, or the capital of a small letter. */
  predicate SameLetter(c: char, small: char)
  {
    c == small || ('a' <= small <= 'z' && 'A' <= c <= 'Z' && c as int - 'A' as int == small as int - 'a' as int)
  }

  /** The text is the name in some mixture of small letters and capitals. */
  predicate Spells(name: string, s: string)
  {
    |s| == |name| && forall k :: 0 <= k < |s| ==> SameLetter(s[k], name[k])
  }

  lemma TokenLetter(c: char, small: char)
    requires 'a' <= small <= 'z' || small == '-'
    ensures Token(c) == small <==> SameLetter(c, small)
  {
  }

  lemma LowerLetter(c: char, small: char)
    requires ('a' <= small <= 'z' || small == '-') && c != CR
    ensures Lower(c) == small <==> SameLetter(c, small)
  {
  }

  /** Header names are read in any letter case, and as nothing else. */
  lemma AnyCase(name: string, s: string)
    requires Small(name)
    ensures Names(name, s) <==> Spells(name, s)
  {
    hide Token, SameLetter;
    if |s| == |name| {
      forall k | 0 <= k < |s| ensures Token(s[k]) == name[k] <==> SameLetter(s[k], name[k]) {
        TokenLetter(s[k], name[k]);
      }
    }
  }

  /** So are the words of their values. */
  lemma AnyCaseWord(word: string, v: string)
    requires Small(word) && ValueChars(v)
    ensures Says(word, v) <==>
              |word| <= |v| && Spells(word, v[..|word|]) && forall k :: |word| <= k < |v| ==> v[k] == ' '
  {
    hide Lower, SameLetter;
    if |word| <= |v| {
      forall k | 0 <= k < |word| ensures Lower(v[k]) == word[k] <==> SameLetter(v[k], word[k]) {
        LowerLetter(v[k], word[k]);
      }
    }
  }

  lemma SmallNames()
    ensures Small(CONNECTION) && Small(PROXY_CONNECTION) && Small(CONTENT_LENGTH) && Small(TRANSFER_ENCODING)
    ensures Small(UPGRADE) && Small(CLOSE) && Small(KEEP_ALIVE) && Small(CHUNKED)
  {
  }

  // ---------------------------------------------------------------- numbers

  const DIGITS: string := "0123456789abcdef"
  const CAPITALS: string := "0123456789ABCDEF"

  /** A number as it is written in decimal. */
  function Written(n: nat): (s: string)
    ensures |s| > 0
  {
    if n < 10 then [DIGITS[n]] else Written(n / 10) + [DIGITS[n % 10]]
  }

  /** A number as it is written in base 16, with small or capital letters. */
  function WrittenHex(n: nat, capitals: bool): (s: string)
    ensures |s| > 0
  {
    var digits := if capitals then CAPITALS else DIGITS;
    if n < 16 then [digits[n]] else WrittenHex(n / 16, capitals) + [digits[n % 16]]
  }

  lemma DecimalDigit(d: nat)
    requires d < 10
    ensures IsNum(DIGITS[d]) && Digit(DIGITS[d]) == d && DIGITS[d] != ' '
  {
  }

  lemma HexDigit(d: nat)
    requires d < 16
    ensures Unhex(DIGITS[d]) == d && Unhex(CAPITALS[d]) == d
  {
  }

  /** The value of a Content-Length is the number that its digits write. */
  lemma {:induction false} DecimalWritten(n: nat)
    ensures LengthText(Written(n)) && Decimal(Written(n)) == n
  {
    DecimalDigit(n % 10);
    hide DIGITS, Digit;
    var s := Written(n);
    if n < 10 {
      assert s[..0] == "" && Decimal("") == 0;
    } else {
      DecimalWritten(n / 10);
      assert s[..|s| - 1] == Written(n / 10);
    }
  }

  /** So are the numbers of a version and of a status. */
  lemma {:induction false} ValueWritten(n: nat)
    ensures Digits(Written(n)) && ValueOf(Written(n)) == n
  {
    DecimalDigit(n % 10);
    hide DIGITS, Digit;
    var s := Written(n);
    if n < 10 {
      assert s[..0] == "" && ValueOf("") == 0;
    } else {
      ValueWritten(n / 10);
      assert s[..|s| - 1] == Written(n / 10);
    }
  }

  lemma HexNext(s: string, c: char)
    requires HexDigits(s) && Unhex(c) != -1
    ensures HexDigits(s + [c]) && Hex(s + [c]) == 16 * Hex(s) + Unhex(c)
  {
    hide Unhex;
    assert (s + [c])[..|s|] == s;
  }

  /** The size of a chunk is the number that its digits write in base 16. */
  lemma {:induction false} HexWritten(n: nat, capitals: bool)
    ensures HexDigits(WrittenHex(n, capitals)) && Hex(WrittenHex(n, capitals)) == n
  {
    HexDigit(n % 16);
    hide Unhex, Hex, HexDigits, DIGITS, CAPITALS;
    var c := if capitals then CAPITALS[n % 16] else DIGITS[n % 16];
    if n < 16 {
      NoHex();
      HexNext("", c);
      assert "" + [c] == [c];
    } else {
      HexWritten(n / 16, capitals);
      HexNext(WrittenHex(n / 16, capitals), c);
    }
  }

  lemma NoHex()
    ensures HexDigits("") && Hex("") == 0
  {
  }

  // ---------------------------------------------------------------- an example

  /** Two requests on one connection. */
  lemma TwoRequests()
    ensures var request := "GET / HTTP/1.1\r\n\r\n";
            var events := [Told(MESSAGE_BEGIN)] + Bytes(URL, "/") + [Told(HEADERS_COMPLETE), Told(MESSAGE_COMPLETE)];
            && Run(Init(REQUEST), request + request).Running?
            && Run(Init(REQUEST), request + request).events == events + events
  {
    var request := "GET / HTTP/1.1\r\n\r\n";
    BareGet();
    hide Run, Bytes, BareRequest;
    var p := Init(REQUEST);
    BareRequests(p, GET, "/", "1", "1");
    var q := Run(p, request).p;
    BareRequests(q, GET, "/", "1", "1");
    RunMore(p, request, request, q, Run(p, request).events, Run(q, request).p, Run(q, request).events);
  }

  lemma BareGet()
    ensures BareRequest(GET, "/", "1", "1") == "GET / HTTP/1.1\r\n\r\n"
    ensures UrlText(GET, "/") && VersionText(REQUEST, MAJOR, "1") && VersionText(REQUEST, MINOR, "1")
    ensures ValueOf("1") == 1
  {
    assert "/"[..0] == "" && "/"[..1] == "/" && "1"[..0] == "";
    assert UrlState(REQ_SPACES, "") == REQ_SPACES;
    assert UrlState(REQ_SPACES, "/") == REQ_PATH;
  }
}
