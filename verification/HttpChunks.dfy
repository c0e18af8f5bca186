/** Chunked messages from the other side: whatever the parser accepts as a chunked body, up to the byte that completes
    the message, is a sequence of chunks, a last chunk and a trailer, so what is proved of these holds of every
    chunked message. */
module HttpChunks {
  import opened Common
  import opened HttpParser
  import opened HttpRun
  import opened HttpSafety
  import opened HttpFraming

  /** How far a chunked body has been read: whole chunks, then the size line and the data or trailer that follow. */
  datatype Spot = Spot(cs: seq<Piece>, ds: string, ext: string, rest: string)

  predicate Chunks(cs: seq<Piece>)
  {
    forall k :: 0 <= k < |cs| ==> GoodPiece(cs[k])
  }

  function Before(s: Spot): string
  {
    EncodeAll(s.cs) + s.ds + s.ext
  }

  /** The size line, with the length it sets. */
  predicate Line(s: Spot, n: nat)
  {
    HexDigits(s.ds) && Size(s.ds) == Some(n) && Extension(s.ext)
  }

  /** Between chunks only the state, the length and the count of header bytes change. */
  predicate Same(p: Parser, q: Parser)
  {
    q == p.(state := q.state, nread := q.nread, length := q.length)
  }

  predicate AtSize(x: string, q: Parser, s: Spot)
  {
    && Chunks(s.cs) && s.rest == ""
    && match q.state
       case CHUNK_SIZE_START => s.ds == "" && s.ext == "" && q.nread == 0 && x == EncodeAll(s.cs)
       case CHUNK_SIZE => Line(s, q.length) && s.ext == "" && q.nread == |s.ds| && x == Before(s)
       case CHUNK_PARAMETERS => Line(s, q.length) && s.ext != "" && q.nread == |s.ds| + |s.ext| && x == Before(s)
       case CHUNK_SIZE_ALMOST_DONE => Line(s, q.length) && q.nread == |s.ds| + |s.ext| + 1 && x == Before(s) + [CR]
       case _ => false
  }

  predicate AtData(x: string, q: Parser, s: Spot)
  {
    && Chunks(s.cs) && Line(s, |s.rest| + q.length) && |s.ds| + |s.ext| + 2 <= MAX_HEADER_SIZE
    && match q.state
       case CHUNK_DATA => 0 < q.length && x == Before(s) + [CR, LF] + s.rest
       case CHUNK_DATA_ALMOST_DONE => q.length == 0 < |s.rest| && x == Before(s) + [CR, LF] + s.rest
       case CHUNK_DATA_DONE => q.length == 0 < |s.rest| && x == Before(s) + [CR, LF] + s.rest + [CR]
       case _ => false
  }

  /** Header states all the way. */
  ghost predicate InTrailerOf(p: Parser, t: string)
  {
    forall i :: 0 <= i <= |t| ==> Run(p, t[..i]).Running? && InHeader(Run(p, t[..i]).p.state)
  }

  ghost predicate AtTail(p: Parser, x: string, q: Parser, s: Spot)
  {
    && Chunks(s.cs) && Line(s, 0) && |s.ds| + |s.ext| + 2 <= MAX_HEADER_SIZE && x == Before(s) + [CR, LF] + s.rest
    && InTrailerOf(AtTrailer(p), s.rest) && Run(AtTrailer(p), s.rest).Running? && Run(AtTrailer(p), s.rest).p == q
  }

  ghost predicate At(p: Parser, x: string, q: Parser, s: Spot)
  {
    (p.flags.chunked && Same(p, q) && (AtSize(x, q, s) || AtData(x, q, s))) || AtTail(p, x, q, s)
  }

  // ---------------------------------------------------------------- steps

  /** What a byte of a chunk does, if it is accepted. */
  lemma ChunkStep(q: Parser, c: char)
    requires InChunk(q.state) && Step(q, c).Next?
    ensures ParsingHeader(q.state) ==> q.nread < MAX_HEADER_SIZE && Step(q, c) == Chunk(q.(nread := q.nread + 1), c)
    ensures !ParsingHeader(q.state) ==> Step(q, c) == Chunk(q, c)
  {
    hide EitherLine, ResponseLine, RequestLine, Header, Chunk;
  }

  lemma SizeMore(ds: string, c: char, n: nat)
    requires HexDigits(ds) && Size(ds) == Some(n) && Unhex(c) != -1
    ensures HexDigits(ds + [c]) && Unhex(c) >= 0 && Size(ds + [c]) == Accumulate(n, 16, Unhex(c))
  {
    hide Unhex, Accumulate;
    UnhexRange(c);
    assert (ds + [c])[..|ds|] == ds;
  }

  lemma SizeFirst(c: char)
    requires Unhex(c) != -1
    ensures HexDigits([c]) && Unhex(c) >= 0 && Size([c]) == Some(Unhex(c))
  {
    hide Unhex;
    UnhexRange(c);
  }

  /** A byte of a size line. */
  lemma SizeByte(p: Parser, x: string, q: Parser, s: Spot, c: char) returns (s': Spot)
    requires p.flags.chunked && Same(p, q) && AtSize(x, q, s) && !q.state.CHUNK_SIZE_ALMOST_DONE? && Step(q, c).Next?
    ensures var q' := Step(q, c).p; Same(p, q') && AtSize(x + [c], q', s')
  {
    hide Step, Unhex, Accumulate, Chunks, Size, EncodeAll, HexDigits;
    ChunkStep(q, c);
    s' := s;
    if q.state.CHUNK_SIZE_START? {
      SizeFirst(c);
      s' := s.(ds := [c]);
    } else if c == CR {
      // the line goes on with its line feed
    } else if q.state.CHUNK_PARAMETERS? || Unhex(c) == -1 {
      s' := s.(ext := s.ext + [c]);
    } else {
      SizeMore(s.ds, c, q.length);
      s' := s.(ds := s.ds + [c]);
    }
  }

  lemma RunNone(p: Parser)
    ensures Run(p, "") == Running(p, []) && InTrailerOf(AtTrailer(p), "")
  {
    assert ""[..0] == "";
  }

  /** The line feed of a size line: data follow, or the trailer. */
  lemma SizeFeed(p: Parser, x: string, q: Parser, s: Spot, c: char)
    requires p.flags.chunked && Same(p, q) && AtSize(x, q, s) && q.state.CHUNK_SIZE_ALMOST_DONE? && Step(q, c).Next?
    ensures At(p, x + [c], Step(q, c).p, s)
  {
    hide Step, Run, Unhex, Accumulate, Chunks, Size, EncodeAll, HexDigits, Extension, InTrailerOf;
    ChunkStep(q, c);
    var b := Before(s);
    hide Before;
    assert b + [CR] + [LF] == b + [CR, LF] + "";
    RunNone(p);
    RunNone(AtTrailer(p));
  }

  lemma AnotherChunk(cs: seq<Piece>, c: Piece)
    ensures EncodeAll(cs + [c]) == EncodeAll(cs) + Encode(c)
  {
    assert (cs + [c])[..|cs|] == cs;
  }

  /** A byte of the data. */
  lemma DataByte(p: Parser, x: string, q: Parser, s: Spot, c: char) returns (s': Spot)
    requires p.flags.chunked && Same(p, q) && AtData(x, q, s) && !q.state.CHUNK_DATA_DONE? && Step(q, c).Next?
    ensures var q' := Step(q, c).p; Same(p, q') && AtData(x + [c], q', s')
  {
    hide Step, Unhex, Accumulate, Size, EncodeAll, HexDigits, Extension, Chunks;
    ChunkStep(q, c);
    s' := if q.state.CHUNK_DATA? then s.(rest := s.rest + [c]) else s;
  }

  /** The line feed after the data completes a chunk. */
  lemma DataFeed(p: Parser, x: string, q: Parser, s: Spot, c: char) returns (s': Spot)
    requires p.flags.chunked && Same(p, q) && AtData(x, q, s) && q.state.CHUNK_DATA_DONE? && Step(q, c).Next?
    ensures var q' := Step(q, c).p; Same(p, q') && AtSize(x + [c], q', s')
  {
    hide Step, Unhex, Accumulate, Size, EncodeAll, HexDigits, Extension;
    ChunkStep(q, c);
    var piece := Piece(s.ds, s.ext, s.rest);
    AnotherChunk(s.cs, piece);
    s' := Spot(s.cs + [piece], "", "", "");
    assert Before(s) + [CR, LF] + s.rest + [CR] + [LF] == EncodeAll(s.cs) + Encode(piece);
  }

  lemma InTrailerMore(p: Parser, t: string, c: char)
    requires InTrailerOf(p, t) && Run(p, t + [c]).Running? && InHeader(Run(p, t + [c]).p.state)
    ensures InTrailerOf(p, t + [c])
  {
    hide Run, InHeader;
    forall i | 0 <= i <= |t| + 1 ensures Run(p, (t + [c])[..i]).Running? && InHeader(Run(p, (t + [c])[..i]).p.state) {
      if i <= |t| { assert (t + [c])[..i] == t[..i]; } else { assert (t + [c])[..i] == t + [c]; }
    }
  }

  lemma TailRun(p: Parser, t: string, q: Parser, c: char)
    requires Run(p, t).Running? && Run(p, t).p == q && Step(q, c).Next?
    ensures Run(p, t + [c]).Running? && Run(p, t + [c]).p == Step(q, c).p
  {
    hide Run, Step;
    RunOne(p, t, c);
  }

  /** A byte of the trailer. */
  lemma TailByte(p: Parser, x: string, q: Parser, s: Spot, c: char) returns (s': Spot)
    requires AtTail(p, x, q, s) && Step(q, c).Next? && InHeader(Step(q, c).p.state)
    ensures AtTail(p, x + [c], Step(q, c).p, s')
  {
    hide Step, Run, InTrailerOf, Chunks, InHeader, AtTrailer, Size, HexDigits, Extension, EncodeAll;
    TailRun(AtTrailer(p), s.rest, q, c);
    InTrailerMore(AtTrailer(p), s.rest, c);
    s' := s.(rest := s.rest + [c]);
  }

  // ---------------------------------------------------------------- runs

  /** The message goes on. */
  predicate InMessage(q: Parser)
  {
    InChunk(q.state) || InHeader(q.state)
  }

  lemma TailNotChunk(p: Parser, x: string, q: Parser, s: Spot)
    requires AtTail(p, x, q, s)
    ensures InTrailer(q)
  {
    hide Run, InHeader, InTrailer;
    assert InTrailer(AtTrailer(p)) by { TrailerBegins(p); }
    TrailerData(AtTrailer(p), s.rest);
  }

  lemma TrailerBegins(p: Parser)
    ensures InTrailer(AtTrailer(p))
  {
  }

  /** One more byte. */
  lemma NextSpot(p: Parser, x: string, q: Parser, s: Spot, c: char) returns (s': Spot)
    requires At(p, x, q, s) && Step(q, c).Next? && InMessage(Step(q, c).p)
    ensures At(p, x + [c], Step(q, c).p, s')
  {
    hide Step, AtSize, AtData, AtTail, Same, InChunk, InHeader;
    if AtTail(p, x, q, s) {
      StaysOut(p, x, q, s, c);
      s' := TailByte(p, x, q, s, c);
    } else if AtData(x, q, s) {
      if q.state.CHUNK_DATA_DONE? { s' := DataFeed(p, x, q, s, c); } else { s' := DataByte(p, x, q, s, c); }
    } else if q.state.CHUNK_SIZE_ALMOST_DONE? {
      SizeFeed(p, x, q, s, c);
      s' := s;
    } else {
      s' := SizeByte(p, x, q, s, c);
    }
  }

  /** From the trailer the message does not go back to chunks. */
  lemma StaysOut(p: Parser, x: string, q: Parser, s: Spot, c: char)
    requires AtTail(p, x, q, s) && Step(q, c).Next? && InMessage(Step(q, c).p)
    ensures InHeader(Step(q, c).p.state)
  {
    hide Step, AtTail;
    TailNotChunk(p, x, q, s);
    TrailerStep(q, c);
  }

  ghost predicate Unfinished(p: Parser, x: string)
  {
    forall i :: 0 <= i <= |x| ==> Run(p, x[..i]).Running? && InMessage(Run(p, x[..i]).p)
  }

  /** The parser at the first byte of a chunked body. */
  predicate AtFirst(p: Parser)
  {
    p.state.CHUNK_SIZE_START? && p.flags.chunked && p.nread == 0
  }

  lemma FirstSpot(p: Parser)
    requires AtFirst(p)
    ensures At(p, "", p, Spot([], "", "", ""))
  {
  }

  /** A run that goes on with byte c came from one that was going on. */
  lemma RunStep(p: Parser, y: string, c: char) returns (q: Parser)
    requires Run(p, y + [c]).Running?
    ensures Run(p, y).Running? && Run(p, y).p == q && Step(q, c).Next? && Run(p, y + [c]).p == Step(q, c).p
  {
    hide Step;
    assert (y + [c])[..|y|] == y;
    q := Run(p, y).p;
  }

  /** As long as the message goes on, the parser knows where in the grammar it is. */
  lemma {:induction false} SpotOf(p: Parser, x: string) returns (s: Spot)
    requires AtFirst(p) && Unfinished(p, x)
    ensures Run(p, x).Running? && At(p, x, Run(p, x).p, s)
    decreases |x|
  {
    hide Run, Step, At, InMessage;
    assert x[..|x|] == x;
    if |x| == 0 {
      FirstSpot(p);
      RunEmpty(p, x);
      s := Spot([], "", "", "");
    } else {
      var n := |x| - 1;
      forall i | 0 <= i <= n ensures Run(p, x[..n][..i]).Running? && InMessage(Run(p, x[..n][..i]).p) {
        assert x[..n][..i] == x[..i];
      }
      s := SpotOf(p, x[..n]);
      assert x[..n] + [x[n]] == x;
      var q := RunStep(p, x[..n], x[n]);
      s := NextSpot(p, x[..n], q, s, x[n]);
    }
  }

  /** A chunked body as the parser sees it: it ends at the byte that takes the parser out of the message. */
  ghost predicate Accepted(p: Parser, x: string)
  {
    && |x| > 0 && Run(p, x).Running? && !InMessage(Run(p, x).p)
    && forall i :: 0 <= i < |x| ==> Run(p, x[..i]).Running? && InMessage(Run(p, x[..i]).p)
  }

  /** The last byte comes in the trailer. */
  lemma EndsInTail(p: Parser, x: string, q: Parser, s: Spot, c: char)
    requires At(p, x, q, s) && Step(q, c).Next? && !InMessage(Step(q, c).p)
    ensures AtTail(p, x, q, s)
  {
    hide Step, Same, Chunks, Line, Before, AtTail, EncodeAll, Unhex, Accumulate;
    if !AtTail(p, x, q, s) {
      ChunkStep(q, c);
    }
  }

  lemma TrailerDone(p: Parser, t: string, c: char)
    requires InTrailerOf(p, t) && Run(p, t + [c]).Running? && !InHeader(Run(p, t + [c]).p.state)
    ensures Trailer(p, t + [c])
  {
    hide Run, InHeader;
    forall i | 0 <= i < |t| + 1 ensures Run(p, (t + [c])[..i]).Running? && InHeader(Run(p, (t + [c])[..i]).p.state) {
      assert (t + [c])[..i] == t[..i];
    }
  }

  /** Every chunked body that is accepted is made of chunks, a last chunk and a trailer. */
  lemma AcceptedIs(p: Parser, x: string) returns (cs: seq<Piece>, l: Last)
    requires AtFirst(p) && Accepted(p, x)
    ensures Chunks(cs) && GoodLast(p, l) && x == EncodeAll(cs) + EncodeLast(l)
  {
    hide Run, Step, At, AtTail, InHeader, InChunk, HexDigits, Size, Extension, EncodeAll, AtTrailer, Chunks,
      InTrailerOf, Trailer;
    var n := |x| - 1;
    forall i | 0 <= i <= n ensures Run(p, x[..n][..i]).Running? && InMessage(Run(p, x[..n][..i]).p) {
      assert x[..n][..i] == x[..i];
    }
    var s := SpotOf(p, x[..n]);
    assert x == x[..n] + [x[n]];
    var q := RunStep(p, x[..n], x[n]);
    EndsInTail(p, x[..n], q, s, x[n]);
    TailParts(p, x[..n], q, s);
    TailRun(AtTrailer(p), s.rest, q, x[n]);
    TrailerDone(AtTrailer(p), s.rest, x[n]);
    cs, l := s.cs, Last(s.ds, s.ext, s.rest + [x[n]]);
  }

  lemma TailParts(p: Parser, x: string, q: Parser, s: Spot)
    requires AtTail(p, x, q, s)
    ensures Chunks(s.cs) && Line(s, 0) && |s.ds| + |s.ext| + 2 <= MAX_HEADER_SIZE && x == Before(s) + [CR, LF] + s.rest
    ensures InTrailerOf(AtTrailer(p), s.rest) && Run(AtTrailer(p), s.rest).Running? && Run(AtTrailer(p), s.rest).p == q
  {
  }

  /** So every chunked body that is accepted delivers the payloads of its chunks, the trailer's fields and values, and
      the end of the message, and nothing else. */
  lemma AcceptedDelivers(p: Parser, x: string) returns (cs: seq<Piece>, l: Last)
    requires AtFirst(p) && Accepted(p, x)
    ensures Chunks(cs) && GoodLast(p, l) && x == EncodeAll(cs) + EncodeLast(l) && Run(p, x).Running?
    ensures Run(p, x).events == Bytes(BODY, Payloads(cs)) + Run(AtTrailer(p), l.trailer).events
    ensures EndsMessage(Run(AtTrailer(p), l.trailer).events)
  {
    cs, l := AcceptedIs(p, x);
    hide Run, Step, EncodeAll, EncodeLast, EndsMessage, Accepted, GoodLast, GoodPiece, Bytes, Payloads;
    ChunkedMessage(p, cs, l);
  }
}
