/** http_parser_execute: a buffer at a time, with marks for data under way and whole stretches of body taken
    at once. Its callbacks amount to the events of the byte-by-byte run. */
module HttpExecute {
  import opened Common
  import opened HttpParser
  import opened HttpRun
  import opened HttpSafety

  /** The four mark variables (absent for NULL) and the callbacks made. */
  datatype Log = Log(marks: map<Item, nat>, calls: seq<Callback>)

  function Slice(data: string, a: nat, b: nat): string
  {
    if a <= b <= |data| then data[a..b] else ""
  }

  /** MARK, CALLBACK_DATA and CALLBACK_NOTIFY at offset i. */
  function DoAct(l: Log, data: string, i: nat, a: Act): Log
  {
    match a
    case Mark(k) => if k in l.marks then l else l.(marks := l.marks[k := i])
    case Flush(k) =>
      if k in l.marks then Log(l.marks - {k}, l.calls + [Data(k, Slice(data, l.marks[k], i))]) else l
    case FlushWith(k) =>
      if k in l.marks then Log(l.marks - {k}, l.calls + [Data(k, Slice(data, l.marks[k], i + 1))]) else l
    case Notify(n) => l.(calls := l.calls + [Notified(n)])
  }

  function DoAll(l: Log, data: string, i: nat, acts: seq<Act>): Log
  {
    if |acts| == 0 then l else DoAct(DoAll(l, data, i, acts[..|acts| - 1]), data, i, acts[|acts| - 1])
  }

  /** A mark is set only for the item under way, and always for one except a body. */
  ghost predicate MarksOk(marks: map<Item, nat>, item: Option<Item>, i: nat)
  {
    && (forall k :: k in marks ==> item == Some(k) && marks[k] <= i)
    && (item.Some? && item.value != BODY ==> item.value in marks)
  }

  /** At most one mark is set. */
  lemma OneMark(marks: map<Item, nat>, item: Option<Item>, i: nat, j: Item, k: Item)
    requires MarksOk(marks, item, i) && j in marks && k in marks
    ensures j == k
  {
  }

  /** Data seen since the mark. */
  function Pending(marks: map<Item, nat>, item: Option<Item>, data: string, i: nat): seq<Event>
  {
    if item.Some? && item.value in marks then Bytes(item.value, Slice(data, marks[item.value], i)) else []
  }

  /** All events so far: of the callbacks made, and of data still to be reported. */
  function Seen(l: Log, item: Option<Item>, data: string, i: nat): seq<Event>
  {
    Flatten(l.calls) + Pending(l.marks, item, data, i)
  }

  // ---------------------------------------------------------------- one byte

  lemma PendingGrows(marks: map<Item, nat>, k: Item, data: string, i: nat)
    requires k in marks && marks[k] <= i < |data|
    ensures Pending(marks, Some(k), data, i + 1) == Pending(marks, Some(k), data, i) + [Byte(k, data[i])]
  {
    BytesSnoc(k, data[marks[k]..i], data[i]);
    assert data[marks[k]..i + 1] == data[marks[k]..i] + [data[i]];
  }

  lemma SeenNotice(l: Log, data: string, i: nat, acts: seq<Act>, after: Option<Item>)
    requires l.marks == map[] && Notices(acts)
    ensures DoAll(l, data, i, acts).marks == map[]
    ensures Flatten(DoAll(l, data, i, acts).calls) == Flatten(l.calls) + Notes(acts)
  {
    hide Flatten, DoAll, Notes;
    if |acts| == 0 {
      DoNone(l, data, i, acts);
    } else if |acts| == 1 {
      OneNotice(l, data, i, acts[0]);
      assert acts == [acts[0]];
    } else {
      var l1 := DoAct(l, data, i, acts[0]);
      OneNotice(l, data, i, acts[0]);
      OneNotice(l1, data, i, acts[1]);
      DoTwo(l, data, i, acts[0], acts[1]);
      DoOne(l, data, i, [acts[0]]);
      DoOne(l1, data, i, [acts[1]]);
      assert acts == [acts[0], acts[1]];
    }
  }

  lemma DoNone(l: Log, data: string, i: nat, acts: seq<Act>)
    requires acts == []
    ensures DoAll(l, data, i, acts) == l && Notes(acts) == []
  {
  }

  lemma OneNotice(l: Log, data: string, i: nat, a: Act)
    requires a.Notify?
    ensures DoAll(l, data, i, [a]).marks == l.marks
    ensures Flatten(DoAll(l, data, i, [a]).calls) == Flatten(l.calls) + Notes([a])
  {
    hide Flatten, DoAll, Notes;
    DoOne(l, data, i, [a]);
    FlattenSnoc(l.calls, Notified(a.n));
  }

  lemma DoOne(l: Log, data: string, i: nat, acts: seq<Act>)
    requires |acts| == 1
    ensures DoAll(l, data, i, acts) == DoAct(l, data, i, acts[0])
    ensures Notes(acts) == if acts[0].Notify? then [Told(acts[0].n)] else []
  {
    hide DoAct;
    assert acts[..0] == [];
  }

  /** A byte's acts turn its events into callbacks and pending data. */
  ghost predicate Kept(l: Log, before: Option<Item>, acts: seq<Act>, own: Option<Item>, after: Option<Item>,
                       data: string, i: nat)
    requires i < |data|
  {
    var l' := DoAll(l, data, i, acts);
    MarksOk(l'.marks, after, i + 1)
      && Seen(l', after, data, i + 1) == Seen(l, before, data, i) + Events(acts, own, data[i])
  }

  lemma NoMarks(marks: map<Item, nat>, i: nat)
    requires MarksOk(marks, None, i)
    ensures marks == map[]
  {
  }

  lemma NoticeKept(l: Log, acts: seq<Act>, after: Option<Item>, data: string, i: nat)
    requires i < |data| && MarksOk(l.marks, None, i) && Notices(acts) && (after == None || after == Some(BODY))
    ensures Kept(l, None, acts, None, after, data, i)
  {
    hide Flatten, DoAll, Notes;
    NoMarks(l.marks, i);
    SeenNotice(l, data, i, acts, after);
  }

  lemma ContinueKept(l: Log, k: Item, data: string, i: nat)
    requires i < |data| && MarksOk(l.marks, Some(k), i) && k != BODY
    ensures Kept(l, Some(k), [], Some(k), Some(k), data, i)
  {
    hide Flatten, Bytes, Pending;
    PendingGrows(l.marks, k, data, i);
  }

  lemma BeginKept(l: Log, before: Option<Item>, k: Item, data: string, i: nat)
    requires i < |data| && MarksOk(l.marks, before, i) && (before == None || before == Some(k))
    ensures Kept(l, before, [Mark(k)], Some(k), Some(k), data, i)
  {
    hide Flatten, Bytes, Notes, DoAll;
    DoOne(l, data, i, [Mark(k)]);
    var m := if k in l.marks then l.marks else l.marks[k := i];
    assert data[i..i] == "";
    assert Bytes(k, "") == [] by { NoBytes(k); }
    PendingGrows(m, k, data, i);
  }

  lemma NoBytes(k: Item)
    ensures Bytes(k, "") == []
  {
  }

  lemma EndKept(l: Log, k: Item, data: string, i: nat)
    requires i < |data| && MarksOk(l.marks, Some(k), i)
    ensures Kept(l, Some(k), [Flush(k)], None, None, data, i)
  {
    hide Flatten, Bytes, Notes, DoAll;
    DoOne(l, data, i, [Flush(k)]);
    if k in l.marks { FlattenSnoc(l.calls, Data(k, Slice(data, l.marks[k], i))); }
  }

  lemma DoTwo(l: Log, data: string, i: nat, a: Act, b: Act)
    ensures DoAll(l, data, i, [a, b]) == DoAct(DoAct(l, data, i, a), data, i, b)
    ensures Notes([a, b]) == Notes([a]) + Notes([b])
  {
    hide DoAct;
    assert [a, b][..1] == [a];
    DoOne(l, data, i, [a]);
    DoOne(l, data, i, [b]);
  }

  lemma EmptyKept(l: Log, k: Item, data: string, i: nat)
    requires i < |data| && MarksOk(l.marks, None, i)
    ensures Kept(l, None, [Mark(k), Flush(k)], None, None, data, i)
  {
    hide Flatten, Bytes, Notes, DoAll;
    NoMarks(l.marks, i);
    DoTwo(l, data, i, Mark(k), Flush(k));
    DoOne(l, data, i, [Mark(k)]);
    DoOne(l, data, i, [Flush(k)]);
    NoBytes(k);
    assert data[i..i] == "";
    FlattenSnoc(l.calls, Data(k, ""));
  }

  lemma DoThree(l: Log, data: string, i: nat, a: Act, b: Act, c: Act)
    ensures DoAll(l, data, i, [a, b, c]) == DoAct(DoAll(l, data, i, [a, b]), data, i, c)
    ensures Notes([a, b, c]) == Notes([a, b]) + Notes([c])
  {
    hide DoAct;
    assert [a, b, c][..2] == [a, b];
    DoOne(l, data, i, [c]);
  }

  /** What is left after the last byte of a body. */
  lemma LastLog(l: Log, m: map<Item, nat>, data: string, i: nat, n: Note)
    requires i < |data| && MarksOk(l.marks, Some(BODY), i)
    requires m == if BODY in l.marks then l.marks else l.marks[BODY := i]
    ensures BODY in m && m[BODY] <= i
    ensures DoAll(l, data, i, [Mark(BODY), FlushWith(BODY), Notify(n)]) ==
              Log(map[], l.calls + [Data(BODY, Slice(data, m[BODY], i + 1))] + [Notified(n)])
    ensures Notes([Mark(BODY), FlushWith(BODY), Notify(n)]) == [Told(n)]
  {
    hide Notes, DoAll, Slice;
    DoThree(l, data, i, Mark(BODY), FlushWith(BODY), Notify(n));
    DoTwo(l, data, i, Mark(BODY), FlushWith(BODY));
    DoOne(l, data, i, [Mark(BODY)]);
    DoOne(l, data, i, [FlushWith(BODY)]);
    DoOne(l, data, i, [Notify(n)]);
    assert m - {BODY} == map[];
  }

  lemma LastKept(l: Log, data: string, i: nat, n: Note)
    requires i < |data| && MarksOk(l.marks, Some(BODY), i)
    ensures Kept(l, Some(BODY), [Mark(BODY), FlushWith(BODY), Notify(n)], Some(BODY), None, data, i)
  {
    hide Flatten, Bytes, Notes, DoAll, Pending, Slice;
    var m := if BODY in l.marks then l.marks else l.marks[BODY := i];
    LastLog(l, m, data, i, n);
    PendingFrom(l.marks, m, data, i);
    PendingGrows(m, BODY, data, i);
    var bs := Slice(data, m[BODY], i + 1);
    FlattenSnoc(l.calls, Data(BODY, bs));
    FlattenSnoc(l.calls + [Data(BODY, bs)], Notified(n));
    PendingIs(m, BODY, data, i + 1);
    PendingIs(map[], BODY, data, i + 1);
  }

  lemma PendingFrom(marks: map<Item, nat>, m: map<Item, nat>, data: string, i: nat)
    requires i < |data| && m == if BODY in marks then marks else marks[BODY := i]
    ensures Pending(m, Some(BODY), data, i) == Pending(marks, Some(BODY), data, i)
  {
    NoBytes(BODY);
    assert data[i..i] == "";
  }

  lemma PendingIs(marks: map<Item, nat>, k: Item, data: string, i: nat)
    ensures k in marks ==> Pending(marks, Some(k), data, i) == Bytes(k, Slice(data, marks[k], i))
    ensures Pending(marks, None, data, i) == []
  {
  }

  /** Whatever the shape of a step, its acts account for its events. */
  lemma ShapeKept(l: Log, before: Option<Item>, acts: seq<Act>, own: Option<Item>, after: Option<Item>, data: string,
                  i: nat)
    requires i < |data| && MarksOk(l.marks, before, i) && Shape(before, acts, own, after)
    ensures Kept(l, before, acts, own, after, data, i)
  {
    hide Kept, Notices, MarksOk;
    if Notices(acts) && own == None && before == None && (after == None || after == Some(BODY)) {
      NoticeKept(l, acts, after, data, i);
    } else if acts == [] {
      ContinueKept(l, own.value, data, i);
    } else if |acts| == 1 && own.Some? {
      BeginKept(l, before, own.value, data, i);
    } else if |acts| == 1 {
      EndKept(l, before.value, data, i);
    } else if |acts| == 2 {
      assert acts == [Mark(acts[0].i), Flush(acts[0].i)];
      EmptyKept(l, acts[0].i, data, i);
    } else {
      LastKept(l, data, i, MESSAGE_COMPLETE);
    }
  }

  // ---------------------------------------------------------------- stretches of body

  /** The bytes of a body that are not its last. */
  lemma BodyStep(p: Parser, c: char)
    requires Inv(p)
    ensures (p.state.BODY_IDENTITY? || p.state.CHUNK_DATA?) && p.length >= 2 ==>
              Step(p, c) == Next(p.(length := p.length - 1), [Mark(BODY)], Some(BODY))
    ensures p.state.BODY_IDENTITY_EOF? ==> Step(p, c) == Next(p, [Mark(BODY)], Some(BODY))
  {
    hide EitherLine, ResponseLine, Header, RequestLine;
  }

  /** The parser after k bytes of body. */
  function Consumed(p: Parser, k: nat): Parser
    requires p.state.BODY_IDENTITY_EOF? || k <= p.length
  {
    if p.state.BODY_IDENTITY_EOF? then p else p.(length := p.length - k)
  }

  predicate InBody(s: State)
  {
    s.BODY_IDENTITY? || s.CHUNK_DATA? || s.BODY_IDENTITY_EOF?
  }

  lemma {:induction false} BodyRun(p0: Parser, data: string, i: nat, p: Parser, events: seq<Event>, k: nat)
    requires i + k <= |data| && Run(p0, data[..i]) == Running(p, events) && Inv(p) && InBody(p.state)
    requires p.state.BODY_IDENTITY_EOF? || k < p.length
    ensures Run(p0, data[..i + k]) == Running(Consumed(p, k), events + Bytes(BODY, data[i..i + k]))
    ensures Inv(Consumed(p, k))
    decreases k
  {
    hide *;
    if k == 0 {
      assert data[i..i] == "" && events + [] == events;
      NoBytes(BODY);
      ConsumedNone(p);
    } else {
      BodyRun(p0, data, i, p, events, k - 1);
      var c := data[i + k - 1];
      ConsumedNext(p, k, c);
      RunNext(p0, data, i + k - 1);
      AdvanceBody(Consumed(p, k - 1), Consumed(p, k), events + Bytes(BODY, data[i..i + k - 1]), c, i + k - 1);
      assert data[i..i + k] == data[i..i + k - 1] + [c];
      BytesSnoc(BODY, data[i..i + k - 1], c);
      Regroup(events, Bytes(BODY, data[i..i + k - 1]), [Byte(BODY, c)]);
    }
  }

  lemma ConsumedNone(p: Parser)
    ensures Consumed(p, 0) == p
  {
  }

  lemma ConsumedNext(p: Parser, k: nat, c: char)
    requires 0 < k && InBody(p.state) && (p.state.BODY_IDENTITY_EOF? || k < p.length) && Inv(Consumed(p, k - 1))
    ensures Step(Consumed(p, k - 1), c) == Next(Consumed(p, k), [Mark(BODY)], Some(BODY)) && Inv(Consumed(p, k))
  {
    hide Step;
    BodyStep(Consumed(p, k - 1), c);
  }

  lemma AdvanceBody(q: Parser, q': Parser, events: seq<Event>, c: char, n: nat)
    requires Step(q, c) == Next(q', [Mark(BODY)], Some(BODY))
    ensures Advance(Running(q, events), c, n) == Running(q', events + [Byte(BODY, c)])
  {
    hide Step, Events;
    MarkEvents(c);
  }

  lemma MarkEvents(c: char)
    ensures Events([Mark(BODY)], Some(BODY), c) == [Byte(BODY, c)]
  {
    assert [Mark(BODY)][..0] == [];
  }

  // ---------------------------------------------------------------- a buffer

  /** The loop has processed i bytes of the buffer: fields and events are those of the run. */
  ghost predicate Processed(p0: Parser, seen: seq<Event>, data: string, i: nat, p: Parser, l: Log)
  {
    && i <= |data| && Run(p0, data[..i]).Running? && Run(p0, data[..i]).p == p && Inv(p)
    && MarksOk(l.marks, ItemOf(p.state), i)
    && Seen(l, ItemOf(p.state), data, i) == seen + Run(p0, data[..i]).events
  }

  /** The marks that a call begins with. */
  function EntryMarks(s: State): map<Item, nat>
  {
    if s.FIELD? then map[HEADER_FIELD := 0]
    else if s.VALUE? then map[HEADER_VALUE := 0]
    else if InUrl(s) then map[URL := 0]
    else map[]
  }

  lemma Begin(p: Parser, calls: seq<Callback>, data: string)
    requires Inv(p)
    ensures Processed(p, Flatten(calls), data, 0, p, Log(EntryMarks(p.state), calls))
  {
    hide Flatten;
    assert data[..0] == "" && Slice(data, 0, 0) == "";
    RunEmpty(p, data[..0]);
    NoBytes(URL);
    NoBytes(HEADER_FIELD);
    NoBytes(HEADER_VALUE);
  }

  /** One byte. */
  lemma OneMore(p0: Parser, seen: seq<Event>, data: string, i: nat, p: Parser, l: Log)
    requires Processed(p0, seen, data, i, p, l) && i < |data|
    ensures Good(ItemOf(p.state), Step(p, data[i]))
    ensures match Step(p, data[i])
            case Next(q, acts, own) => Processed(p0, seen, data, i + 1, q, DoAll(l, data, i, acts))
            case Leave(q, acts) =>
              && Run(p0, data[..i + 1]).Left? && Run(p0, data[..i + 1]).p == q && Run(p0, data[..i + 1]).at == i
                && Inv(q)
              && Flatten(DoAll(l, data, i, acts).calls) == seen + Run(p0, data[..i + 1]).events
            case Fail(e) => Run(p0, data[..i + 1]) == Failed(e, i)
            case Abort => false
  {
    hide Step, Run, Flatten, Bytes, DoAll, Events, Notes, Pending, Inv, Shape, MarksOk, Notices;
    StepGood(p, data[i]);
    RunNext(p0, data, i);
    match Step(p, data[i])
    case Next(q, acts, own) =>
      ShapeKept(l, ItemOf(p.state), acts, own, ItemOf(q.state), data, i);
    case Leave(q, acts) =>
      NoMarks(l.marks, i);
      SeenNotice(l, data, i, acts, None);
      PendingIs(l.marks, BODY, data, i);
      assert Flatten(l.calls) + [] == seen + Run(p0, data[..i]).events;
      Regroup(seen, Run(p0, data[..i]).events, Notes(acts));
    case Fail(e) =>
  }

  lemma Regroup(a: seq<Event>, b: seq<Event>, c: seq<Event>)
    ensures (a + b) + c == a + (b + c)
  {
  }

  /** A stretch of body. */
  lemma Stretch(p0: Parser, seen: seq<Event>, data: string, i: nat, p: Parser, l: Log, k: nat)
    requires Processed(p0, seen, data, i, p, l) && i + k < |data| && InBody(p.state)
    requires p.state.BODY_IDENTITY_EOF? || k < p.length
    ensures Processed(p0, seen, data, i + k, Consumed(p, k), DoAct(l, data, i, Mark(BODY)))
  {
    hide Step, Run, Flatten, Bytes, Inv;
    BodyRun(p0, data, i, p, Run(p0, data[..i]).events, k);
    var m := if BODY in l.marks then l.marks else l.marks[BODY := i];
    PendingFrom(l.marks, m, data, i);
    BytesAppend(BODY, data[m[BODY]..i], data[i..i + k]);
    assert data[m[BODY]..i + k] == data[m[BODY]..i] + data[i..i + k];
    var more := Bytes(BODY, data[i..i + k]);
    Regroup(Flatten(l.calls), Bytes(BODY, data[m[BODY]..i]), more);
    Regroup(seen, Run(p0, data[..i]).events, more);
    assert Seen(l, Some(BODY), data, i) == Flatten(l.calls) + Bytes(BODY, data[m[BODY]..i]);
    assert Seen(DoAct(l, data, i, Mark(BODY)), Some(BODY), data, i + k) == Seen(l, Some(BODY), data, i) + more;
  }

  /** The callbacks for marks that are left over. */
  function FlushAll(l: Log, data: string): Log
  {
    var n := |data|;
    DoAct(DoAct(DoAct(DoAct(l, data, n, Flush(HEADER_FIELD)), data, n, Flush(HEADER_VALUE)), data, n, Flush(URL)),
          data, n, Flush(BODY))
  }

  lemma Finish(p0: Parser, seen: seq<Event>, data: string, p: Parser, l: Log)
    requires Processed(p0, seen, data, |data|, p, l)
    ensures Run(p0, data).Running? && Run(p0, data).p == p
    ensures Flatten(FlushAll(l, data).calls) == seen + Run(p0, data).events
  {
    hide Run, Flatten, Bytes, Inv;
    assert data[..|data|] == data;
    if l.marks != map[] {
      var k :| k in l.marks;
      FlattenSnoc(l.calls, Data(k, Slice(data, l.marks[k], |data|)));
    }
  }

  // ---------------------------------------------------------------- the connection

  /** A parser with the callbacks made so far and its error, if any. */
  class Connection {
    var parser: Parser
    var calls: seq<Callback>
    var errno: Option<Errno>

    ghost predicate Valid()
      reads this
    {
      Inv(parser)
    }

    constructor (t: Type)
      ensures Valid() && parser == Init(t) && calls == [] && errno == None
    {
      parser, calls, errno := Init(t), [], None;
      new;
      InitSafe(t);
    }

    /** A call without data: the end of the stream. */
    method AtEnd() returns (n: nat)
      requires Valid() && errno == None
      modifies this
      ensures Valid() && parser == old(parser)
      ensures old(parser.state).BODY_IDENTITY_EOF? ==>
                n == 0 && errno == None && calls == old(calls) + [Notified(MESSAGE_COMPLETE)]
      ensures old(parser.state) in {DEAD, START_REQ_OR_RES, START_RES, START_REQ} ==>
                n == 0 && errno == None && calls == old(calls)
      ensures old(parser.state) !in {BODY_IDENTITY_EOF, DEAD, START_REQ_OR_RES, START_RES, START_REQ} ==>
                n == 1 && errno == Some(INVALID_EOF_STATE) && calls == old(calls)
    {
      n := 0;
      match parser.state
      case BODY_IDENTITY_EOF => calls := calls + [Notified(MESSAGE_COMPLETE)];
      case DEAD =>
      case START_REQ_OR_RES =>
      case START_RES =>
      case START_REQ =>
      case _ =>
        errno := Some(INVALID_EOF_STATE);
        n := 1;
    }

    /** http_parser_execute on a buffer. Fields, number of bytes taken and error are those of the
        byte-by-byte run; so are the events of the callbacks, unless an error cuts off data under way. */
    method Execute(data: string) returns (n: nat)
      requires Valid() && |data| > 0
      modifies this
      ensures Valid()
      ensures old(errno).Some? ==> n == 0 && errno == old(errno) && parser == old(parser) && calls == old(calls)
      ensures old(errno).None? ==> Matches(Run(old(parser), data), |data|, Flatten(old(calls)), n, parser, calls, errno)
    {
      hide Step, Run, Flatten, Inv, Processed, DoAll, DoAct, FlushAll, EntryMarks, Matches;
      n := 0;
      if errno.Some? { return; }
      ghost var p0, seen := parser, Flatten(calls);
      var p, l, e, going := parser, Log(EntryMarks(parser.state), calls), None, true;
      Begin(parser, calls, data);
      while going && n < |data|
        invariant n <= |data| && (going ==> Processed(p0, seen, data, n, p, l) && e == None)
        invariant !going ==> Inv(p) && Matches(Run(p0, data), |data|, seen, n, p, l.calls, e)
        decreases going, |data| - n
      {
        going, n, p, l, e := Proceed(data, n, p, l, p0, seen);
      }
      if going {
        ProcessedInv(p0, seen, data, n, p, l);
        Finish(p0, seen, data, p, l);
        l := FlushAll(l, data);
        MatchesEnd(p0, seen, data, p, l.calls);
      }
      parser, calls, errno := p, l.calls, e;
    }
  }

  /** The result of a call agrees with a run. */
  ghost predicate Matches(run: Outcome, len: nat, seen: seq<Event>, n: nat, p: Parser, calls: seq<Callback>,
                          errno: Option<Errno>)
  {
    match run
    case Running(q, events) => n == len && errno == None && p == q && Flatten(calls) == seen + events
    case Left(q, events, at) => n == at + 1 && errno == None && p == q && Flatten(calls) == seen + events
    case Failed(e, at) => n == at && errno == Some(e)
    case Aborted => false
  }

  lemma MatchesEnd(p0: Parser, seen: seq<Event>, data: string, p: Parser, calls: seq<Callback>)
    requires Run(p0, data).Running? && Run(p0, data).p == p && Flatten(calls) == seen + Run(p0, data).events
    ensures Matches(Run(p0, data), |data|, seen, |data|, p, calls, None)
  {
    hide Run, Flatten;
  }

  /** A run that stops within the buffer decides the call. */
  lemma StoppedAt(p0: Parser, data: string, i: nat)
    requires i <= |data| && !Run(p0, data[..i]).Running?
    ensures Run(p0, data) == Run(p0, data[..i])
  {
    RunStops(p0, data[..i], data[i..]);
    assert data[..i] + data[i..] == data;
  }

  /** The parser's state is fit for going on. */
  lemma ProcessedInv(p0: Parser, seen: seq<Event>, data: string, i: nat, p: Parser, l: Log)
    requires Processed(p0, seen, data, i, p, l)
    ensures Inv(p)
  {
  }

  /** The rest of a body in the buffer but for its last byte, if in a body. */
  method SkipBody(data: string, n: nat, p: Parser, l: Log, ghost p0: Parser, ghost seen: seq<Event>)
    returns (i: nat, p': Parser, l': Log)
    requires n < |data| && Processed(p0, seen, data, n, p, l)
    ensures n <= i < |data| && Processed(p0, seen, data, i, p', l')
  {
    hide Run, Step, Processed, DoAct;
    i, p', l' := n, p, l;
    ProcessedInv(p0, seen, data, n, p, l);
    if InBody(p.state) {
      var toRead := |data| - n;
      if !p.state.BODY_IDENTITY_EOF? && p.length < toRead { toRead := p.length; }
      Stretch(p0, seen, data, n, p, l, toRead - 1);
      l' := DoAct(l, data, n, Mark(BODY));
      p' := Consumed(p, toRead - 1);
      i := n + toRead - 1;
    }
  }

  /** One turn of the loop. */
  method Proceed(data: string, n: nat, p: Parser, l: Log, ghost p0: Parser, ghost seen: seq<Event>)
    returns (going: bool, n': nat, p': Parser, l': Log, e: Option<Errno>)
    requires n < |data| && Processed(p0, seen, data, n, p, l)
    ensures n' <= |data| && (going ==> n < n' && Processed(p0, seen, data, n', p', l') && e == None)
    ensures !going ==> Inv(p') && Matches(Run(p0, data), |data|, seen, n', p', l'.calls, e)
  {
    hide Run, Step, Processed, DoAll, Inv, Good, Flatten;
    var i;
    i, p', l' := SkipBody(data, n, p, l, p0, seen);
    OneMore(p0, seen, data, i, p', l');
    ProcessedInv(p0, seen, data, i, p', l');
    match Step(p', data[i])
    case Next(q, acts, own) =>
      going, n', p', l', e := true, i + 1, q, DoAll(l', data, i, acts), None;
    case Leave(q, acts) =>
      StoppedAt(p0, data, i + 1);
      going, n', p', l', e := false, i + 1, q, DoAll(l', data, i, acts), None;
    case Fail(err) =>
      StoppedAt(p0, data, i + 1);
      going, n', e := false, i, Some(err);
  }

  // ---------------------------------------------------------------- cut invariance

  /** A prefix of a run without error is one too. */
  lemma RunsOn(p: Parser, a: string, all: string)
    requires a <= all && Run(p, all).Running?
    ensures Run(p, a).Running?
  {
    hide Run;
    assert a + all[|a|..] == all;
    if !Run(p, a).Running? { RunStops(p, a, all[|a|..]); }
  }

  /** Feed a stream in pieces. If it parses without error and without leaving for another protocol, the
      fields and the events are those of the whole stream in one piece, wherever it is cut. */
  method Feed(c: Connection, pieces: seq<string>)
    requires c.Valid() && c.errno == None && forall k :: 0 <= k < |pieces| ==> |pieces[k]| > 0
    requires Run(c.parser, Concat(pieces)).Running?
    modifies c
    ensures c.Valid() && c.errno == None && c.parser == Run(old(c.parser), Concat(pieces)).p
    ensures Flatten(c.calls) == Flatten(old(c.calls)) + Run(old(c.parser), Concat(pieces)).events
  {
    hide Run, Flatten, Inv, Concat;
    ghost var p0, seen, all := c.parser, Flatten(c.calls), Concat(pieces);
    assert Concat(pieces[..0]) == "" by { ConcatNone(pieces); }
    RunEmpty(p0, "");
    for k := 0 to |pieces|
      invariant c.Valid() && c.errno == None && Run(p0, Concat(pieces[..k])).Running?
      invariant c.parser == Run(p0, Concat(pieces[..k])).p
      invariant Flatten(c.calls) == seen + Run(p0, Concat(pieces[..k])).events
    {
      ghost var before := Concat(pieces[..k]);
      ConcatNext(pieces, k);
      ConcatPrefix(pieces, k + 1);
      RunsOn(p0, before + pieces[k], all);
      RunAppend(p0, before, pieces[k]);
      var _ := c.Execute(pieces[k]);
      Regroup(seen, Run(p0, before).events, Run(Run(p0, before).p, pieces[k]).events);
    }
    assert pieces[..|pieces|] == pieces;
  }

  /** Two connections in the same state, fed the same stream cut in two ways, end in the same state and with the same
      callbacks, once adjacent data callbacks of a kind are joined and empty ones dropped. */
  method FeedBoth(a: Connection, b: Connection, xs: seq<string>, ys: seq<string>)
    requires a != b && a.Valid() && b.Valid() && a.errno == b.errno == None && a.parser == b.parser
    requires a.calls == b.calls
    requires Concat(xs) == Concat(ys) && Run(a.parser, Concat(xs)).Running?
    requires (forall k :: 0 <= k < |xs| ==> |xs[k]| > 0) && (forall k :: 0 <= k < |ys| ==> |ys[k]| > 0)
    modifies a, b
    ensures a.errno == b.errno == None && a.parser == b.parser && Normal(a.calls) == Normal(b.calls)
  {
    hide *;
    Feed(a, xs);
    Feed(b, ys);
    SameTrace(a.calls, b.calls);
  }
}
