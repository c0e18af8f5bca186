/** Runs of the HTTP parser over whole inputs, and http_parser_execute with its marks and data callbacks.
    A run is described by its events: notifications, and data byte by byte. Two callback traces have the same
    events exactly when they are equal after joining adjacent data callbacks of a kind and dropping empty ones
    (SameTrace). */
module HttpRun {
  import opened Common
  import opened HttpParser

  datatype Event = Told(n: Note) | Byte(i: Item, c: char)

  /** What a client sees. */
  datatype Callback = Notified(n: Note) | Data(i: Item, bytes: string)

  function Bytes(i: Item, bs: string): (r: seq<Event>)
    ensures |r| == |bs|
  {
    if |bs| == 0 then [] else Bytes(i, bs[..|bs| - 1]) + [Byte(i, bs[|bs| - 1])]
  }

  function Flatten(calls: seq<Callback>): seq<Event>
  {
    if |calls| == 0 then []
    else
      Flatten(calls[..|calls| - 1]) +
      match calls[|calls| - 1] case Notified(n) => [Told(n)] case Data(i, bs) => Bytes(i, bs)
  }

  lemma FlattenSnoc(calls: seq<Callback>, k: Callback)
    ensures Flatten(calls + [k]) ==
              Flatten(calls) + (match k case Notified(n) => [Told(n)] case Data(i, bs) => Bytes(i, bs))
  {
    assert (calls + [k])[..|calls|] == calls;
  }

  lemma BytesSnoc(i: Item, bs: string, c: char)
    ensures Bytes(i, bs + [c]) == Bytes(i, bs) + [Byte(i, c)]
  {
    assert (bs + [c])[..|bs|] == bs;
  }

  lemma {:induction false} BytesAppend(i: Item, a: string, b: string)
    ensures Bytes(i, a + b) == Bytes(i, a) + Bytes(i, b)
  {
    if |b| == 0 {
      assert a + b == a;
    } else {
      var n := |b| - 1;
      BytesAppend(i, a, b[..n]);
      BytesSnoc(i, a + b[..n], b[n]);
      assert a + b == a + b[..n] + [b[n]];
    }
  }

  // ---------------------------------------------------------------- traces up to how data is split

  /** A trace and one more callback, which is joined to the last one if both have data of one kind. */
  function Push(calls: seq<Callback>, k: Callback): seq<Callback>
  {
    if k.Notified? then calls + [k]
    else if k.bytes == "" then calls
    else if |calls| > 0 && calls[|calls| - 1].Data? && calls[|calls| - 1].i == k.i then
      calls[..|calls| - 1] + [Data(k.i, calls[|calls| - 1].bytes + k.bytes)]
    else calls + [k]
  }

  /** A trace with adjacent data callbacks of a kind joined and empty ones dropped. */
  function Normal(calls: seq<Callback>): seq<Callback>
  {
    if |calls| == 0 then [] else Push(Normal(calls[..|calls| - 1]), calls[|calls| - 1])
  }

  /** The normal trace of a sequence of events. */
  function Traced(es: seq<Event>): seq<Callback>
  {
    if |es| == 0 then []
    else
      Push(Traced(es[..|es| - 1]),
           match es[|es| - 1] case Told(n) => Notified(n) case Byte(i, c) => Data(i, [c]))
  }

  lemma TracedSnoc(es: seq<Event>, e: Event)
    ensures Traced(es + [e]) == Push(Traced(es), match e case Told(n) => Notified(n) case Byte(i, c) => Data(i, [c]))
  {
    hide Push;
    assert (es + [e])[..|es|] == es;
  }

  /** Pushing data in two pieces is pushing it in one. */
  lemma PushTwice(calls: seq<Callback>, i: Item, a: string, b: string)
    ensures Push(Push(calls, Data(i, a)), Data(i, b)) == Push(calls, Data(i, a + b))
  {
    if a == "" {
      assert a + b == b;
    } else if b == "" {
      assert a + b == a;
    } else {
      var m := Push(calls, Data(i, a));
      var n := |m| - 1;
      assert m[n].Data? && m[n].i == i;
      if |calls| > 0 && calls[|calls| - 1].Data? && calls[|calls| - 1].i == i {
        var c := calls[|calls| - 1].bytes;
        assert m[..n] == calls[..|calls| - 1] && c + a + b == c + (a + b);
      } else {
        assert m[..n] == calls;
      }
    }
  }

  lemma {:induction false} TracedBytes(es: seq<Event>, i: Item, bs: string)
    ensures Traced(es + Bytes(i, bs)) == Push(Traced(es), Data(i, bs))
  {
    hide Traced;
    if |bs| == 0 {
      assert es + Bytes(i, bs) == es;
    } else {
      hide Push;
      var n := |bs| - 1;
      TracedBytes(es, i, bs[..n]);
      TracedSnoc(es + Bytes(i, bs[..n]), Byte(i, bs[n]));
      assert es + Bytes(i, bs) == es + Bytes(i, bs[..n]) + [Byte(i, bs[n])];
      PushTwice(Traced(es), i, bs[..n], [bs[n]]);
      assert bs[..n] + [bs[n]] == bs;
    }
  }

  /** The events determine the normal trace. */
  lemma {:induction false} NormalTraced(calls: seq<Callback>)
    ensures Normal(calls) == Traced(Flatten(calls))
  {
    hide Push;
    if |calls| > 0 {
      var n := |calls| - 1;
      NormalTraced(calls[..n]);
      match calls[n]
      case Notified(k) => TracedSnoc(Flatten(calls[..n]), Told(k));
      case Data(i, bs) => TracedBytes(Flatten(calls[..n]), i, bs);
    }
  }

  lemma JoinFlatten(calls: seq<Callback>, i: Item, a: string, b: string)
    ensures Flatten(calls + [Data(i, a + b)]) == Flatten(calls + [Data(i, a)]) + Bytes(i, b)
  {
    hide *;
    FlattenSnoc(calls, Data(i, a));
    FlattenSnoc(calls, Data(i, a + b));
    BytesAppend(i, a, b);
  }

  lemma PushFlatten(calls: seq<Callback>, k: Callback)
    ensures Flatten(Push(calls, k)) ==
              Flatten(calls) + (match k case Notified(n) => [Told(n)] case Data(i, bs) => Bytes(i, bs))
  {
    hide Flatten, Bytes;
    FlattenSnoc(calls, k);
    if k.Data? && |calls| > 0 && calls[|calls| - 1].Data? && calls[|calls| - 1].i == k.i {
      var n := |calls| - 1;
      JoinFlatten(calls[..n], k.i, calls[n].bytes, k.bytes);
      assert calls[..n] + [calls[n]] == calls;
    }
  }

  /** The normal trace has the events of the trace. */
  lemma {:induction false} FlattenNormal(calls: seq<Callback>)
    ensures Flatten(Normal(calls)) == Flatten(calls)
  {
    hide Push;
    if |calls| > 0 {
      FlattenNormal(calls[..|calls| - 1]);
      PushFlatten(Normal(calls[..|calls| - 1]), calls[|calls| - 1]);
    }
  }

  /** Two traces have the same events exactly if they are equal up to how data is split into callbacks. */
  lemma SameTrace(a: seq<Callback>, b: seq<Callback>)
    ensures Flatten(a) == Flatten(b) <==> Normal(a) == Normal(b)
  {
    hide *;
    NormalTraced(a);
    NormalTraced(b);
    FlattenNormal(a);
    FlattenNormal(b);
  }

  // ---------------------------------------------------------------- runs

  function Notes(acts: seq<Act>): seq<Event>
  {
    if |acts| == 0 then []
    else Notes(acts[..|acts| - 1]) + (if acts[|acts| - 1].Notify? then [Told(acts[|acts| - 1].n)] else [])
  }

  /** The events of one byte: the byte itself, if it is data, then notifications. */
  function Events(acts: seq<Act>, own: Option<Item>, c: char): seq<Event>
  {
    (if own.Some? then [Byte(own.value, c)] else []) + Notes(acts)
  }

  datatype Outcome =
    | Running(p: Parser, events: seq<Event>)
    | Left(p: Parser, events: seq<Event>, at: nat)
    | Failed(errno: Errno, at: nat)
    | Aborted

  /** A run continued by byte c at offset n. */
  function Advance(run: Outcome, c: char, n: nat): Outcome
  {
    match run
    case Running(q, events) =>
      (match Step(q, c)
       case Next(q', acts, own) => Running(q', events + Events(acts, own, c))
       case Leave(q', acts) => Left(q', events + Notes(acts), n)
       case Fail(e) => Failed(e, n)
       case Abort => Aborted)
    case other => other
  }

  function Run(p: Parser, bs: string): Outcome
  {
    if |bs| == 0 then Running(p, []) else Advance(Run(p, bs[..|bs| - 1]), bs[|bs| - 1], |bs| - 1)
  }

  /** A run followed by another. */
  function Then(first: Outcome, second: Outcome, n: nat): Outcome
    requires first.Running?
  {
    match second
    case Running(p, events) => Running(p, first.events + events)
    case Left(p, events, at) => Left(p, first.events + events, n + at)
    case Failed(e, at) => Failed(e, n + at)
    case Aborted => Aborted
  }

  lemma AdvanceThen(first: Outcome, second: Outcome, m: nat, c: char, n: nat)
    requires first.Running?
    ensures Advance(Then(first, second, m), c, m + n) == Then(first, Advance(second, c, n), m)
  {
    hide Step, Events, Notes;
  }

  /** Where the input is cut makes no difference. */
  lemma {:induction false} RunAppend(p: Parser, a: string, b: string)
    requires Run(p, a).Running?
    ensures Run(p, a + b) == Then(Run(p, a), Run(Run(p, a).p, b), |a|)
  {
    hide *;
    if |b| == 0 {
      assert a + b == a;
      ThenNothing(Run(p, a), |a|);
      RunEmpty(Run(p, a).p, b);
    } else {
      var n := |b| - 1;
      RunAppend(p, a, b[..n]);
      AdvanceThen(Run(p, a), Run(Run(p, a).p, b[..n]), |a|, b[n], n);
      assert (a + b)[..|a| + n] == a + b[..n];
      RunNext(p, a + b, |a| + n);
      assert (a + b)[..|a| + n + 1] == a + b;
      RunNext(Run(p, a).p, b, n);
      assert b[..n + 1] == b;
    }
  }

  lemma ThenNothing(first: Outcome, n: nat)
    requires first.Running?
    ensures Then(first, Running(first.p, []), n) == first
  {
  }

  lemma RunEmpty(p: Parser, bs: string)
    requires bs == []
    ensures Run(p, bs) == Running(p, [])
  {
  }

  /** A run that has stopped stays so. */
  lemma {:induction false} RunStops(p: Parser, a: string, b: string)
    requires !Run(p, a).Running?
    ensures Run(p, a + b) == Run(p, a)
  {
    hide Step;
    if |b| == 0 {
      assert a + b == a;
    } else {
      var n := |b| - 1;
      RunStops(p, a, b[..n]);
      assert (a + b)[..|a + b| - 1] == a + b[..n];
    }
  }

  lemma RunNext(p: Parser, bs: string, i: nat)
    requires i < |bs|
    ensures Run(p, bs[..i + 1]) == Advance(Run(p, bs[..i]), bs[i], i)
  {
    hide Advance;
    assert bs[..i + 1][..i] == bs[..i];
  }
}
