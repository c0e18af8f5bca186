/** The connection pools of the database proxy (the cache pool and the database pool follow the same
    protocol): a list of free connections under a mutex, and a condition variable for callers that wait. The
    callers are any number of threads; a step is what one of them does while it holds the mutex. */
module ConnPool {

  const MIN_CONN_CNT: nat := 2

  type Conn = nat
  type Caller = nat

  /** How a stay in the monitor ends. */
  datatype Result = Got(c: Conn) | Failed | Waits

  predicate Distinct(s: seq<Conn>)
  {
    forall i, j :: 0 <= i < j < |s| ==> s[i] != s[j]
  }

  function Bound(max: int): int
  {
    if max > MIN_CONN_CNT then max else MIN_CONN_CNT
  }

  class Pool {
    const maxConnCnt: int
    var curConnCnt: int
    var freeList: seq<Conn>
    /** Connections get new identities. */
    var next: nat
    /** The connections that callers hold. */
    ghost var held: set<Conn>

    /** Free connections are distinct and not held, all are counted, and there are not too many. */
    ghost predicate Valid()
      reads this
    {
      && Distinct(freeList) && (forall c :: c in freeList ==> c !in held)
      && |freeList| + |held| == curConnCnt <= Bound(maxConnCnt)
      && (forall c :: c in freeList || c in held ==> c < next)
    }

    /** The constructor counts connections that init has yet to make. */
    constructor (max: int)
      ensures New() && maxConnCnt == max
    {
      maxConnCnt, curConnCnt := max, MIN_CONN_CNT;
      freeList, next, held := [], 0, {};
    }

    ghost predicate New()
      reads this
    {
      curConnCnt == MIN_CONN_CNT && freeList == [] && held == {}
    }

    /** init. Making a connection may fail, as made says of each; then the count is more than there are, and the
        pool is not usable. */
    method Init(made: seq<bool>) returns (ret: int)
      requires New() && |made| == MIN_CONN_CNT
      modifies this
      ensures ret == if false in made then 1 else 0
      ensures ret == 0 ==> Valid() && held == {} && |freeList| == MIN_CONN_CNT
      ensures ret == 1 ==> !Valid() && |freeList| + |held| < curConnCnt
    {
      for i := 0 to curConnCnt
        invariant |freeList| == i && Distinct(freeList) && curConnCnt == MIN_CONN_CNT && held == {}
        invariant forall k :: 0 <= k < |freeList| ==> freeList[k] < next
        invariant false !in made[..i]
      {
        var conn := next;
        next := next + 1;
        if !made[i] { return 1; }
        freeList := freeList + [conn];
      }
      ret := 0;
    }

    /** get, from taking the mutex or waking up until it returns or waits. Making a connection may fail, as made
        says. */
    method Get(made: bool) returns (r: Result)
      requires Valid()
      modifies this
      ensures Valid()
      ensures r.Got? ==> r.c !in old(held) && held == old(held) + {r.c}
      ensures !r.Got? ==> held == old(held) && freeList == old(freeList) == [] && curConnCnt == old(curConnCnt)
      ensures old(freeList) != [] ==>
                r == Got(old(freeList)[0]) && freeList == old(freeList)[1..] && curConnCnt == old(curConnCnt)
      ensures old(freeList) == [] ==> freeList == []
      ensures r.Waits? <==> old(freeList) == [] && old(curConnCnt) >= maxConnCnt
      ensures r.Failed? <==> old(freeList) == [] && old(curConnCnt) < maxConnCnt && !made
      ensures r.Got? && old(freeList) == [] ==> curConnCnt == old(curConnCnt) + 1
    {
      if freeList == [] {
        if curConnCnt >= maxConnCnt { return Waits; }
        var conn := next;
        next := next + 1;
        if !made { return Failed; }
        freeList := [conn];
        curConnCnt := curConnCnt + 1;
      }
      r := Got(freeList[0]);
      freeList := freeList[1..];
      held := held + {r.c};
    }

    /** rel: back on the list, unless it is there already. */
    method Release(conn: Conn)
      requires Valid() && (conn in held || conn in freeList)
      modifies this
      ensures Valid() && held == old(held) - {conn} && curConnCnt == old(curConnCnt)
      ensures freeList == if conn in old(freeList) then old(freeList) else old(freeList) + [conn]
    {
      var i := 0;
      while i < |freeList| && freeList[i] != conn
        invariant 0 <= i <= |freeList| && conn !in freeList[..i]
      {
        i := i + 1;
      }
      if i == |freeList| {
        assert conn !in freeList[..|freeList|];
        freeList := freeList + [conn];
        held := held - {conn};
      }
    }
  }

  // ---------------------------------------------------------------- interleavings

  /** What a thread may do next: call get; wake up from its wait; release a connection it holds. With the first
      two, whether a connection can be made. */
  datatype Step = Enter(who: Caller, made: bool) | Wake(who: Caller, made: bool) | Leave(who: Caller, conn: Conn)

  /** The threads: who holds what, who waits on the condition, and who has been notified but has not run. */
  datatype Threads = Threads(holds: map<Caller, set<Conn>>, waiting: set<Caller>, notified: set<Caller>)

  function HeldBy(holds: map<Caller, set<Conn>>, who: Caller): set<Conn>
  {
    if who in holds then holds[who] else {}
  }

  /** No connection is with two threads, and those with threads are the held ones. */
  ghost predicate Owned(holds: map<Caller, set<Conn>>, held: set<Conn>)
  {
    && (forall a, b, c :: a != b && c in HeldBy(holds, a) ==> c !in HeldBy(holds, b))
    && (forall a, c :: c in HeldBy(holds, a) ==> c in held)
    && (forall c :: c in held ==> exists a :: c in HeldBy(holds, a))
  }

  lemma TakeOwned(holds: map<Caller, set<Conn>>, held: set<Conn>, who: Caller, c: Conn)
    requires Owned(holds, held) && c !in held
    ensures Owned(holds[who := HeldBy(holds, who) + {c}], held + {c})
  {
    var now := holds[who := HeldBy(holds, who) + {c}];
    assert forall b :: HeldBy(now, b) == if b == who then HeldBy(holds, who) + {c} else HeldBy(holds, b);
    hide HeldBy;
    forall d | d in held + {c} ensures exists a :: d in HeldBy(now, a) {
      if d == c {
        assert d in HeldBy(now, who);
      } else {
        var a :| d in HeldBy(holds, a);
        assert d in HeldBy(now, a);
      }
    }
  }

  lemma GiveOwned(holds: map<Caller, set<Conn>>, held: set<Conn>, who: Caller, c: Conn)
    requires Owned(holds, held) && c in HeldBy(holds, who)
    ensures Owned(holds[who := HeldBy(holds, who) - {c}], held - {c})
  {
    var now := holds[who := HeldBy(holds, who) - {c}];
    assert forall b :: HeldBy(now, b) == if b == who then HeldBy(holds, who) - {c} else HeldBy(holds, b);
    hide HeldBy;
    forall d | d in held - {c} ensures exists a :: d in HeldBy(now, a) {
      var a :| d in HeldBy(holds, a);
      assert d in HeldBy(now, a);
    }
  }

  /** No wake-up is lost: if connections are free while a thread waits, at least as many threads have been
      notified and are about to run. */
  ghost predicate Awake(free: nat, waiting: set<Caller>, notified: set<Caller>)
  {
    waiting !! notified && (waiting != {} ==> free <= |notified|)
  }

  ghost predicate Sound(p: Pool, t: Threads)
    reads p
  {
    p.Valid() && Owned(t.holds, p.held) && Awake(|p.freeList|, t.waiting, t.notified)
  }

  /** Which steps a thread can take: a waiting thread cannot call; only waiting threads wake (spuriously,
      or because they were notified); threads release only what they hold. */
  predicate Enabled(t: Threads, s: Step)
  {
    match s
    case Enter(a, made) => a !in t.waiting && a !in t.notified
    case Wake(a, made) => a in t.waiting || a in t.notified
    case Leave(a, c) => a !in t.waiting && a !in t.notified && c in HeldBy(t.holds, a)
  }

  lemma StillAwake(free: nat, free': nat, waiting: set<Caller>, notified: set<Caller>, who: Caller, waits: bool)
    requires Awake(free, waiting, notified) && free' == (if free > 0 then free - 1 else 0) && (waits ==> free == 0)
    ensures Awake(free', (waiting - {who}) + (if waits then {who} else {}), notified - {who})
  {
    if who in notified { assert |notified - {who}| == |notified| - 1; } else { assert notified - {who} == notified; }
  }

  /** A stay in the monitor, by a call or after a wait. */
  method Stay(p: Pool, t: Threads, who: Caller, made: bool) returns (t': Threads, r: Result)
    requires Sound(p, t)
    modifies p
    ensures Sound(p, t') && (r.Got? ==> r.c !in old(p.held))
    ensures t'.holds == if r.Got? then t.holds[who := HeldBy(t.holds, who) + {r.c}] else t.holds
    ensures r.Waits? <==> old(p.freeList) == [] && old(p.curConnCnt) >= p.maxConnCnt
    ensures r.Failed? <==> old(p.freeList) == [] && old(p.curConnCnt) < p.maxConnCnt && !made
  {
    hide *;
    SoundParts(p, t);
    ghost var held, free := p.held, |p.freeList|;
    r := p.Get(made);
    StillAwake(free, |p.freeList|, t.waiting, t.notified, who, r.Waits?);
    var holds := t.holds;
    if r.Got? {
      TakeOwned(t.holds, held, who, r.c);
      holds := holds[who := HeldBy(t.holds, who) + {r.c}];
    }
    t' := Threads(holds, (t.waiting - {who}) + (if r.Waits? then {who} else {}), t.notified - {who});
    SoundAgain(p, t');
  }

  lemma SoundParts(p: Pool, t: Threads)
    requires Sound(p, t)
    ensures p.Valid() && Owned(t.holds, p.held) && Awake(|p.freeList|, t.waiting, t.notified)
  {
  }

  lemma SoundAgain(p: Pool, t: Threads)
    requires p.Valid() && Owned(t.holds, p.held) && Awake(|p.freeList|, t.waiting, t.notified)
    ensures Sound(p, t)
  {
  }

  lemma NotifyAwake(free: nat, waiting: set<Caller>, notified: set<Caller>, who: Caller)
    requires Awake(free, waiting, notified)
    ensures waiting == {} ==> Awake(free + 1, waiting, notified)
    ensures who in waiting ==> Awake(free + 1, waiting - {who}, notified + {who})
  {
  }

  /** A release: the connection goes back and one waiting thread, if there is one, is notified. */
  method GiveBack(p: Pool, t: Threads, who: Caller, conn: Conn) returns (t': Threads)
    requires Sound(p, t) && conn in HeldBy(t.holds, who)
    modifies p
    ensures Sound(p, t') && t'.holds == t.holds[who := HeldBy(t.holds, who) - {conn}]
    ensures p.freeList == old(p.freeList) + [conn]
    ensures t.waiting != {} ==> |t'.notified| == |t.notified| + 1
  {
    GiveOwned(t.holds, p.held, who, conn);
    ghost var free := |p.freeList|;
    p.Release(conn);
    hide Owned;
    var holds := t.holds[who := HeldBy(t.holds, who) - {conn}];
    if t.waiting == {} {
      t' := Threads(holds, t.waiting, t.notified);
      NotifyAwake(free, t.waiting, t.notified, 0);
    } else {
      var a :| a in t.waiting;
      NotifyAwake(free, t.waiting, t.notified, a);
      t' := Threads(holds, t.waiting - {a}, t.notified + {a});
    }
  }

  /** Any interleaving of any number of threads, as far as its steps are possible, once init has succeeded. */
  method Run(max: int, made: seq<bool>, schedule: seq<Step>) returns (ready: bool, p: Pool, t: Threads)
    requires |made| == MIN_CONN_CNT
    ensures ready <==> false !in made
    ensures ready ==> Sound(p, t) && p.maxConnCnt == max
    ensures ready ==> p.curConnCnt <= Bound(max) && |p.freeList| + |p.held| == p.curConnCnt
    ensures !ready ==> !p.Valid()
  {
    p := new Pool(max);
    t := Threads(map[], {}, {});
    var ret := p.Init(made);
    ready := ret == 0;
    if !ready { return; }
    hide Owned, Awake;
    assert Owned(map[], {}) && Awake(|p.freeList|, {}, {}) by { NobodyYet(|p.freeList|); }
    for k := 0 to |schedule|
      invariant fresh(p) && Sound(p, t) && p.maxConnCnt == max
    {
      if Enabled(t, schedule[k]) {
        match schedule[k]
        case Enter(a, made) =>
          var r;
          t, r := Stay(p, t, a, made);
        case Wake(a, made) =>
          var r;
          t, r := Stay(p, t, a, made);
        case Leave(a, c) => t := GiveBack(p, t, a, c);
      }
    }
  }

  lemma NobodyYet(free: nat)
    ensures Owned(map[], {}) && Awake(free, {}, {})
  {
  }
}
