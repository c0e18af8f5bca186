/** The codes of a block as inflateBack sets them up: the fixed codes, or those read from the header of a
    dynamic block. */
module InflateHeader {
  import opened Bits
  import opened Huffman
  import opened DecodeTable
  import opened Lz77
  import opened BitReader
  import opened BlockData
  import opened DeflateFormat
  import opened BitSource
  import opened InflateTable
  import opened CodeLengths
  import opened TableSize
  import opened DeflateUnique
  import opened DeflateRefusal

  /** The table sizes at the head of a dynamic block. */
  method Sizes(src: Source) returns (ok: bool, nlen: nat, ndist: nat, ncode: nat)
    requires src.Valid()
    modifies src
    ensures src.Valid() && src.n >= old(src.n)
    ensures ok ==> src.n == old(src.n) + 14 && src.Rest() == High(old(src.Rest()), 14)
    ensures ok ==> nlen == Low(old(src.Rest()), 5) + 257 && ndist == Low(High(old(src.Rest()), 5), 5) + 1
    ensures ok ==> ncode == Low(High(old(src.Rest()), 10), 4) + 4 <= 19
    ensures !ok ==> old(src.n) + 14 > 8 * |src.input|
    ensures ok && old(src.bits) < 8 ==> src.bits < 8
  {
    hide Low, High, Source.Valid, Stream;
    ghost var z := src.Rest();
    nlen, ndist, ncode := 0, 0, 0;
    ok := src.NeedBits(14);
    if ok {
      nlen := src.Peek(5);
      nlen := nlen + 257;
      src.Drop(5);
      ndist := src.Peek(5);
      ndist := ndist + 1;
      src.Drop(5);
      HighHigh(z, 5, 5);
      ncode := src.Peek(4);
      ncode := ncode + 4;
      src.Drop(4);
      HighHigh(z, 10, 4);
      assert Pow2(4) == 16;
    }
  }

  /** The first have of the code-length code lengths are in place. */
  ghost predicate Sent(z: nat, cl: seq<nat>, ncode: nat, have: nat)
  {
    && |cl| >= 19 && |ORDER| == 19
    && forall k :: 0 <= k < have <= 19 ==> ORDER[k] < 19 && cl[ORDER[k]] == CodeLength(z, ncode, k)
  }

  function CodeLength(z: nat, ncode: nat, k: nat): (r: nat)
  {
    if k < ncode then Low(High(z, 14 + 3 * k), 3) else 0
  }

  lemma SentMore(z: nat, cl: seq<nat>, ncode: nat, have: nat, x: nat)
    requires Sent(z, cl, ncode, have) && have < 19 && x == CodeLength(z, ncode, have)
    ensures |ORDER| == 19 && ORDER[have] < 19 && Sent(z, cl[ORDER[have] := x], ncode, have + 1)
  {
    hide CodeLength, ORDER;
    OrderDistinct();
  }

  lemma SentAll(z: nat, cl: seq<nat>, ncode: nat)
    requires Sent(z, cl, ncode, 19) && ncode == Low(High(z, 10), 4) + 4
    ensures CodeCodeAt(z, cl[..19], 14 + 3 * ncode) && forall v :: 0 <= v < 19 ==> cl[v] <= 7
  {
    forall v | 0 <= v < 19 ensures cl[v] <= 7 {
      var k := OrderOnto(v);
      assert Pow2(3) == 8;
      assert cl[ORDER[k]] == CodeLength(z, ncode, k);
    }
    hide ORDER, Low, High;
    OrderDistinct();
  }

  /** Read the code-length code lengths that were sent. */
  method ReadCodeCode(src: Source, lens: array<nat>, ncode: nat, ghost z: nat) returns (ok: bool)
    requires src.Valid() && ncode <= 19 && src.Rest() == High(z, 14) && lens.Length == 320
    modifies src, lens
    ensures src.Valid() && src.n >= old(src.n)
    ensures ok ==> src.n == old(src.n) + 3 * ncode && src.Rest() == High(z, 14 + 3 * ncode)
    ensures ok ==> Sent(z, lens[..], ncode, ncode)
    ensures !ok ==> old(src.n) + 3 * ncode > 8 * |src.input|
    ensures ok && old(src.bits) < 8 ==> src.bits < 8
  {
    hide *;
    ok := true;
    var have: nat := 0;
    ghost var n0 := src.n;
    SentNone(z, lens[..], ncode);
    while ok && have < ncode
      invariant have <= ncode && src.Valid() && src.n == n0 + 3 * have
      invariant !ok ==> have < ncode && src.n + 3 > 8 * |src.input|
      invariant ok && old(src.bits) < 8 ==> src.bits < 8
      invariant ok ==> src.Rest() == High(z, 14 + 3 * have) && Sent(z, lens[..], ncode, have)
      decreases ok, ncode - have
    {
      var x;
      ok, x := src.Take(3);
      if ok {
        HighHigh(z, 14 + 3 * have, 3);
        CodeLengthSent(z, ncode, have);
        SetLength(lens, ncode, have, x, z);
        have := have + 1;
      }
    }
  }

  /** state->lens[order[have]] = x. */
  method SetLength(lens: array<nat>, ncode: nat, have: nat, x: nat, ghost z: nat)
    requires lens.Length == 320 && Sent(z, lens[..], ncode, have) && have < 19 && x == CodeLength(z, ncode, have)
    modifies lens
    ensures Sent(z, lens[..], ncode, have + 1)
  {
    hide *;
    SentMore(z, lens[..], ncode, have, x);
    ghost var before := lens[..];
    lens[ORDER[have]] := x;
    assert lens[..] == before[ORDER[have] := x];
  }

  lemma SentNone(z: nat, cl: seq<nat>, ncode: nat)
    requires |cl| >= 19
    ensures Sent(z, cl, ncode, 0)
  {
    OrderDistinct();
  }

  lemma CodeLengthSent(z: nat, ncode: nat, k: nat)
    requires k < ncode
    ensures CodeLength(z, ncode, k) == Low(High(z, 14 + 3 * k), 3)
  {
  }

  /** The code-length code lengths that were not sent are zero. */
  method ZeroCodeCode(lens: array<nat>, ncode: nat, ghost z: nat)
    requires ncode <= 19 && lens.Length == 320 && Sent(z, lens[..], ncode, ncode)
    modifies lens
    ensures Sent(z, lens[..], ncode, 19)
  {
    hide Sent, ORDER, Low, High;
    var have := ncode;
    while have < 19
      invariant ncode <= have <= 19 && Sent(z, lens[..], ncode, have)
    {
      SetLength(lens, ncode, have, 0, z);
      have := have + 1;
    }
  }

  /** What a lookup in the code-length table means. */
  lemma LengthSymbolFound(t: seq<Code>, root: nat, cl: seq<nat>, z: nat, here: Code, k: nat)
    requires |cl| == 19 && ValidLengths(cl) && Decodes(t, root, CODES, cl) && Lookup(t, root, z) == Hit(here, k)
    ensures LengthSymbol(cl, z, here.val, k) && here.val < 19
  {
    hide Lookup, Matches;
    ghost var e, n, s := Found(t, root, CODES, cl, z);
  }

  /** A run of k equal lengths, from the array's point of view. */
  method Fill(lens: array<nat>, have: nat, x: nat, k: nat)
    requires have + k <= lens.Length
    modifies lens
    ensures lens[..have + k] == old(lens[..have]) + Repeat(x, k)
  {
    for j := 0 to k
      invariant lens[..have] == old(lens[..have])
      invariant forall i :: have <= i < have + j ==> lens[i] == x
    {
      lens[have + j] := x;
    }
  }

  /** How many lengths a symbol stands for, and which. */
  method RunOf(src: Source, v: nat, have: nat, lens: array<nat>, ghost z: nat, ghost w: nat)
    returns (status: Status, len: nat, copy: nat)
    requires src.Valid() && src.Rest() == High(z, w) && v < 19 && have < lens.Length
    modifies src
    ensures src.Valid() && src.n >= old(src.n) && status != FULL
    ensures status == GO ==> copy >= 1 && (len == v < 16 || len == 0 || (have > 0 && len == lens[have - 1]))
    ensures status == GO ==> StepOf(z, v, w, lens[..have], lens[..have] + Repeat(len, copy), w + src.n - old(src.n))
    ensures status != GO ==> NoRun(z, v, w, lens[..have], status == BAD, 8 * |src.input| - old(src.n) + w)
    ensures status == GO && old(src.bits) < 8 ==> src.bits < 8
  {
    hide Low, High, Source.Valid;
    status, len, copy := GO, 0, 1;
    var ok, x := true, 0;
    if v < 16 {
      len := v;
      assert Repeat(v, 1) == [v];
    } else if v == 16 {
      ok, x := src.Take(2);
      if have == 0 { status := BAD; } else { len := lens[have - 1]; }
      copy := 3 + x;
    } else if v == 17 {
      ok, x := src.Take(3);
      copy := 3 + x;
    } else {
      ok, x := src.Take(7);
      copy := 11 + x;
    }
    if !ok { status := STARVED; }
  }

  /** No run of lengths for symbol v, at least none within r bits. */
  ghost predicate NoRun(z: nat, v: nat, w: nat, prev: seq<nat>, bad: bool, r: int)
  {
    forall lens: seq<nat>, n: nat :: StepOf(z, v, w, prev, lens, n) ==> Past(bad, n, r)
  }

  /** What the code-length table finds is the symbol that the stream begins with. */
  lemma LengthSymbolIs(t: seq<Code>, root: nat, cl: seq<nat>, z: nat, v: nat, w: nat)
    requires |cl| == 19 && ValidLengths(cl) && Decodes(t, root, CODES, cl) && LengthSymbol(cl, z, v, w)
    ensures Lookup(t, root, z).Hit? && Lookup(t, root, z).entry.val == v && Lookup(t, root, z).drop == w
  {
    hide Lookup, Matches, Reach, LinkDrops;
  }

  /** Too few bits for the symbol. */
  lemma NoSymbol(t: seq<Code>, root: nat, cl: seq<nat>, z: nat, prev: seq<nat>, total: nat, r: int)
    requires |cl| == 19 && ValidLengths(cl) && Decodes(t, root, CODES, cl)
    requires Lookup(t, root, z).Hit? && Lookup(t, root, z).drop > r
    ensures NoStep(cl, z, prev, total, false, r)
  {
    hide Lookup, Decodes, LengthSymbol, ValidLengths, Low, High;
    forall lens: seq<nat>, n: nat | LengthStep(cl, z, prev, lens, n) ensures n > r {
      var v: nat, w: nat :| LengthSymbol(cl, z, v, w) && StepOf(z, v, w, prev, lens, n);
      LengthSymbolIs(t, root, cl, z, v, w);
    }
  }

  /** No run for the symbol found. */
  lemma NoRunStep(t: seq<Code>, root: nat, cl: seq<nat>, z: nat, here: Code, w: nat, prev: seq<nat>, total: nat,
                  bad: bool, r: int)
    requires |cl| == 19 && ValidLengths(cl) && Decodes(t, root, CODES, cl) && Lookup(t, root, z) == Hit(here, w)
    requires NoRun(z, here.val, w, prev, bad, r)
    ensures NoStep(cl, z, prev, total, bad, r)
  {
    hide Lookup, Decodes, LengthSymbol, ValidLengths, StepOf;
    forall lens: seq<nat>, n: nat | LengthStep(cl, z, prev, lens, n) ensures Past(bad, n, r) {
      var v: nat, w': nat :| LengthSymbol(cl, z, v, w') && StepOf(z, v, w', prev, lens, n);
      LengthSymbolIs(t, root, cl, z, v, w');
    }
  }

  /** A run beyond the last length. */
  lemma LongRun(t: seq<Code>, root: nat, cl: seq<nat>, z: nat, here: Code, w: nat, prev: seq<nat>, len: nat, copy: nat,
                n: nat, total: nat, r: int)
    requires |cl| == 19 && ValidLengths(cl) && Decodes(t, root, CODES, cl) && Lookup(t, root, z) == Hit(here, w)
    requires StepOf(z, here.val, w, prev, prev + Repeat(len, copy), n) && |prev| + copy > total
    ensures NoStep(cl, z, prev, total, true, r)
  {
    hide Lookup, Decodes, LengthSymbol, ValidLengths, Low, High;
    forall lens: seq<nat>, n': nat | LengthStep(cl, z, prev, lens, n') ensures |lens| > total {
      var v: nat, w': nat :| LengthSymbol(cl, z, v, w') && StepOf(z, v, w', prev, lens, n');
      LengthSymbolIs(t, root, cl, z, v, w');
      assert |lens| == |prev + Repeat(len, copy)|;
    }
  }

  /** One code-length symbol: a length, or a run of lengths. */
  method LengthSymbols(src: Source, t: seq<Code>, root: nat, lens: array<nat>, have: nat, total: nat,
                       ghost cl: seq<nat>)
    returns (status: Status, have': nat)
    requires src.Valid() && |cl| == 19 && ValidLengths(cl) && root <= MAXBITS && Decodes(t, root, CODES, cl)
    requires have < total <= lens.Length && ValidLengths(lens[..have])
    modifies src, lens
    ensures src.Valid() && src.n >= old(src.n) && status != FULL
    ensures have <= have' <= total && (status == GO ==> have < have' && ValidLengths(lens[..have']))
    ensures status == GO ==> LengthStep(cl, old(src.Rest()), old(lens[..have]), lens[..have'], src.n - old(src.n))
    ensures status != GO ==>
              NoStep(cl, old(src.Rest()), old(lens[..have]), total, status == BAD, 8 * |src.input| - old(src.n))
    ensures status == GO && old(src.bits) < 8 ==> src.bits < 8
  {
    hide *;
    ghost var z, before, r := src.Rest(), lens[..have], 8 * |src.input| - src.n;
    have' := have;
    CodeSymbols();
    var ok, here, len, copy;
    ghost var k;
    ok, here, k := src.GetCode(t, root, CODES, cl);
    if !ok {
      status := STARVED;
      NoSymbol(t, root, cl, z, before, total, r);
    } else {
      LengthSymbolFound(t, root, cl, z, here, k);
      status, len, copy := RunOf(src, here.val, have, lens, z, k);
      if status != GO {
        NoRunStep(t, root, cl, z, here, k, before, total, status == BAD, r);
      } else {
        if have + copy > total {
          status := BAD;
          LongRun(t, root, cl, z, here, k, before, len, copy, k + src.n - (old(src.n) + k), total, r);
        } else {
          ValidRun(before, len, copy, here.val);
          Fill(lens, have, len, copy);
          have' := have + copy;
          StepFound(cl, z, here.val, k, before, lens[..have'], src.n - old(src.n));
        }
      }
    }
  }

  lemma CodeSymbols()
    ensures MaxSymbols(CODES) == 19
  {
  }

  lemma StepFound(cl: seq<nat>, z: nat, v: nat, w: nat, lens: seq<nat>, lens': seq<nat>, n: nat)
    requires LengthSymbol(cl, z, v, w) && StepOf(z, v, w, lens, lens', n)
    ensures LengthStep(cl, z, lens, lens', n)
  {
    hide LengthSymbol, StepOf;
  }

  lemma ValidRun(lens: seq<nat>, x: nat, k: nat, v: nat)
    requires ValidLengths(lens) && (x == v < 16 || x == 0 || (|lens| > 0 && x == lens[|lens| - 1]))
    ensures ValidLengths(lens + Repeat(x, k))
  {
  }

  /** The length and distance code lengths. */
  method ReadLengths(src: Source, t: seq<Code>, root: nat, lens: array<nat>, total: nat, ghost cl: seq<nat>)
    returns (status: Status)
    requires src.Valid() && |cl| == 19 && ValidLengths(cl) && root <= MAXBITS && Decodes(t, root, CODES, cl)
    requires total <= lens.Length
    modifies src, lens
    ensures src.Valid() && src.n >= old(src.n) && status != FULL
    ensures status == GO ==> ValidLengths(lens[..total])
    ensures status == GO ==> LengthsAt(cl, old(src.Rest()), lens[..total], src.n - old(src.n))
    ensures status != GO && ClearCode(cl) ==>
              NoLengthsAt(cl, old(src.Rest()), total, status == BAD, 8 * |src.input| - old(src.n))
    ensures status == GO && old(src.bits) < 8 ==> src.bits < 8
  {
    hide *;
    src.RestHere();
    ghost var z, n0 := src.Rest(), src.n;
    var have: nat := 0;
    status := GO;
    NoLengths(cl, z, lens[..0]);
    while status == GO && have < total
      invariant have <= total && src.Valid() && src.n >= n0 && status != FULL
      invariant status == GO && old(src.bits) < 8 ==> src.bits < 8
      invariant status == GO ==> ValidLengths(lens[..have]) && LengthsAt(cl, z, lens[..have], src.n - n0)
      invariant status != GO && ClearCode(cl) ==> NoLengthsAt(cl, z, total, status == BAD, 8 * |src.input| - n0)
      decreases status == GO, total - have
    {
      ghost var m, before := src.n - n0, lens[..have];
      RestIs(src, z, n0, m);
      status, have := LengthSymbols(src, t, root, lens, have, total, cl);
      if status == GO {
        LengthsMore(cl, z, before, m, lens[..have], src.n - n0 - m);
      } else if ClearCode(cl) {
        Stuck(cl, z, before, m, total, status == BAD, 8 * |src.input| - n0);
      }
    }
  }

  lemma NoLengths(cl: seq<nat>, z: nat, lens: seq<nat>)
    requires lens == []
    ensures ValidLengths(lens) && LengthsAt(cl, z, lens, 0)
  {
  }

  lemma RestIs(src: Source, z: nat, n0: nat, m: nat)
    requires src.n == n0 + m && z == High(Stream(src.input), n0)
    ensures src.Rest() == High(z, m)
  {
    src.RestFrom(n0);
  }

  /** The code-length code, read and made into a table. */
  method LengthsTable(src: Source, lens: array<nat>, ncode: nat, ghost z: nat)
    returns (status: Status, t: seq<Code>, root: nat, ghost cl: seq<nat>)
    requires src.Valid() && src.Rest() == High(z, 14) && ncode == Low(High(z, 10), 4) + 4 <= 19
    requires lens.Length == 320
    modifies src, lens
    ensures src.Valid() && src.n >= old(src.n) && status != FULL
    ensures status == GO ==> src.n == old(src.n) + 3 * ncode && src.Rest() == High(z, 14 + 3 * ncode)
    ensures status == GO ==> CodeCodeFound(z, t, root, cl, 14 + 3 * ncode)
    ensures status == STARVED ==> old(src.n) + 3 * ncode > 8 * |src.input|
    ensures status == BAD ==> CodeCodeAt(z, cl, 14 + 3 * ncode) && ValidLengths(cl) && Refused(CODES, cl)
    ensures status == GO && old(src.bits) < 8 ==> src.bits < 8
  {
    hide Low, High, Sent, CodeCodeAt, Refused, Decodes, Pow2, Source.Valid, Stream;
    t, root, cl := [], 0, [];
    var ok := ReadCodeCode(src, lens, ncode, z);
    if !ok {
      status := STARVED;
    } else {
      ZeroCodeCode(lens, ncode, z);
      SentAll(z, lens[..], ncode);
      cl := lens[..19];
      assert lens[..][..19] == cl;
      var work, table := new nat[288], new Code[128];
      CodeSpace(cl);
      var ret, used;
      ret, used, root := Build(CODES, lens[..19], 7, work, table);
      if ret != 0 {
        status := BAD;
      } else {
        status := GO;
        t := table[..used];
      }
    }
  }

  lemma CodeSpace(cl: seq<nat>)
    requires |cl| == 19 && forall v :: 0 <= v < 19 ==> cl[v] <= 7
    ensures Space(CODES, cl, 7, 128) && ValidLengths(cl)
  {
    assert Pow2(4) == 16;
  }

  /** Tables for the lengths of a dynamic block. */
  method BlockTables(ll: seq<nat>, dl: seq<nat>) returns (ok: bool, t: Tables)
    requires ValidLengths(ll) && ValidLengths(dl) && |ll| <= 286 && |dl| <= 30
    ensures ok ==> !Refused(LENS, ll) && !Refused(DISTS, dl) && Ready(t, ll, dl)
    ensures !ok ==> Refused(LENS, ll) || Refused(DISTS, dl) || DoesNotFit(ll, dl)
  {
    hide Refused, Decodes, Kraft, ValidLengths, RootBits, Overflows;
    t := Tables([], 0, [], 0);
    var work := new nat[288];
    var table := new Code[ENOUGH_LENS];
    var ret, used, lenbits := Build(LENS, ll, 9, work, table);
    ok := ret == 0;
    if ok {
      AcceptedKraft(LENS, ll);
      var lcode := table[..used];
      var table' := new Code[ENOUGH_DISTS];
      var distbits;
      ret, used, distbits := Build(DISTS, dl, 6, work, table');
      ok := ret == 0;
      if ok {
        AcceptedKraft(DISTS, dl);
        t := Tables(lcode, lenbits, table'[..used], distbits);
      }
    }
  }

  /** The lengths of a header split into the two codes. */
  ghost predicate SplitTo(lens: seq<nat>, ll: seq<nat>, dl: seq<nat>)
  {
    && lens == ll + dl && |ll| >= 257 && ll[256] != 0 && ValidLengths(ll) && ValidLengths(dl)
    && !Refused(LENS, ll) && !Refused(DISTS, dl)
  }

  /** The lengths split into the two codes, and their tables. */
  method SplitLengths(lens: seq<nat>, nlen: nat)
    returns (ok: bool, t: Tables, ghost ll: seq<nat>, ghost dl: seq<nat>)
    requires 257 <= nlen <= 286 && nlen <= |lens| <= nlen + 30 && ValidLengths(lens)
    ensures lens == ll + dl && |ll| == nlen && ValidLengths(ll) && ValidLengths(dl)
    ensures ok ==> SplitTo(lens, ll, dl) && Ready(t, ll, dl)
    ensures !ok ==> ll[256] == 0 || Refused(LENS, ll) || Refused(DISTS, dl) || DoesNotFit(ll, dl)
  {
    ll, dl := lens[..nlen], lens[nlen..];
    assert ll + dl == lens;
    ValidParts(ll, dl);
    hide ValidLengths, Refused, Ready, DoesNotFit;
    if lens[256] == 0 {
      ok, t := false, Tables([], 0, [], 0);
    } else {
      ok, t := BlockTables(lens[..nlen], lens[nlen..]);
    }
  }

  lemma ValidParts(a: seq<nat>, b: seq<nat>)
    requires ValidLengths(a + b)
    ensures ValidLengths(a) && ValidLengths(b)
  {
    forall i | 0 <= i < |a| ensures a[i] <= MAXBITS { assert a[i] == (a + b)[i]; }
    forall i | 0 <= i < |b| ensures b[i] <= MAXBITS { assert b[i] == (a + b)[|a| + i]; }
  }

  /** The header of a dynamic block. */
  method Header(src: Source) returns (status: Status, t: Tables, ghost ll: seq<nat>, ghost dl: seq<nat>)
    requires src.Valid()
    modifies src
    ensures src.Valid() && src.n >= old(src.n) && status != FULL
    ensures status == GO ==> HeaderAt(old(src.Rest()), ll, dl, src.n - old(src.n)) && Ready(t, ll, dl)
    ensures status != GO ==>
              NoHeader(old(src.Rest()), status == BAD, 8 * |src.input| - old(src.n)) || BigHeader(old(src.Rest()))
    ensures status == GO && old(src.bits) < 8 ==> src.bits < 8
  {
    hide *;
    ghost var z := src.Rest();
    t, ll, dl := Tables([], 0, [], 0), [], [];
    ghost var r := 8 * |src.input| - src.n;
    var ok, nlen, ndist, ncode := Sizes(src);
    if !ok {
      status := STARVED;
      ShortHeader(z, r);
    } else if nlen > 286 || ndist > 30 {
      status := BAD;
      LargeHeader(z, r);
    } else {
      SizesFound(z, nlen, ndist);
      var lens := new nat[320];
      status, t, ll, dl := Codes(src, lens, nlen, ndist, ncode, z);
    }
  }

  /** Too few bits for the sizes and the code-length code. */
  lemma ShortHeader(z: nat, r: int)
    requires 14 + 3 * (Low(High(z, 10), 4) + 4) > r
    ensures NoHeader(z, false, r)
  {
    hide HeaderAt, Low, High;
    forall ll: seq<nat>, dl: seq<nat>, n: nat | HeaderAt(z, ll, dl, n) ensures n > r { HeaderTakes(z, ll, dl, n); }
  }

  /** Too many lengths. */
  lemma LargeHeader(z: nat, r: int)
    requires Low(z, 5) + 257 > 286 || Low(High(z, 5), 5) + 1 > 30
    ensures NoHeader(z, true, r)
  {
    hide HeaderAt, Low, High;
    forall ll: seq<nat>, dl: seq<nat>, n: nat ensures !HeaderAt(z, ll, dl, n) {
      if HeaderAt(z, ll, dl, n) { HeaderTakes(z, ll, dl, n); }
    }
  }

  /** The lengths do not make two codes, or not two codes whose tables fit. */
  lemma BadLengths(z: nat, ct: seq<Code>, root: nat, cl: seq<nat>, q: nat, m: nat, all: seq<nat>, ll: seq<nat>,
                   dl: seq<nat>, r: int)
    requires SizesAt(z, |ll|, |dl|) && all == ll + dl && ValidLengths(ll) && ValidLengths(dl)
    requires CodeCodeFound(z, ct, root, cl, q) && LengthsAt(cl, High(z, q), all, m)
    requires |ll| > 256 && (ll[256] == 0 || Refused(LENS, ll) || Refused(DISTS, dl) || DoesNotFit(ll, dl))
    ensures NoHeader(z, true, r) || BigHeader(z)
  {
    hide HeaderAt, LengthsAt, CodeCodeAt, Decodes, Refused, Low, High, ValidLengths, DoesNotFit;
    if exists ll': seq<nat>, dl': seq<nat>, n: nat :: HeaderAt(z, ll', dl', n) {
      var ll': seq<nat>, dl': seq<nat>, n: nat :| HeaderAt(z, ll', dl', n);
      HeaderIs(z, ll', dl', n, cl, q, ll, dl, m);
    }
  }

  /** The table sizes in a header. */
  ghost predicate SizesAt(z: nat, nlen: nat, ndist: nat)
  {
    nlen == Low(z, 5) + 257 <= 286 && ndist == Low(High(z, 5), 5) + 1 <= 30
  }

  lemma SizesFound(z: nat, nlen: nat, ndist: nat)
    requires nlen == Low(z, 5) + 257 <= 286 && ndist == Low(High(z, 5), 5) + 1 <= 30
    ensures SizesAt(z, nlen, ndist)
  {
    hide Low, High;
  }

  lemma SizesRange(z: nat, nlen: nat, ndist: nat)
    requires SizesAt(z, nlen, ndist)
    ensures 257 <= nlen <= 286 && ndist <= 30
  {
  }

  /** The code-length code in a header, with its table. */
  ghost predicate CodeCodeFound(z: nat, t: seq<Code>, root: nat, cl: seq<nat>, q: nat)
  {
    && |cl| == 19 && ValidLengths(cl) && !Refused(CODES, cl) && CodeCodeAt(z, cl, q)
    && root <= MAXBITS && Decodes(t, root, CODES, cl)
  }

  /** The rest of the header, after the table sizes. */
  method Codes(src: Source, lens: array<nat>, nlen: nat, ndist: nat, ncode: nat, ghost z: nat)
    returns (status: Status, t: Tables, ghost ll: seq<nat>, ghost dl: seq<nat>)
    requires src.Valid() && src.Rest() == High(z, 14) && lens.Length == 320
    requires SizesAt(z, nlen, ndist) && ncode == Low(High(z, 10), 4) + 4 <= 19
    modifies src, lens
    ensures src.Valid() && src.n >= old(src.n) && status != FULL
    ensures status == GO ==> HeaderAt(z, ll, dl, 14 + src.n - old(src.n)) && Ready(t, ll, dl)
    ensures status != GO ==> NoHeader(z, status == BAD, 8 * |src.input| - old(src.n) + 14) || BigHeader(z)
    ensures status == GO && old(src.bits) < 8 ==> src.bits < 8
  {
    hide *;
    t, ll, dl := Tables([], 0, [], 0), [], [];
    var ct, root;
    ghost var cl;
    ghost var r := 8 * |src.input| - src.n + 14;
    status, ct, root, cl := LengthsTable(src, lens, ncode, z);
    if status == STARVED {
      ShortHeader(z, r);
    } else if status == BAD {
      RefusedCodeCode(z, cl, 14 + 3 * ncode, r);
    } else {
      status, t, ll, dl := CodesFrom(src, ct, root, lens, nlen, ndist, z, cl, 14 + 3 * ncode);
    }
  }

  /** Read the lengths of the two codes and make their tables. */
  method CodesFrom(src: Source, ct: seq<Code>, root: nat, lens: array<nat>, nlen: nat, ndist: nat,
                   ghost z: nat, ghost cl: seq<nat>, ghost q: nat)
    returns (status: Status, t: Tables, ghost ll: seq<nat>, ghost dl: seq<nat>)
    requires src.Valid() && src.Rest() == High(z, q) && lens.Length == 320
    requires SizesAt(z, nlen, ndist) && CodeCodeFound(z, ct, root, cl, q)
    modifies src, lens
    ensures src.Valid() && src.n >= old(src.n) && status != FULL
    ensures status == GO ==> HeaderAt(z, ll, dl, q + src.n - old(src.n)) && Ready(t, ll, dl)
    ensures status != GO ==> NoHeader(z, status == BAD, 8 * |src.input| - old(src.n) + q) || BigHeader(z)
    ensures status == GO && old(src.bits) < 8 ==> src.bits < 8
  {
    hide *;
    t, ll, dl := Tables([], 0, [], 0), [], [];
    SizesRange(z, nlen, ndist);
    ghost var r := 8 * |src.input| - src.n + q;
    var all;
    status, all := AllLengths(src, ct, root, lens, nlen + ndist, z, cl, q);
    if status == GO {
      var ok;
      ok, t, ll, dl := SplitLengths(all, nlen);
      if ok {
        HeaderFound(z, ct, root, cl, q, src.n - old(src.n), all, ll, dl);
      } else {
        status := BAD;
        BadLengths(z, ct, root, cl, q, src.n - old(src.n), all, ll, dl, r);
      }
    } else {
      NoSuchLengths(z, ct, root, cl, q, nlen, ndist, status == BAD, r);
    }
  }

  lemma NoSuchLengths(z: nat, ct: seq<Code>, root: nat, cl: seq<nat>, q: nat, nlen: nat, ndist: nat, bad: bool, r: int)
    requires SizesAt(z, nlen, ndist) && CodeCodeFound(z, ct, root, cl, q)
    requires ClearCode(cl) ==> NoLengthsAt(cl, High(z, q), nlen + ndist, bad, r - q)
    ensures NoHeader(z, bad, r)
  {
    hide CodeCodeAt, Decodes, Refused, ValidLengths, ClearCode, NoLengthsAt, NoHeader, Low, High;
    StuckHeader(z, cl, q, nlen + ndist, bad, r);
  }

  method AllLengths(src: Source, ct: seq<Code>, root: nat, lens: array<nat>, total: nat,
                    ghost z: nat, ghost cl: seq<nat>, ghost q: nat)
    returns (status: Status, all: seq<nat>)
    requires src.Valid() && src.Rest() == High(z, q) && total <= lens.Length && CodeCodeFound(z, ct, root, cl, q)
    modifies src, lens
    ensures src.Valid() && src.n >= old(src.n) && status != FULL && |all| == total
    ensures status == GO ==> ValidLengths(all) && LengthsAt(cl, High(z, q), all, src.n - old(src.n))
    ensures status != GO && ClearCode(cl) ==>
              NoLengthsAt(cl, High(z, q), total, status == BAD, 8 * |src.input| - old(src.n))
    ensures status == GO && old(src.bits) < 8 ==> src.bits < 8
  {
    hide Source.Valid, CodeCodeAt, ValidLengths, Refused, Decodes, LengthsAt, Low, High, ClearCode, NoLengthsAt;
    status := ReadLengths(src, ct, root, lens, total, cl);
    all := lens[..total];
  }

  lemma HeaderFound(z: nat, ct: seq<Code>, root: nat, cl: seq<nat>, q: nat, m: nat, all: seq<nat>, ll: seq<nat>,
                    dl: seq<nat>)
    requires SizesAt(z, |ll|, |dl|) && SplitTo(all, ll, dl)
    requires CodeCodeFound(z, ct, root, cl, q) && LengthsAt(cl, High(z, q), all, m)
    ensures HeaderAt(z, ll, dl, q + m)
  {
    hide Low, High, CodeCodeAt, LengthsAt, Refused, ValidLengths;
    assert HeaderWith(z, cl, q, m, ll, dl, q + m);
  }

  // ---------------------------------------------------------------- the fixed codes

  /** With the root index as wide as the longest code there are no sub-tables and nothing overflows. */
  lemma FixedFits(kind: CodeType, lens: seq<nat>, bits: nat, root: nat)
    requires ValidLengths(lens) && IsMax(lens, bits) && 1 <= bits <= MAXBITS && !TooLarge(kind, Pow2(bits))
    requires Kraft(lens) == Pow2(MAXBITS)
    ensures SomeCode(lens) && !Refused(kind, lens) && Space(kind, lens, bits, Pow2(bits))
    ensures RootBits(lens, bits, root) ==> root == bits && !Overflows(kind, lens, root)
  {
    var s := SymbolAt(lens, bits, 0);
    assert Pow2(bits) >= 2;
    OnlyRoot(lens, bits);
  }

  lemma FixedMax()
    ensures IsMax(FixedLengths(), 9) && IsMax(FixedDistances(), 5)
  {
    CountPositive(FixedLengths(), 144);
    CountPositive(FixedDistances(), 0);
  }

  /** The lengths of the fixed codes. */
  method FixedCodes() returns (ll: seq<nat>, dl: seq<nat>)
    ensures ll == FixedLengths() && dl == FixedDistances()
  {
    var lens := new nat[320];
    Fill(lens, 0, 8, 144);
    Fill(lens, 144, 9, 112);
    Fill(lens, 256, 7, 24);
    Fill(lens, 280, 8, 8);
    ll := lens[..288];
    Fill(lens, 0, 5, 32);
    dl := lens[..32];
  }

  /** The tables of the fixed codes, built by inflate_table. */
  method FixedTables() returns (t: Tables)
    ensures Ready(t, FixedLengths(), FixedDistances())
  {
    hide Decodes, Kraft, ValidLengths, Pow2, IsMax, Ready, FixedLengths, FixedDistances;
    var ll, dl := FixedCodes();
    FixedComplete();
    FixedMax();
    SmallPowers();
    var lcode := FixedTable(LENS, ll, 9);
    var dcode := FixedTable(DISTS, dl, 5);
    t := Tables(lcode, 9, dcode, 5);
    CompleteReady(t, ll, dl);
  }

  lemma CompleteReady(t: Tables, ll: seq<nat>, dl: seq<nat>)
    requires ValidLengths(ll) && ValidLengths(dl) && |ll| <= 288 && |dl| <= 32
    requires Kraft(ll) == Pow2(MAXBITS) && Kraft(dl) == Pow2(MAXBITS) && t.lenbits <= MAXBITS && t.distbits <= MAXBITS
    requires Decodes(t.lcode, t.lenbits, LENS, ll) && Decodes(t.dcode, t.distbits, DISTS, dl)
    ensures Ready(t, ll, dl)
  {
    hide Decodes, Kraft, ValidLengths;
  }

  method FixedTable(kind: CodeType, lens: seq<nat>, bits: nat) returns (t: seq<Code>)
    requires |lens| <= MaxSymbols(kind) && ValidLengths(lens) && Kraft(lens) == Pow2(MAXBITS)
    requires IsMax(lens, bits) && 1 <= bits <= MAXBITS && !TooLarge(kind, Pow2(bits))
    ensures Decodes(t, bits, kind, lens)
  {
    hide *;
    var work := new nat[|lens|];
    var table := new Code[Pow2(bits)];
    FixedFits(kind, lens, bits, 0);
    var ret, used, root := Build(kind, lens, bits, work, table);
    FixedFits(kind, lens, bits, root);
    t := table[..used];
  }
}
