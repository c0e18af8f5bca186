/** When a dynamic header may be refused: it cannot be completed within the bits there are, or a code needs more table
    space than there is. */
module DeflateRefusal {
  import opened Common
  import opened Bits
  import opened Huffman
  import opened DecodeTable
  import opened Lz77
  import opened BlockData
  import opened DeflateFormat
  import opened InflateTable
  import opened DeflateUnique

  /** A reading that would end at bit n is out of the question: the data is bad, or there are only r bits. */
  predicate Past(bad: bool, n: int, r: int)
  {
    !bad && n > r
  }

  /** No step from the lengths read so far that stays within total lengths. */
  ghost predicate NoStep(cl: seq<nat>, z: nat, prev: seq<nat>, total: nat, bad: bool, r: int)
  {
    forall lens: seq<nat>, n: nat :: LengthStep(cl, z, prev, lens, n) && |lens| <= total ==> Past(bad, n, r)
  }

  ghost predicate NoLengthsAt(cl: seq<nat>, z: nat, total: nat, bad: bool, r: int)
  {
    forall lens: seq<nat>, n: nat :: |lens| == total && LengthsAt(cl, z, lens, n) ==> Past(bad, n, r)
  }

  /** The step after the first j of k. */
  lemma {:induction false} AfterNext(cl: seq<nat>, z: nat, j: nat, a: seq<nat>, n: nat, k: nat, b: seq<nat>, m: nat)
    returns (lens: seq<nat>, c: nat)
    requires ClearCode(cl) && LengthsAfter(cl, z, j, a, n) && LengthsAfter(cl, z, k, b, m) && j < k
    ensures |lens| <= |b| && n + c <= m && LengthStep(cl, High(z, n), a, lens, c)
    decreases k
  {
    hide *;
    var b', m' := AfterPrev(cl, z, k, b, m);
    StepUnique(cl, High(z, m'), b', b, m - m', b, m - m');
    if j < k - 1 {
      lens, c := AfterNext(cl, z, j, a, n, k - 1, b', m');
    } else {
      AfterUnique(cl, z, j, a, n, b', m');
      lens, c := b, m - m';
    }
  }

  /** If no step leads on, the lengths cannot be completed. */
  lemma Stuck(cl: seq<nat>, z: nat, prev: seq<nat>, m: nat, total: nat, bad: bool, r: int)
    requires ClearCode(cl) && LengthsAt(cl, z, prev, m) && |prev| < total
    requires NoStep(cl, High(z, m), prev, total, bad, r - m)
    ensures NoLengthsAt(cl, z, total, bad, r)
  {
    hide ClearCode, LengthsAt, LengthStep, LengthsAfter, High;
    forall lens: seq<nat>, n: nat | |lens| == total && LengthsAt(cl, z, lens, n) ensures Past(bad, n, r) {
      var j := LengthsCount(cl, z, prev, m);
      var k := LengthsCount(cl, z, lens, n);
      if k < j { AfterGrows(cl, z, k, lens, n, j, prev, m); }
      if k == j { AfterUnique(cl, z, j, prev, m, lens, n); }
      var next, c := AfterNext(cl, z, j, prev, m, k, lens, n);
    }
  }

  ghost predicate NoHeader(z: nat, bad: bool, r: int)
  {
    forall ll: seq<nat>, dl: seq<nat>, n: nat :: HeaderAt(z, ll, dl, n) ==> Past(bad, n, r)
  }

  /** A code whose table takes more entries than ENOUGH_LENS or ENOUGH_DISTS. */
  ghost predicate DoesNotFit(ll: seq<nat>, dl: seq<nat>)
  {
    || (exists root: nat :: RootBits(ll, 9, root) && Overflows(LENS, ll, root))
    || (exists root: nat :: RootBits(dl, 6, root) && Overflows(DISTS, dl, root))
  }

  /** A valid header with such codes. */
  ghost predicate BigHeader(z: nat)
  {
    exists ll: seq<nat>, dl: seq<nat>, n: nat :: HeaderAt(z, ll, dl, n) && DoesNotFit(ll, dl)
  }

  /** A header takes 14 bits for the sizes and three for each code-length code length sent. */
  lemma HeaderTakes(z: nat, ll: seq<nat>, dl: seq<nat>, n: nat)
    requires HeaderAt(z, ll, dl, n)
    ensures Low(z, 5) + 257 <= 286 && Low(High(z, 5), 5) + 1 <= 30
    ensures 14 + 3 * (Low(High(z, 10), 4) + 4) <= n
  {
    hide Low, High, LengthsAt, ValidLengths, Refused;
    var cl, q, m := HeaderParts(z, ll, dl, n);
  }

  /** The code-length code of a header is the one found. */
  lemma HeaderCodeIs(z: nat, ll: seq<nat>, dl: seq<nat>, n: nat, cl: seq<nat>, q: nat) returns (m: nat)
    requires HeaderAt(z, ll, dl, n) && CodeCodeAt(z, cl, q)
    ensures HeaderWith(z, cl, q, m, ll, dl, n) && ClearCode(cl)
  {
    hide *;
    var cl', q', m' := HeaderParts(z, ll, dl, n);
    HeaderClear(z, cl', q', m', ll, dl, n);
    HeaderFields(z, cl', q', m', ll, dl, n);
    CodeCodeUnique(z, cl, q, cl', q');
    m := m';
  }

  /** A refused code-length code. */
  lemma RefusedCodeCode(z: nat, cl: seq<nat>, q: nat, r: int)
    requires CodeCodeAt(z, cl, q) && ValidLengths(cl) && Refused(CODES, cl)
    ensures NoHeader(z, true, r)
  {
    hide HeaderAt, CodeCodeAt, ClearCode, Refused;
    forall ll: seq<nat>, dl: seq<nat>, n: nat ensures !HeaderAt(z, ll, dl, n) {
      if HeaderAt(z, ll, dl, n) { var m := HeaderCodeIs(z, ll, dl, n, cl, q); }
    }
  }

  /** Lengths that cannot be completed. */
  lemma StuckHeader(z: nat, cl: seq<nat>, q: nat, total: nat, bad: bool, r: int)
    requires CodeCodeAt(z, cl, q) && total == Low(z, 5) + 257 + Low(High(z, 5), 5) + 1
    requires ClearCode(cl) ==> NoLengthsAt(cl, High(z, q), total, bad, r - q)
    ensures NoHeader(z, bad, r)
  {
    hide HeaderAt, CodeCodeAt, ClearCode, LengthsAt, Low, High, HeaderWith;
    forall ll: seq<nat>, dl: seq<nat>, n: nat | HeaderAt(z, ll, dl, n) ensures Past(bad, n, r) {
      var m := HeaderCodeIs(z, ll, dl, n, cl, q);
      HeaderFields(z, cl, q, m, ll, dl, n);
      assert |ll + dl| == total;
    }
  }

  /** The lengths of a header are those read. */
  lemma HeaderIs(z: nat, ll: seq<nat>, dl: seq<nat>, n: nat, cl: seq<nat>, q: nat, ll': seq<nat>, dl': seq<nat>,
                 m': nat)
    requires HeaderAt(z, ll, dl, n) && CodeCodeAt(z, cl, q) && LengthsAt(cl, High(z, q), ll' + dl', m')
    requires |ll'| == Low(z, 5) + 257 && |dl'| == Low(High(z, 5), 5) + 1
    ensures ll == ll' && dl == dl' && HeaderWith(z, cl, q, m', ll, dl, n)
  {
    hide *;
    var m := HeaderCodeIs(z, ll, dl, n, cl, q);
    HeaderFields(z, cl, q, m, ll, dl, n);
    LengthsUnique(cl, High(z, q), ll + dl, m, ll' + dl', m');
    assert ll == (ll + dl)[..|ll|] && dl == (ll + dl)[|ll|..] && ll' == (ll' + dl')[..|ll|]
      && dl' == (ll' + dl')[|ll|..];
  }
}
