/** The input side of inflateBack: the bit macros, over the bytes that in() delivers until it has no more. */
module BitSource {
  import opened Bits
  import opened Huffman
  import opened DecodeTable
  import opened Lz77
  import opened BitReader

  /** How a phase ended: go on, invalid data, no more input, or out() failed. */
  datatype Status = GO | BAD | STARVED | FULL

  class Source {
    /** All bytes that in() delivers. */
    const input: seq<byte>
    /** Whether it delivers them in one piece; otherwise one buffer may end and the next begin anywhere. */
    const whole: bool
    var hold: nat
    var bits: nat
    var i: nat
    /** Bits consumed so far. */
    ghost var n: nat

    ghost predicate Valid()
      reads this
    {
      i <= |input| && bits <= 32 && Held(Stream(input), 0, n, i, hold, bits)
    }

    /** The stream from the current position on. */
    ghost function Rest(): nat
      reads this`n
    {
      High(Stream(input), n)
    }

    lemma RestHere()
      ensures Rest() == High(Stream(input), n)
    {
    }

    lemma Counted()
      requires Valid()
      ensures n + bits == 8 * i && bits <= 32
    {
    }

    /** At the end of the input, the held bits are all there is. */
    lemma AllHeld()
      requires Valid() && i == |input|
      ensures Rest() == hold && n + bits == 8 * |input|
    {
      hide Low, High;
      HighNone(Stream(input));
      Unread(Stream(input), 0, n, i, hold, bits, input);
      assert input[i..] == [];
      SplitWord(Rest(), bits);
      ShlZero(bits);
    }

    /** The held bits and the bytes not yet read are what is left of the stream. */
    lemma RestWhole()
      requires Valid()
      ensures Rest() == Whole(hold, bits, input[i..]) && hold < Pow2(bits) && i <= |input|
    {
      hide Low, High, Shl, Pow2, Stream;
      HighNone(Stream(input));
      Unread(Stream(input), 0, n, i, hold, bits, input);
      SplitWord(Rest(), bits);
    }

    /** LOAD() after a routine that has consumed k bits and fetched some bytes. */
    method Load(hold': nat, bits': nat, fetched: nat, ghost k: nat)
      requires Valid() && i + fetched <= |input| && bits' <= 32
      requires k + bits' == bits + 8 * fetched && hold' == Low(High(Rest(), k), bits')
      modifies this`hold, this`bits, this`i, this`n
      ensures Valid() && n == old(n) + k && bits == bits'
    {
      hide Low, High, Stream;
      HighHigh(Stream(input), n, k);
      hold, bits, i, n := hold', bits', i + fetched, n + k;
    }

    /** Consuming bits moves the stream on. */
    lemma RestFrom(n0: nat)
      requires n0 <= n
      ensures Rest() == High(High(Stream(input), n0), n - n0)
    {
      HighHigh(Stream(input), n0, n - n0);
    }

    /** No more bits are consumed than there are. */
    lemma Bounded()
      requires Valid()
      ensures n <= 8 * |input|
    {
    }

    constructor (bytes: seq<byte>, whole: bool)
      ensures Valid() && input == bytes && this.whole == whole && n == 0 && bits == 0
    {
      input := bytes;
      this.whole := whole;
      hold, bits, i, n := 0, 0, 0, 0;
      new;
      assert Held(Stream(input), 0, n, i, hold, bits);
    }

    method PullByte() returns (ok: bool)
      requires Valid() && bits <= 24
      modifies this`hold, this`bits, this`i
      ensures Valid() && (ok <==> old(i) < |input|)
      ensures ok ==> bits == old(bits) + 8 && i == old(i) + 1
      ensures !ok ==> bits == old(bits) && i == old(i) && hold == old(hold)
    {
      ok := i < |input|;
      if ok {
        BitReader.PullByte(Stream(input), 0, n, i, hold, bits, input);
        hold := hold + Shl(input[i], bits);
        bits := bits + 8;
        i := i + 1;
      }
    }

    /** The register has room for all bytes pulled on the way to k bits. */
    static predicate Fits(k: nat, bits: nat)
    {
      k <= 25 || (k == 32 && bits % 8 == 0)
    }

    static lemma WordFits(bits: nat)
      requires bits % 8 == 0
      ensures Fits(32, bits)
    {
    }

    static lemma ByteFits(k: nat, bits: nat)
      requires Fits(k, bits) && bits < k
      ensures bits <= 24 && Fits(k, bits + 8)
    {
    }

    /** NEEDBITS(k): fails only when the input has run out. The register has 32 bits. */
    method NeedBits(k: nat) returns (ok: bool)
      requires Valid() && Fits(k, bits)
      modifies this`hold, this`bits, this`i
      ensures Valid() && bits >= old(bits)
      ensures ok ==> k <= bits
      ensures !ok ==> i == |input| && bits < k && n + k > 8 * |input|
      ensures bits == old(bits) || bits < k + 8
    {
      hide *;
      InRange();
      ok := true;
      while ok && bits < k
        invariant Valid() && bits >= old(bits) && Fits(k, bits)
        invariant bits == old(bits) || bits < k + 8
        invariant !ok ==> i == |input| && bits < k
        decreases ok, |input| - i
      {
        ByteFits(k, bits);
        ok := PullByte();
        InRange();
      }
      Counted();
    }

    /** BITS(k). */
    method Peek(k: nat) returns (x: nat)
      requires Valid() && k <= bits
      ensures x == Low(Rest(), k)
    {
      PeekBits(Stream(input), 0, n, i, hold, bits, k);
      x := Low(hold, k);
    }

    /** DROPBITS(k). */
    method Drop(k: nat)
      requires Valid() && k <= bits
      modifies this`hold, this`bits, this`n
      ensures Valid() && n == old(n) + k && bits == old(bits) - k && Rest() == High(old(Rest()), k)
    {
      DropBits(Stream(input), 0, n, i, hold, bits, k);
      HighHigh(Stream(input), n, k);
      hold := High(hold, k);
      bits := bits - k;
      n := n + k;
    }

    /** NEEDBITS(k), BITS(k), DROPBITS(k). */
    method Take(k: nat) returns (ok: bool, x: nat)
      requires Valid() && k <= 25
      modifies this
      ensures Valid()
      ensures ok ==> n == old(n) + k && x == Low(old(Rest()), k) && Rest() == High(old(Rest()), k)
      ensures !ok ==> n == old(n) && n + k > 8 * |input|
      ensures ok && old(bits) < 8 ==> bits < 8
    {
      x := 0;
      ok := NeedBits(k);
      if ok {
        x := Peek(k);
        Drop(k);
      }
    }

    /** BYTEBITS(): drop to the next byte boundary of the stream. */
    method ByteBits()
      requires Valid()
      modifies this`hold, this`bits, this`n
      ensures Valid() && bits % 8 == 0 && n % 8 == 0 && old(n) <= n < old(n) + 8 && bits <= old(bits)
    {
      hide Low, High, Stream;
      Drop(bits % 8);
    }

    /** Take k whole bytes at a byte boundary, bypassing the register. */
    method TakeBytes(k: nat) returns (bs: seq<byte>)
      requires Valid() && bits == 0 && i + k <= |input|
      modifies this`i, this`n
      ensures Valid() && n == old(n) + 8 * k && i == old(i) + k && bs == input[old(i)..i]
      ensures old(n) == 8 * old(i)
    {
      bs := input[i..i + k];
      i := i + k;
      n := n + 8 * k;
      assert Low(High(Stream(input), n), 0) == 0;
    }

    /** The root entry, pulling bytes until it needs no more bits than are held. */
    method RootEntry(t: seq<Code>, root: nat, ghost kind: CodeType, ghost lens: seq<nat>) returns (ok: bool, here: Code)
      requires Valid() && root <= MAXBITS && |lens| <= MaxSymbols(kind) && ValidLengths(lens)
      requires Decodes(t, root, kind, lens)
      modifies this`hold, this`bits, this`i
      ensures Valid()
      ensures ok ==> Low(hold, root) < |t| && here == t[Low(hold, root)] && here.bits <= bits
      ensures !ok ==> i == |input| && Low(hold, root) < |t| && t[Low(hold, root)].bits > bits
      ensures bits == old(bits) || Needed(t, root)
    {
      hide High, Low, Decodes, ValidLengths, Held, Lookup;
      here := Code(64, 1, 0);
      ok := true;
      var searching := true;
      while ok && searching
        invariant Valid()
        invariant !ok ==> i == |input| && Low(hold, root) < |t| && t[Low(hold, root)].bits > bits
        invariant ok && !searching ==> Low(hold, root) < |t| && here == t[Low(hold, root)] && here.bits <= bits
        invariant bits == old(bits) || Needed(t, root)
        decreases ok, searching, |input| - i
      {
        Total(t, root, kind, lens, hold);
        here := t[Low(hold, root)];
        if here.bits <= bits {
          searching := false;
        } else {
          DropAtLeast(t, root, hold);
          HeldLow();
          Undecided(t, root, kind, lens, Rest(), bits);
          ok := PullByte();
        }
      }
    }

    /** The last byte pulled was needed to decide the entry. */
    ghost predicate Needed(t: seq<Code>, root: nat)
      reads this`n, this`bits
    {
      Lookup(t, root, Rest()).Hit? && Lookup(t, root, Rest()).drop + 8 > bits
    }

    /** The entry that a link leads to, likewise. The bits that chose the link stay the same. */
    method LinkedEntry(t: seq<Code>, root: nat, last: Code, ghost kind: CodeType, ghost lens: seq<nat>)
      returns (ok: bool, here: Code)
      requires Valid() && root <= MAXBITS && |lens| <= MaxSymbols(kind) && ValidLengths(lens)
      requires Decodes(t, root, kind, lens)
      requires Low(hold, root) < |t| && t[Low(hold, root)] == last && IsLink(last) && last.bits == root <= bits
      modifies this`hold, this`bits, this`i
      ensures Valid()
      ensures ok ==> Lookup(t, root, hold) == Hit(here, root + here.bits) && root + here.bits <= bits
      ensures !ok ==> i == |input| && Lookup(t, root, hold) == Hit(here, root + here.bits) && root + here.bits > bits
      ensures bits == old(bits) || Needed(t, root)
    {
      hide *;
      ghost var z := Rest();
      here := Code(64, 1, 0);
      ok := true;
      var searching := true;
      while ok && searching
        invariant Valid() && root <= bits && Low(hold, root) < |t| && t[Low(hold, root)] == last
        invariant ok && !searching ==> Lookup(t, root, hold) == Hit(here, root + here.bits) && root + here.bits <= bits
        invariant !ok ==>
                  i == |input| && Lookup(t, root, hold) == Hit(here, root + here.bits) && root + here.bits > bits
        invariant (bits == old(bits) || Needed(t, root)) && Rest() == z
        decreases ok, searching, |input| - i
      {
        Total(t, root, kind, lens, hold);
        LinkTo(t, root, hold);
        here := t[last.val + Low(High(hold, last.bits), last.op)];
        if last.bits + here.bits <= bits {
          searching := false;
        } else {
          HeldLow();
          InRange();
          LowLow(z, root, bits);
          Undecided(t, root, kind, lens, z, bits);
          ok := PullByte();
          HeldLow();
          LowLow(z, root, bits);
          NeededIf(t, root);
        }
      }
    }

    lemma InRange()
      requires Valid()
      ensures i <= |input|
    {
    }

    lemma NeededIf(t: seq<Code>, root: nat)
      ensures Needed(t, root) <==> Lookup(t, root, Rest()).Hit? && Lookup(t, root, Rest()).drop + 8 > bits
    {
    }

    /** Look a code up while the bits arrive: the entry is taken as soon as it needs no more bits than are
        held. It is the entry that the whole stream would give. */
    method GetCode(t: seq<Code>, root: nat, ghost kind: CodeType, ghost lens: seq<nat>)
      returns (ok: bool, here: Code, ghost k: nat)
      requires Valid() && root <= MAXBITS && |lens| <= MaxSymbols(kind) && ValidLengths(lens)
      requires Decodes(t, root, kind, lens)
      modifies this
      ensures Valid()
      ensures ok ==> Lookup(t, root, old(Rest())) == Hit(here, k) && n == old(n) + k && Rest() == High(old(Rest()), k)
      ensures !ok ==>
                n == old(n) && Lookup(t, root, old(Rest())).Hit? && n + Lookup(t, root, old(Rest())).drop > 8 * |input|
      ensures ok && old(bits) < 8 ==> bits < 8
    {
      hide *;
      ghost var z, b0 := Rest(), bits;
      k := 0;
      Total(t, root, kind, lens, z);
      ok, here := RootEntry(t, root, kind, lens);
      NeededIf(t, root);
      if !ok {
        AllHeld();
        DropAtLeast(t, root, z);
      } else {
        Total(t, root, kind, lens, hold);
        var last := here;
        if IsLink(here) {
          ok, here := LinkedEntry(t, root, last, kind, lens);
          NeededIf(t, root);
          k := root + here.bits;
        } else {
          NoLink(t, root, hold);
          k := here.bits;
        }
        if !ok {
          AllHeld();
        } else {
          HeldLow();
          Stable(t, root, kind, lens, z, bits, here, k);
          if IsLink(last) { Skip(last.bits, here.bits); } else { Drop(here.bits); }
        }
      }
    }

    lemma HeldLow()
      requires Valid()
      ensures hold == Low(Rest(), bits)
    {
    }

    /** DROPBITS twice. */
    method Skip(a: nat, b: nat)
      requires Valid() && a + b <= bits
      modifies this`hold, this`bits, this`n
      ensures Valid() && n == old(n) + a + b && Rest() == High(old(Rest()), a + b) && bits == old(bits) - a - b
    {
      hide *;
      HighHigh(Rest(), a, b);
      Drop(a);
      Drop(b);
    }
  }

  /** What a link leads to. */
  lemma LinkTo(t: seq<Code>, root: nat, z: nat)
    requires Low(z, root) < |t| && IsLink(t[Low(z, root)]) && Lookup(t, root, z).Hit?
    ensures var last := t[Low(z, root)];
            var x := last.val + Low(High(z, last.bits), last.op);
            x < |t| && Lookup(t, root, z) == Hit(t[x], last.bits + t[x].bits)
  {
    hide Low, High;
  }

  lemma NoLink(t: seq<Code>, root: nat, z: nat)
    requires Low(z, root) < |t| && !IsLink(t[Low(z, root)])
    ensures Lookup(t, root, z) == Hit(t[Low(z, root)], t[Low(z, root)].bits)
  {
    hide Low, High;
  }

  /** A lookup drops at least the bits of the root entry. */
  lemma DropAtLeast(t: seq<Code>, root: nat, z: nat)
    requires Low(z, root) < |t| && Lookup(t, root, z).Hit?
    ensures Lookup(t, root, z).drop >= t[Low(z, root)].bits
  {
    hide Low, High;
  }

  /** Every lookup in a decoding table succeeds. */
  lemma Total(t: seq<Code>, root: nat, kind: CodeType, lens: seq<nat>, z: nat)
    requires |lens| <= MaxSymbols(kind) && ValidLengths(lens) && Decodes(t, root, kind, lens)
    ensures Lookup(t, root, z).Hit? && Lookup(t, root, z).drop <= MAXBITS
    ensures Low(z, root) < |t| && (IsLink(t[Low(z, root)]) ==> t[Low(z, root)].bits == root)
  {
    if !NoMatch(lens, z) {
      var s :| 0 <= s < |lens| && Matches(lens, s, z);
    }
    assert LinkDrops(t, root, z);
  }

  /** A lookup that needs no more bits than are held gives the same result on any longer stream. */
  lemma Stable(t: seq<Code>, root: nat, kind: CodeType, lens: seq<nat>, z: nat, bits: nat, e: Code, k: nat)
    requires |lens| <= MaxSymbols(kind) && ValidLengths(lens) && Decodes(t, root, kind, lens)
    requires Lookup(t, root, Low(z, bits)) == Hit(e, k) && k <= bits
    ensures Lookup(t, root, z) == Hit(e, k)
  {
    hide *;
    var y := Low(z, bits);
    if NoMatch(lens, y) {
      NoMatchAt(t, root, kind, lens, y);
      LowLow(z, 1, bits);
      SameMarker(t, y, z);
    } else {
      var s := MatchAt(t, root, kind, lens, y);
      LowLow(z, k, bits);
      SameMatch(lens, s, y, z);
      FoundAt(t, root, kind, lens, s, y);
      FoundAt(t, root, kind, lens, s, z);
    }
  }

  /** A lookup that needs more bits than are held does so on any longer stream. */
  lemma Undecided(t: seq<Code>, root: nat, kind: CodeType, lens: seq<nat>, z: nat, bits: nat)
    requires |lens| <= MaxSymbols(kind) && ValidLengths(lens) && Decodes(t, root, kind, lens)
    requires Lookup(t, root, Low(z, bits)).Hit? && Lookup(t, root, Low(z, bits)).drop > bits
    ensures Lookup(t, root, z).Hit? && Lookup(t, root, z).drop > bits
  {
    hide *;
    Total(t, root, kind, lens, z);
    var y, k := Low(z, bits), Lookup(t, root, z).drop;
    if k <= bits {
      if NoMatch(lens, z) {
        NoMatchAt(t, root, kind, lens, z);
        LowLow(z, 1, bits);
        SameMarker(t, z, y);
      } else {
        var s := MatchAt(t, root, kind, lens, z);
        LowLow(z, k, bits);
        SameMatch(lens, s, z, y);
        FoundAt(t, root, kind, lens, s, y);
      }
    }
  }

  lemma NoMatchAt(t: seq<Code>, root: nat, kind: CodeType, lens: seq<nat>, y: nat)
    requires |lens| <= MaxSymbols(kind) && Decodes(t, root, kind, lens) && NoMatch(lens, y)
    ensures root == 1 && Lookup(t, root, y) == Hit(Code(64, 1, 0), 1) && LinkDrops(t, root, y)
  {
    hide Lookup, LinkDrops, Reach, Matches;
  }

  lemma MatchAt(t: seq<Code>, root: nat, kind: CodeType, lens: seq<nat>, y: nat) returns (s: nat)
    requires |lens| <= MaxSymbols(kind) && Decodes(t, root, kind, lens) && !NoMatch(lens, y)
    ensures s < |lens| && Matches(lens, s, y) && Lookup(t, root, y).Hit? && Lookup(t, root, y).drop == lens[s]
  {
    hide Lookup, LinkDrops, Reach, Matches;
    s :| 0 <= s < |lens| && Matches(lens, s, y);
  }

  lemma FoundAt(t: seq<Code>, root: nat, kind: CodeType, lens: seq<nat>, s: nat, y: nat)
    requires |lens| <= MaxSymbols(kind) && Decodes(t, root, kind, lens) && s < |lens| && Matches(lens, s, y)
    ensures Lookup(t, root, y) == Hit(EntryOf(kind, s, EntryBits(lens[s], root)), lens[s])
  {
    hide Lookup, LinkDrops, Reach, Matches, EntryOf;
  }

  /** A code is decided by as many bits as it has. */
  lemma SameMatch(lens: seq<nat>, s: nat, y: nat, z: nat)
    requires s < |lens| && Matches(lens, s, y) && Low(y, lens[s]) == Low(z, lens[s])
    ensures Matches(lens, s, z)
  {
    hide Low, Rev, CodeOf;
  }

  lemma SameMarker(t: seq<Code>, y: nat, z: nat)
    requires Lookup(t, 1, y) == Hit(Code(64, 1, 0), 1) && LinkDrops(t, 1, y) && Low(y, 1) == Low(z, 1)
    ensures Lookup(t, 1, z) == Hit(Code(64, 1, 0), 1)
  {
    hide Low, High;
  }
}
