/** Decoding tables: what an entry means, how a decoder looks a bit stream up, and what it is for a table
    to decode a code. */
module DecodeTable {
  import opened Bits
  import opened Huffman

  datatype Code = Code(op: nat, bits: nat, val: nat)
  datatype CodeType = CODES | LENS | DISTS

  const ENOUGH_LENS: nat := 852
  const ENOUGH_DISTS: nat := 592
  /** (unsigned)(-1): no sub-table yet. */
  const NO_SUBTABLE: nat := 0xFFFF_FFFF

  const LBASE: seq<nat> := [3, 4, 5, 6, 7, 8, 9, 10, 11, 13, 15, 17, 19, 23, 27, 31,
                            35, 43, 51, 59, 67, 83, 99, 115, 131, 163, 195, 227, 258, 0, 0]
  const LEXT: seq<nat> := [16, 16, 16, 16, 16, 16, 16, 16, 17, 17, 17, 17, 18, 18, 18, 18,
                           19, 19, 19, 19, 20, 20, 20, 20, 21, 21, 21, 21, 16, 77, 202]
  const DBASE: seq<nat> := [1, 2, 3, 4, 5, 7, 9, 13, 17, 25, 33, 49, 65, 97, 129, 193,
                            257, 385, 513, 769, 1025, 1537, 2049, 3073, 4097, 6145,
                            8193, 12289, 16385, 24577, 0, 0]
  const DEXT: seq<nat> := [16, 16, 16, 16, 17, 17, 18, 18, 19, 19, 20, 20, 21, 21, 22, 22,
                           23, 23, 24, 24, 25, 25, 26, 26, 27, 27,
                           28, 28, 29, 29, 64, 64]

  /** How many symbols a code of each type may have: the base and extra tables end there. */
  function MaxSymbols(kind: CodeType): nat
  {
    match kind case CODES => 19 case LENS => 288 case DISTS => 32
  }

  /** The table entry of a symbol, before its replication. */
  function EntryOf(kind: CodeType, sym: nat, bits: nat): (e: Code)
    requires sym < MaxSymbols(kind)
    ensures e.bits == bits
  {
    match kind
    case CODES => Code(0, bits, sym)
    case LENS =>
      if sym < 256 then Code(0, bits, sym)
      else if sym == 256 then Code(96, bits, 0)
      else Code(LEXT[sym - 257], bits, LBASE[sym - 257])
    case DISTS => Code(DEXT[sym], bits, DBASE[sym])
  }

  /** Symbol entries are never taken for links. */
  lemma EntryNotLink(kind: CodeType, sym: nat, bits: nat)
    requires sym < MaxSymbols(kind)
    ensures !IsLink(EntryOf(kind, sym, bits))
  {
  }

  predicate IsLink(e: Code)
  {
    1 <= e.op <= 15
  }

  datatype Decoded = Hit(entry: Code, drop: nat) | Miss

  /** The decoder's use of a table: index by the next root bits, then through at most one link. */
  function Lookup(t: seq<Code>, root: nat, z: nat): Decoded
  {
    var i := Low(z, root);
    if i >= |t| then Miss
    else if IsLink(t[i]) then
      var j := t[i].val + Low(High(z, t[i].bits), t[i].op);
      if j >= |t| then Miss else Hit(t[j], t[i].bits + t[j].bits)
    else Hit(t[i], t[i].bits)
  }

  /** How many bits of the stream a lookup may examine. */
  function Reach(t: seq<Code>, root: nat, z: nat): nat
  {
    var i := Low(z, root);
    if i < |t| && IsLink(t[i]) then t[i].bits + t[i].op else root
  }

  predicate LinkDrops(t: seq<Code>, root: nat, z: nat)
  {
    var i := Low(z, root);
    i < |t| && IsLink(t[i]) ==> t[i].bits == root
  }

  /** Bits left for the entry that a lookup ends on. */
  function EntryBits(len: nat, root: nat): nat
  {
    if len <= root then len else len - root
  }

  /** The table decodes the code: each stream to the symbol it begins with, and a stream that begins
      with no code (the code is empty, or is a single code of one bit) to the invalid-code marker. No
      lookup examines more bits than the longest code has, and links drop exactly the root bits. */
  ghost predicate Decodes(t: seq<Code>, root: nat, kind: CodeType, lens: seq<nat>)
    requires |lens| <= MaxSymbols(kind)
  {
    && (forall s, z: nat :: 0 <= s < |lens| && Matches(lens, s, z) ==>
                              Lookup(t, root, z) == Hit(EntryOf(kind, s, EntryBits(lens[s], root)), lens[s]))
    && (forall z: nat :: NoMatch(lens, z) ==> Lookup(t, root, z) == Hit(Code(64, 1, 0), 1) && root == 1)
    && (forall z: nat :: Reach(t, root, z) <= MAXBITS && LinkDrops(t, root, z))
  }

  ghost predicate NoMatch(lens: seq<nat>, z: nat)
  {
    forall s :: 0 <= s < |lens| ==> !Matches(lens, s, z)
  }
}
