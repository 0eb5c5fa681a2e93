/** Decoding tables of inftrees.c: their entries, how inflate reads them, and what it
    means that a table decodes a canonical code. */
module TableSpec {
  import opened Powers
  import opened Bits
  import opened Canonical

  /** The struct `code` of inftrees.h. */
  datatype Entry = Entry(op: nat, bits: nat, val: nat)

  datatype CodeType = CODES | LENS | DISTS

  const ENOUGH_LENS: nat := 852
  const ENOUGH_DISTS: nat := 592

  const LBASE: seq<nat> := [
    3, 4, 5, 6, 7, 8, 9, 10, 11, 13, 15, 17, 19, 23, 27, 31,
    35, 43, 51, 59, 67, 83, 99, 115, 131, 163, 195, 227, 258, 0, 0]
  const LEXT: seq<nat> := [
    16, 16, 16, 16, 16, 16, 16, 16, 17, 17, 17, 17, 18, 18, 18, 18,
    19, 19, 19, 19, 20, 20, 20, 20, 21, 21, 21, 21, 16, 77, 202]
  const DBASE: seq<nat> := [
    1, 2, 3, 4, 5, 7, 9, 13, 17, 25, 33, 49, 65, 97, 129, 193, 257, 385, 513, 769,
    1025, 1537, 2049, 3073, 4097, 6145, 8193, 12289, 16385, 24577, 0, 0]
  const DEXT: seq<nat> := [
    16, 16, 16, 16, 17, 17, 18, 18, 19, 19, 20, 20, 21, 21, 22, 22, 23, 23, 24, 24,
    25, 25, 26, 26, 27, 27, 28, 28, 29, 29, 64, 64]

  /** How many symbols the base and extra tables of each type cover. */
  function MaxCodes(t: CodeType): nat
  {
    match t
    case CODES => 20
    case LENS => 288
    case DISTS => 32
  }

  /** Lines 216-228: the entry of a symbol, for the given number of remaining bits. */
  function SymbolEntry(t: CodeType, sym: nat, bits: nat): Entry
    requires sym < MaxCodes(t)
  {
    match t
    case CODES => if sym + 1 < 20 then Entry(0, bits, sym) else Entry(96, bits, 0)
    case LENS =>
      if sym + 1 < 257 then Entry(0, bits, sym)
      else if sym >= 257 then Entry(LEXT[sym - 257], bits, LBASE[sym - 257])
      else Entry(96, bits, 0)
    case DISTS => Entry(DEXT[sym], bits, DBASE[sym])
  }

  const INVALID: Entry := Entry(64, 1, 0)

  /** The test of inflate.c for an entry that points to a second table. */
  predicate IsLink(e: Entry)
  {
    e.op != 0 && e.op < 16
  }

  datatype Hit = Hit(op: nat, val: nat, bits: nat)

  /** What inflate finds for the bits x: the entry, by way of a second table if need be,
      and the number of bits it drops. */
  function Lookup(table: seq<Entry>, root: nat, x: nat): Hit
    requires Pow2(root) <= |table|
  {
    var e := table[Low(x, root)];
    var at := e.val + Low(High(x, root), e.op);
    if IsLink(e) && at < |table| then Hit(table[at].op, table[at].val, e.bits + table[at].bits)
    else Hit(e.op, e.val, e.bits)
  }

  /** The table decodes symbol i from the bits x. */
  ghost predicate Decodes(t: CodeType, lens: seq<nat>, table: seq<Entry>, root: nat, i: nat, x: nat)
    requires i < |lens| && i < MaxCodes(t) && Pow2(root) <= |table|
  {
    var e := SymbolEntry(t, i, 0);
    Lookup(table, root, x) == Hit(e.op, e.val, lens[i])
  }

  /** No symbol's entry can be taken for a link. */
  lemma SymbolNoLink(t: CodeType, sym: nat, bits: nat)
    requires sym < MaxCodes(t)
    ensures !IsLink(SymbolEntry(t, sym, bits))
    ensures SymbolEntry(t, sym, bits) == SymbolEntry(t, sym, 0).(bits := bits)
  {
  }

  predicate NoCodes(lens: seq<nat>)
  {
    forall i :: 0 <= i < |lens| ==> lens[i] == 0
  }

  /** The lengths ask for more than the code space. */
  predicate OverSubscribed(lens: seq<nat>)
  {
    Space(lens, MAXBITS) > Pow2(MAXBITS)
  }

  /** Line 137: part of the code space is left over, and it is not the allowed single code of
      one bit. */
  predicate Incomplete(t: CodeType, lens: seq<nat>)
  {
    Space(lens, MAXBITS) < Pow2(MAXBITS) && !NoCodes(lens)
    && (t == CODES || exists i :: 0 <= i < |lens| && lens[i] > 1)
  }

  predicate NoMatch(lens: seq<nat>, x: nat)
  {
    forall i :: 0 <= i < |lens| ==> !Matches(lens, i, x)
  }

  /** What inflate_table takes: a complete code, none at all, or (except for the code
      length code) a single code of one bit. */
  predicate Accepted(t: CodeType, lens: seq<nat>)
  {
    LengthsOk(lens) && !OverSubscribed(lens) && !Incomplete(t, lens)
  }

  /** No code is longer than the root table's index. */
  predicate RootCovers(lens: seq<nat>, root: nat)
  {
    forall i :: 0 <= i < |lens| ==> lens[i] <= root
  }

  datatype Symbol = Symbol(sym: nat, bits: nat)

  /** The first symbol from i on whose code begins x, if any. */
  function Search(lens: seq<nat>, x: nat, i: nat): (r: nat)
    requires i <= |lens|
    ensures i <= r <= |lens| && (r < |lens| ==> Matches(lens, r, x))
    ensures forall j :: i <= j < r ==> !Matches(lens, j, x)
    decreases |lens| - i
  {
    if i == |lens| || Matches(lens, i, x) then i else Search(lens, x, i + 1)
  }

  /** The symbol that begins the bits x and the length of its code; |lens| and one bit when
      no code does. */
  function Decode(lens: seq<nat>, x: nat): Symbol
  {
    var i := Search(lens, x, 0);
    Symbol(i, if i < |lens| then lens[i] else 1)
  }

  /** Decode finds the code, whichever symbol has it. */
  lemma DecodeMatch(t: CodeType, lens: seq<nat>, i: nat, x: nat)
    requires Accepted(t, lens) && i < |lens| && Matches(lens, i, x)
    ensures Decode(lens, x) == Symbol(i, lens[i])
  {
    hide Matches, Space, Pow2;
    var j := Search(lens, x, 0);
    if lens[i] <= lens[j] {
      MatchUnique(lens, i, j, x, MAXBITS);
    } else {
      MatchUnique(lens, j, i, x, MAXBITS);
    }
  }

  /** More bits after those in sight match the same codes. */
  lemma MatchLow(lens: seq<nat>, i: nat, x: nat, y: nat, n: nat)
    requires i < |lens| && lens[i] <= n && Low(x, n) == Low(y, n)
    ensures Matches(lens, i, x) <==> Matches(lens, i, y)
  {
    hide Low, Rev, Code;
    LowLow(x, n, lens[i]);
    LowLow(y, n, lens[i]);
  }

  /** Bits that begin no code at all can be told from the first bit. */
  lemma NoMatchLow(t: CodeType, lens: seq<nat>, x: nat, y: nat, n: nat)
    requires Accepted(t, lens) && n >= 1 && Low(x, n) == Low(y, n) && NoMatch(lens, x)
    ensures NoMatch(lens, y)
  {
    hide Matches, Low, Space, Pow2;
    if Space(lens, MAXBITS) == Pow2(MAXBITS) {
      var i := MatchExists(lens, x, MAXBITS);
    } else {
      forall i | 0 <= i < |lens| ensures !Matches(lens, i, y) {
        MatchLow(lens, i, x, y, n);
      }
    }
  }

  /** Decoding needs no more bits than the code has: with n bits in sight the result is the
      same as with all of them as soon as it takes no more than n bits. */
  lemma DecodeLow(t: CodeType, lens: seq<nat>, x: nat, y: nat, n: nat)
    requires Accepted(t, lens) && Low(x, n) == Low(y, n) && n >= 1
    requires Decode(lens, x).bits <= n
    ensures Decode(lens, y) == Decode(lens, x)
  {
    hide Matches, Low, Accepted;
    var i := Search(lens, x, 0);
    if i < |lens| {
      MatchLow(lens, i, x, y, n);
      DecodeMatch(t, lens, i, y);
    } else {
      NoMatchLow(t, lens, x, y, n);
    }
  }
}
