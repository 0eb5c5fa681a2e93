/** Reading a symbol from a decoding table with only some of the bits in sight. */
module InflateLookup {
  import opened Powers
  import opened Bits
  import opened BitStreams
  import opened Canonical
  import opened TableSpec
  import opened InflateTable
  import opened InflateSpec
  import opened InflateInput

  /** The table, with its index bits, decodes the lengths. */
  ghost predicate Serves(t: CodeType, lens: seq<nat>, table: seq<Entry>, root: nat)
  {
    ExactDecoder(t, lens, table, root) && Accepted(t, lens) && root <= MAXBITS
  }

  /** What a decoded symbol looks like in a table. */
  function HitOf(t: CodeType, lens: seq<nat>, d: Symbol): Hit
    requires |lens| <= MaxCodes(t)
  {
    if d.sym < |lens| then Hit(SymbolEntry(t, d.sym, 0).op, SymbolEntry(t, d.sym, 0).val, d.bits) else Hit(64, 0, 1)
  }

  lemma LookupIs(t: CodeType, lens: seq<nat>, table: seq<Entry>, root: nat, x: nat)
    requires Serves(t, lens, table, root)
    ensures |lens| <= MaxCodes(t) && Pow2(root) <= |table| && Lookup(table, root, x) == HitOf(t, lens, Decode(lens, x))
    ensures 1 <= Decode(lens, x).bits <= MAXBITS && Decode(lens, x).sym <= |lens|
    ensures Decode(lens, x).sym == |lens| ==> Decode(lens, x).bits == 1
  {
    hide Lookup, Matches, SymbolEntry, Pow2, RootEntryOk;
    var i := Search(lens, x, 0);
    if i < |lens| {
      assert Decodes(t, lens, table, root, i, x);
      MatchLength(lens, i, x);
    } else {
      assert NoMatch(lens, x);
    }
    AcceptedLengths(t, lens);
  }

  lemma AcceptedLengths(t: CodeType, lens: seq<nat>)
    requires Accepted(t, lens)
    ensures LengthsOk(lens)
  {
  }

  lemma MatchLength(lens: seq<nat>, i: nat, x: nat)
    requires i < |lens| && Matches(lens, i, x)
    ensures lens[i] >= 1
  {
  }

  /** The root entry for the bits x. */
  lemma RootIs(t: CodeType, lens: seq<nat>, table: seq<Entry>, root: nat, x: nat)
    requires Serves(t, lens, table, root)
    ensures Low(x, root) < |table|
    ensures var e := table[Low(x, root)];
      && (!IsLink(e) ==> Lookup(table, root, x) == Hit(e.op, e.val, e.bits))
      && (IsLink(e) ==>
            && e.bits == root && !RootCovers(lens, root) && e.val + Low(High(x, root), e.op) < |table|
            && var f := table[e.val + Low(High(x, root), e.op)];
               Lookup(table, root, x) == Hit(f.op, f.val, root + f.bits))
  {
    hide High, Decodes, Accepted, NoMatch;
    LowBound(x, root);
    var e := table[Low(x, root)];
    assert RootEntryOk(lens, table, root, e);
    LowBound(High(x, root), e.op);
  }

  lemma LowBound(x: nat, n: nat)
    ensures Low(x, n) < Pow2(n)
  {
  }

  /** The second index: line 1064 drops the root bits after masking. */
  lemma SecondIndex(x: nat, root: nat, op: nat)
    ensures High(Low(x, root + op), root) == Low(High(x, root), op)
  {
    HighLow(x, op, root);
  }

  /** As soon as the bits in sight are enough for what they show, they show the symbol that is
      there. */
  lemma SeenSymbol(t: CodeType, lens: seq<nat>, all: seq<byte>, next: seq<byte>, hold: nat, bits: nat, pos: nat)
    requires Accepted(t, lens) && Held(all, next, hold, bits, pos) && 1 <= Decode(lens, hold).bits <= bits
    ensures pos <= |BytesBits(all)| && Decode(lens, Rest(BytesBits(all), pos)) == Decode(lens, hold)
    ensures Fits(pos, Decode(lens, hold).bits, BytesBits(all))
  {
    hide Accepted, Held, Decode, Rest, Low;
    HeldRest(all, next, hold, bits, pos);
    HeldPeek(all, next, hold, bits, pos, Decode(lens, hold).bits);
    DecodeLow(t, lens, hold, Rest(BytesBits(all), pos), bits);
  }

  /** If they are not enough and there are no more, the symbol is not all there. */
  lemma UnseenSymbol(t: CodeType, lens: seq<nat>, all: seq<byte>, hold: nat, bits: nat, pos: nat)
    requires Accepted(t, lens) && Held(all, [], hold, bits, pos) && Decode(lens, hold).bits > bits
    ensures pos <= |BytesBits(all)| && !Fits(pos, Decode(lens, Rest(BytesBits(all), pos)).bits, BytesBits(all))
  {
    hide Accepted, Decode, Low, ValueOf, BytesBits;
    assert BytesBits(all)[pos..] == BytesBits(all)[pos..pos + bits];
  }
}
