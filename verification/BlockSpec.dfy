/** What compress_block writes for a list of tokens, and that the decoding machine reads it
    back: section 3.2.5 of RFC 1951 in both directions. */
module BlockSpec {
  import opened Powers
  import opened Bits
  import opened BitStreams
  import opened Canonical
  import opened TableSpec
  import opened Tokens
  import opened InflateSpec
  import opened InflateRuns

  const END_BLOCK: nat := 256

  predicate HasCode(lens: seq<nat>, i: nat)
  {
    i < |lens| && lens[i] >= 1
  }

  /** The bits of symbol i. */
  function CodeBits(lens: seq<nat>, i: nat): seq<bool>
    requires HasCode(lens, i)
  {
    BitsOf(Rev(Code(lens, i), lens[i]), lens[i])
  }

  /** The trees have codes for the token. */
  predicate Sendable(llens: seq<nat>, dlens: seq<nat>, t: Token)
  {
    match t
    case Lit(b) => HasCode(llens, b)
    case Match(len, dist) =>
      GoodToken(t) && HasCode(llens, 257 + LengthParts(len).code) && HasCode(dlens, DistParts(dist).code)
  }

  /** A length or distance as code, extra value and number of extra bits. */
  datatype Parts = Parts(code: nat, extra: nat, bits: nat)

  function LengthParts(len: nat): Parts
    requires 3 <= len <= 258
  {
    LengthCodeRange(len - 3);
    var c := LengthCode(len - 3);
    Parts(c, if c == 28 then 0 else len - 3 - BASE_LENGTH[c], EXTRA_LBITS[c])
  }

  function DistParts(dist: nat): Parts
    requires 1 <= dist <= 32768
  {
    DistCodeRange(dist - 1);
    var c := DistCode(dist - 1);
    Parts(c, dist - 1 - BASE_DIST[c], EXTRA_DBITS[c])
  }

  /** Lines 1084-1089 and 1094-1099: the code, then the extra bits if there are any. */
  function PartsBits(lens: seq<nat>, base: nat, p: Parts): seq<bool>
    requires HasCode(lens, base + p.code)
  {
    CodeBits(lens, base + p.code) + if p.bits == 0 then [] else BitsOf(p.extra, p.bits)
  }

  function TokenBits(llens: seq<nat>, dlens: seq<nat>, t: Token): seq<bool>
    requires Sendable(llens, dlens, t)
  {
    match t
    case Lit(b) => CodeBits(llens, b)
    case Match(len, dist) => PartsBits(llens, 257, LengthParts(len)) + PartsBits(dlens, 0, DistParts(dist))
  }

  predicate AllSendable(llens: seq<nat>, dlens: seq<nat>, ts: seq<Token>)
  {
    forall i :: 0 <= i < |ts| ==> Sendable(llens, dlens, ts[i])
  }

  function TokensBits(llens: seq<nat>, dlens: seq<nat>, ts: seq<Token>): seq<bool>
    requires AllSendable(llens, dlens, ts)
  {
    if ts == [] then [] else TokenBits(llens, dlens, ts[0]) + TokensBits(llens, dlens, ts[1..])
  }

  /** part stands in bits at pos. */
  predicate Has(bits: seq<bool>, pos: nat, part: seq<bool>)
  {
    pos + |part| <= |bits| && bits[pos..pos + |part|] == part
  }

  lemma HasConcat(bits: seq<bool>, pos: nat, a: seq<bool>, b: seq<bool>)
    requires Has(bits, pos, a + b)
    ensures Has(bits, pos, a) && Has(bits, pos + |a|, b)
  {
    assert bits[pos..pos + |a|] == (a + b)[..|a|];
    assert bits[pos + |a|..pos + |a| + |b|] == (a + b)[|a|..];
  }

  lemma HasPeek(bits: seq<bool>, pos: nat, v: nat, n: nat)
    requires Has(bits, pos, BitsOf(v, n)) && v < Pow2(n)
    ensures Fits(pos, n, bits) && Peek(bits, pos, n) == v
  {
    hide BitsOf, ValueOf;
    ValueOfBits(v, n);
    LowSmall(v, n);
  }

  /** A code in the input is found, whatever follows it. */
  lemma HasSymbol(t: CodeType, lens: seq<nat>, i: nat, bits: seq<bool>, pos: nat)
    requires Accepted(t, lens) && HasCode(lens, i) && Has(bits, pos, CodeBits(lens, i))
    ensures pos <= |bits| && Fits(pos, lens[i], bits) && Decode(lens, Rest(bits, pos)) == Symbol(i, lens[i])
  {
    hide BitsOf, ValueOf, Rev, Code, Low, Pow2, Accepted, Decode;
    var n, c := lens[i], Rev(Code(lens, i), lens[i]);
    assert bits[pos..][..n] == bits[pos..pos + n];
    ValuePrefix(bits[pos..], n);
    ValueOfBits(c, n);
    RevFits(Code(lens, i), n);
    LowSmall(c, n);
    DecodeMatch(t, lens, i, Rest(bits, pos));
  }

  lemma RevFits(v: nat, n: nat)
    ensures Rev(v, n) < Pow2(n)
  {
  }

  /** The decoder's tables take the parts of a length together again. */
  lemma LengthAgain(len: nat)
    requires 3 <= len <= 258
    ensures var p := LengthParts(len);
      p.code < 29 && p.extra < Pow2(p.bits) && LBASE[p.code] + p.extra == len && LEXT[p.code] == p.bits + 16
  {
    hide Pow2, LengthCode;
    LengthCodeRange(len - 3);
    SameLengths(LengthCode(len - 3));
    SameLengthBits(LengthCode(len - 3));
    SmallPowers();
  }

  lemma SameLengths(c: nat)
    requires c < 29
    ensures c < 28 ==> LBASE[c] == BASE_LENGTH[c] + 3
    ensures c == 28 ==> LBASE[c] == 258
  {
  }

  lemma SameLengthBits(c: nat)
    requires c < 29
    ensures LEXT[c] == EXTRA_LBITS[c] + 16
  {
  }

  lemma DistAgain(dist: nat)
    requires 1 <= dist <= 32768
    ensures var p := DistParts(dist);
      p.code < 30 && p.extra < Pow2(p.bits) && DBASE[p.code] + p.extra == dist && DEXT[p.code] == p.bits + 16
  {
    hide Pow2, DistCode;
    DistCodeRange(dist - 1);
    SameDists(DistCode(dist - 1));
    SameDistBits(DistCode(dist - 1));
  }

  lemma SameDists(c: nat)
    requires c < 30
    ensures DBASE[c] == BASE_DIST[c] + 1
  {
  }

  lemma SameDistBits(c: nat)
    requires c < 30
    ensures DEXT[c] == EXTRA_DBITS[c] + 16
  {
  }

  /** The machine is between two symbols of a block with the codes llens and dlens. */
  predicate InBlock(s: State, llens: seq<nat>, dlens: seq<nat>, bits: seq<bool>)
  {
    At(s, bits) && s.mode == LEN && s.lcode == llens && s.dcode == dlens
  }

  lemma ReadLit(s: State, llens: seq<nat>, dlens: seq<nat>, b: byte, bits: seq<bool>) returns (s': State)
    requires InBlock(s, llens, dlens, bits) && HasCode(llens, b) && Has(bits, s.pos, CodeBits(llens, b))
    ensures InBlock(s', llens, dlens, bits) && Reaches(s, s', bits)
    ensures s'.pos == s.pos + |CodeBits(llens, b)| && s'.out == s.out + [b] && s'.last == s.last && s'.far == s.far
  {
    hide Accepted, CodeBits, Decode, Rest, Reaches;
    InAccepted(s, bits);
    HasSymbol(LENS, llens, b, bits, s.pos);
    CodeSize(llens, b);
    var s1 := Step(s, bits).value;
    ReachesStep(s, bits);
    s' := Step(s1, bits).value;
    ReachesStep(s1, bits);
    ReachesTrans(s, s1, s', bits);
  }

  lemma CodeSize(lens: seq<nat>, i: nat)
    requires HasCode(lens, i)
    ensures |CodeBits(lens, i)| == lens[i]
  {
  }

  lemma InAccepted(s: State, bits: seq<bool>)
    requires At(s, bits) && (s.mode == LEN || s.mode == DIST)
    ensures Accepted(LENS, s.lcode) && Accepted(DISTS, s.dcode) && |s.lcode| <= 288 && |s.dcode| <= 32
  {
    hide Accepted;
  }

  /** A code with its extra bits is in the input. */
  lemma HasParts(t: CodeType, lens: seq<nat>, base: nat, p: Parts, bits: seq<bool>, pos: nat)
    requires Accepted(t, lens) && HasCode(lens, base + p.code) && p.extra < Pow2(p.bits)
    requires Has(bits, pos, PartsBits(lens, base, p))
    ensures var n := lens[base + p.code];
      && Fits(pos, n, bits) && Decode(lens, Rest(bits, pos)) == Symbol(base + p.code, n)
      && Fits(pos + n, p.bits, bits) && Peek(bits, pos + n, p.bits) == p.extra
      && |PartsBits(lens, base, p)| == n + p.bits
  {
    hide Accepted, CodeBits, Decode, Rest, BitsOf, Peek, Pow2;
    var x := if p.bits == 0 then [] else BitsOf(p.extra, p.bits);
    HasConcat(bits, pos, CodeBits(lens, base + p.code), x);
    HasSymbol(t, lens, base + p.code, bits, pos);
    CodeSize(lens, base + p.code);
    ReadExtra(bits, pos + lens[base + p.code], p.extra, p.bits, x);
  }

  lemma ReadExtra(bits: seq<bool>, pos: nat, v: nat, n: nat, x: seq<bool>)
    requires v < Pow2(n) && Has(bits, pos, x) && if n == 0 then x == [] else x == BitsOf(v, n)
    ensures Fits(pos, n, bits) && Peek(bits, pos, n) == v && |x| == n
  {
    hide BitsOf;
    if n == 0 {
      assert Pow2(0) == 1;
      assert bits[pos..pos] == [];
    } else {
      HasPeek(bits, pos, v, n);
    }
  }

  /** The length of a match is read back. */
  lemma ReadLength(s: State, len: nat, p: Parts, bits: seq<bool>) returns (s': State)
    requires At(s, bits) && s.mode == LEN && 3 <= len <= 258 && p == LengthParts(len) && HasCode(s.lcode, 257 + p.code)
    requires Has(bits, s.pos, PartsBits(s.lcode, 257, p))
    ensures At(s', bits) && Reaches(s, s', bits)
    ensures s'.mode == DIST && s'.length == len && s'.out == s.out && s'.last == s.last && s'.far == s.far
    ensures s'.lcode == s.lcode && s'.dcode == s.dcode && s'.pos == s.pos + |PartsBits(s.lcode, 257, p)|
  {
    hide Accepted, Decode, Rest, Reaches, Peek, LengthParts, PartsBits, LBASE, LEXT, Pow2;
    LengthAgain(len);
    InAccepted(s, bits);
    HasParts(LENS, s.lcode, 257, p, bits, s.pos);
    var s1 := Step(s, bits).value;
    ReachesStep(s, bits);
    s' := Step(s1, bits).value;
    ReachesStep(s1, bits);
    ReachesTrans(s, s1, s', bits);
  }

  /** The distance of a match is read back. */
  lemma ReadDist(s: State, dist: nat, p: Parts, part: seq<bool>, bits: seq<bool>) returns (s': State)
    requires HasCode(s.dcode, p.code) && part == PartsBits(s.dcode, 0, p) && Has(bits, s.pos, part)
    requires 1 <= dist <= 32768 && p == DistParts(dist)
    requires At(s, bits) && s.mode == DIST
    ensures At(s', bits) && Reaches(s, s', bits)
    ensures s'.mode == MATCH && s'.offset == dist && s'.length == s.length && s'.out == s.out && s'.last == s.last
    ensures s'.far == s.far
    ensures s'.lcode == s.lcode && s'.dcode == s.dcode && s'.pos == s.pos + |part|
  {
    hide Accepted, Decode, Rest, Reaches, Peek, DistParts, PartsBits, DBASE, DEXT, Pow2;
    DistAgain(dist);
    InAccepted(s, bits);
    HasParts(DISTS, s.dcode, 0, p, bits, s.pos);
    var s1 := Step(s, bits).value;
    ReachesStep(s, bits);
    s' := Step(s1, bits).value;
    ReachesStep(s1, bits);
    ReachesTrans(s, s1, s', bits);
  }

  /** MATCH copies byte by byte. */
  lemma {:induction false} RunMatch(s: State, bits: seq<bool>) returns (s': State)
    requires At(s, bits) && s.mode == MATCH && s.offset <= |s.out|
    ensures At(s', bits) && Reaches(s, s', bits) && s.offset >= 1
    ensures s'.mode == LEN && s'.out == CopyBack(s.out, s.length, s.offset) && s'.last == s.last
    ensures s'.far == Max(s.far, s.offset)
    ensures s'.lcode == s.lcode && s'.dcode == s.dcode && s'.pos == s.pos
    decreases s.length
  {
    hide Accepted, Reaches;
    s' := Step(s, bits).value;
    ReachesStep(s, bits);
    if s.length > 1 {
      var s1 := s';
      s' := RunMatch(s1, bits);
      ReachesTrans(s, s1, s', bits);
    }
  }

  /** One token: what was written for it makes the machine do what it stands for. */
  lemma ReadToken(s: State, llens: seq<nat>, dlens: seq<nat>, t: Token, bits: seq<bool>) returns (s': State)
    requires InBlock(s, llens, dlens, bits) && Sendable(llens, dlens, t) && (t.Match? ==> t.dist <= |s.out|)
    requires Has(bits, s.pos, TokenBits(llens, dlens, t))
    ensures InBlock(s', llens, dlens, bits) && Reaches(s, s', bits)
    ensures s'.pos == s.pos + |TokenBits(llens, dlens, t)| && s'.out == ExpandOne(s.out, t) && s'.last == s.last
    ensures s'.far == if t.Match? then Max(s.far, t.dist) else s.far
  {
    hide LengthParts, DistParts, PartsBits, CodeBits, Reaches, At, CopyBack;
    match t
    case Lit(b) =>
      s' := ReadLit(s, llens, dlens, b, bits);
    case Match(len, dist) =>
      HasConcat(bits, s.pos, PartsBits(llens, 257, LengthParts(len)), PartsBits(dlens, 0, DistParts(dist)));
      var s1 := ReadLength(s, len, LengthParts(len), bits);
      var s2 := ReadDist(s1, dist, DistParts(dist), PartsBits(dlens, 0, DistParts(dist)), bits);
      s' := RunMatch(s2, bits);
      ReachesTrans(s, s1, s2, bits);
      ReachesTrans(s, s2, s', bits);
  }

  /** The whole list. */
  lemma {:induction false} ReadTokens(s: State, llens: seq<nat>, dlens: seq<nat>, ts: seq<Token>, bits: seq<bool>)
    returns (s': State)
    requires InBlock(s, llens, dlens, bits) && AllSendable(llens, dlens, ts) && Expandable(s.out, ts)
    requires Has(bits, s.pos, TokensBits(llens, dlens, ts))
    ensures InBlock(s', llens, dlens, bits) && Reaches(s, s', bits)
    ensures s'.pos == s.pos + |TokensBits(llens, dlens, ts)| && s'.out == Expand(s.out, ts) && s'.last == s.last
    ensures forall n :: s.far <= n && Reach(ts, n) ==> s'.far <= n
    decreases |ts|
  {
    hide TokenBits, Reaches, At, Sendable;
    if ts == [] {
      s' := s;
      ReachesSelf(s, bits);
    } else {
      HasConcat(bits, s.pos, TokenBits(llens, dlens, ts[0]), TokensBits(llens, dlens, ts[1..]));
      var s1 := ReadToken(s, llens, dlens, ts[0], bits);
      s' := ReadTokens(s1, llens, dlens, ts[1..], bits);
      ReachesTrans(s, s1, s', bits);
      forall n | s.far <= n && Reach(ts, n) ensures s'.far <= n {
        assert Reach(ts[1..], n);
      }
    }
  }

  /** The tokens and the end-of-block code. */
  function BodyBits(llens: seq<nat>, dlens: seq<nat>, ts: seq<Token>): seq<bool>
    requires AllSendable(llens, dlens, ts) && HasCode(llens, END_BLOCK)
  {
    TokensBits(llens, dlens, ts) + CodeBits(llens, END_BLOCK)
  }

  /** compress_block's bits, decoded, give the tokens' output and stop right after the end of
      the block. */
  lemma ReadBody(s: State, llens: seq<nat>, dlens: seq<nat>, ts: seq<Token>, bits: seq<bool>) returns (s': State)
    requires InBlock(s, llens, dlens, bits) && AllSendable(llens, dlens, ts) && HasCode(llens, END_BLOCK)
    requires Expandable(s.out, ts) && Has(bits, s.pos, BodyBits(llens, dlens, ts))
    ensures At(s', bits) && Reaches(s, s', bits) && s'.mode == TYPE && s'.last == s.last
    ensures s'.pos == s.pos + |BodyBits(llens, dlens, ts)| && s'.out == Expand(s.out, ts)
    ensures forall n :: s.far <= n && Reach(ts, n) ==> s'.far <= n
  {
    hide TokensBits, CodeBits, Reaches, Accepted, Decode, Rest, AllSendable, Expandable;
    HasConcat(bits, s.pos, TokensBits(llens, dlens, ts), CodeBits(llens, END_BLOCK));
    var s1 := ReadTokens(s, llens, dlens, ts, bits);
    InAccepted(s1, bits);
    HasSymbol(LENS, llens, END_BLOCK, bits, s1.pos);
    CodeSize(llens, END_BLOCK);
    s' := Step(s1, bits).value;
    ReachesStep(s1, bits);
    ReachesTrans(s, s1, s', bits);
  }
}
