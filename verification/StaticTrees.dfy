/** The trees of the fixed codes: tr_static_init of trees.c. */
module StaticTrees {
  import opened Bits
  import opened BitStreams
  import opened Canonical
  import opened Tokens
  import opened CodeGen
  import opened InflateSpec
  import opened BlockSpec
  import opened BlockWriter
  import opened BlockCost

  /** Lines 292-295: one of the runs of equal lengths. */
  method AddRun(lens0: seq<nat>, bl0: seq<nat>, upto: nat, len: nat) returns (lens: seq<nat>, bl: seq<nat>)
    requires |lens0| <= upto && Statistics(bl0, lens0) && 1 <= len <= MAXBITS
    ensures lens == lens0 + seq(upto - |lens0|, _ => len) && Statistics(bl, lens)
  {
    hide Occ;
    lens, bl := lens0, bl0;
    assert lens0 + seq(0, _ => len) == lens0;
    while |lens| < upto
      invariant |lens| <= upto && lens == lens0 + seq(|lens| - |lens0|, _ => len) && Statistics(bl, lens)
    {
      OccSnoc(lens, len);
      lens := lens + [len];
      bl := bl[len := bl[len] + 1];
    }
  }

  lemma OccSnoc(lens: seq<nat>, len: nat)
    ensures forall b :: Occ(lens + [len], b) == Occ(lens, b) + if len == b then 1 else 0
  {
    assert (lens + [len])[..|lens|] == lens;
  }

  /** Lines 289-308: the codes of the fixed trees. */
  method StaticCodes() returns (lcodes: seq<nat>, dcodes: seq<nat>)
    ensures CodesFor(lcodes, FixedLens()) && CodesFor(dcodes, SentDists())
  {
    hide Occ, Rev, Code, FixedLens;
    var lens: seq<nat>, bl: seq<nat> := [], seq(MAXBITS + 1, _ => 0);
    NoOcc();
    lens, bl := AddRun(lens, bl, 144, 8);
    lens, bl := AddRun(lens, bl, 256, 9);
    lens, bl := AddRun(lens, bl, 280, 7);
    lens, bl := AddRun(lens, bl, 288, 8);
    FixedIs(lens);
    assert lens[..288] == lens;
    lcodes := GenCodes(seq(288, _ => 0), lens, 288, bl);
    dcodes := [];
    for n := 0 to 30
      invariant |dcodes| == n && forall i :: 0 <= i < n ==> dcodes[i] == Rev(i, 5)
    {
      var c := BiReverse(n, 5);
      dcodes := dcodes + [c];
    }
    forall i | 0 <= i < 30 ensures Code(SentDists(), i) == i {
      DistCodeIs(SentDists(), i);
    }
  }

  lemma NoOcc()
    ensures forall b :: Occ([], b) == 0
  {
  }

  lemma FixedIs(lens: seq<nat>)
    requires lens == [] + seq(144, _ => 8) + seq(112, _ => 9) + seq(24, _ => 7) + seq(8, _ => 8)
    ensures lens == FixedLens() && LengthsOk(lens)
  {
  }

  /** The distance codes that are sent; codes 30 and 31 never occur. */
  function SentDists(): seq<nat>
  {
    seq(30, _ => 5)
  }

  /** With all lengths 5, symbol i has code i. */
  lemma DistCodeIs(lens: seq<nat>, i: nat)
    requires i < |lens| && lens == seq(|lens|, _ => 5)
    ensures Code(lens, i) == i
  {
    hide Occ;
    NoneShorter(lens, 4);
    OccConst(i, 5, 5);
    assert lens[..i] == seq(i, _ => 5);
  }

  lemma {:induction false} NoneShorter(lens: seq<nat>, b: nat)
    requires lens == seq(|lens|, _ => 5) && b < 5
    ensures Space(lens, b) == 0
  {
    hide Occ;
    if b > 0 {
      NoneShorter(lens, b - 1);
      OccConst(|lens|, 5, b);
    }
  }

  lemma DistBitsSame(i: nat)
    requires i < 30
    ensures HasCode(SentDists(), i) && HasCode(FixedDists(), i) && CodeBits(SentDists(), i) == CodeBits(FixedDists(), i)
  {
    hide Code, BitsOf;
    DistCodeIs(SentDists(), i);
    DistCodeIs(FixedDists(), i);
  }

  /** What is sent with 30 distance codes is what a decoder with 32 expects. */
  lemma {:induction false} TokensSame(ts: seq<Token>)
    requires GoodTokens(ts)
    ensures AllSendable(FixedLens(), SentDists(), ts) && AllSendable(FixedLens(), FixedDists(), ts)
    ensures TokensBits(FixedLens(), SentDists(), ts) == TokensBits(FixedLens(), FixedDists(), ts)
  {
    hide TokenBits, FixedLens, FixedDists, SentDists, Sendable;
    if ts != [] {
      TokensSame(ts[1..]);
      TokenSame(ts[0]);
    }
  }

  lemma TokenSame(t: Token)
    requires GoodToken(t)
    ensures Sendable(FixedLens(), SentDists(), t) && Sendable(FixedLens(), FixedDists(), t)
    ensures TokenBits(FixedLens(), SentDists(), t) == TokenBits(FixedLens(), FixedDists(), t)
  {
    hide CodeBits, FixedDists, SentDists, LengthParts, DistParts;
    SymsRange(t);
    if t.Match? {
      DistBitsSame(DistParts(t.dist).code);
    }
  }

  lemma BodySame(ts: seq<Token>)
    requires GoodTokens(ts)
    ensures AllSendable(FixedLens(), SentDists(), ts) && AllSendable(FixedLens(), FixedDists(), ts)
    ensures HasCode(FixedLens(), END_BLOCK)
    ensures BodyBits(FixedLens(), SentDists(), ts) == BodyBits(FixedLens(), FixedDists(), ts)
  {
    hide TokensBits, FixedDists, SentDists, AllSendable, CodeBits;
    TokensSame(ts);
  }
}
