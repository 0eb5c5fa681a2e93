/** A window of less than 32K cannot serve every stream: for each such size there is one, made of a
    stored block and a match just one byte too long a way back. */
module WindowLimit {
  import opened Powers
  import opened BitStreams
  import opened Tokens
  import opened InflateSpec
  import opened InflateRuns
  import opened BlockSpec
  import opened StreamSpec
  import opened StaticTrees
  import opened InflateSteps
  import opened InflateReach
  import opened Inflater
  import Transfer

  /** Packs bits into bytes. */
  method Pack(bits: seq<bool>) returns (all: seq<byte>)
    requires |bits| % 8 == 0
    ensures BytesBits(all) == bits
    decreases |bits|
  {
    hide BitsOf, ValueOf;
    if bits == [] {
      all := [];
    } else {
      var n := |bits| - 8;
      var rest := Pack(bits[..n]);
      ByteValue(bits[n..]);
      var b: byte := ValueOf(bits[n..]);
      all := rest + [b];
      BitsOfValue(bits[n..]);
      BytesConcat(rest, [b]);
      BytesOne(b);
      assert bits == bits[..n] + bits[n..];
    }
  }

  lemma ByteValue(b: seq<bool>)
    requires |b| == 8
    ensures ValueOf(b) < 256
  {
    hide ValueOf;
    EightBits();
  }

  /** The match of a fixed block, as the decoder meets it. */
  lemma MeetsMatch(w: seq<bool>, out: seq<byte>, t: Token, bits: seq<bool>, far: nat) returns (m: State)
    requires Conveys(w, out, false, far) && t.Match? && GoodToken(t) && |bits| % 8 == 0
    requires Sendable(FixedLens(), FixedDists(), t)
    requires Has(bits, 0, w + TypeBits(STATIC_TREES, true) + TokenBits(FixedLens(), FixedDists(), t))
    ensures At(Start(), bits) && At(m, bits) && Reaches(Start(), m, bits)
    ensures m.mode == MATCH && m.offset == t.dist && m.out == out
  {
    hide Reaches, TypeBits, PartsBits, At, Has, InBlock, FixedLens, FixedDists, HasCode, LengthParts, DistParts,
      Conveys;
    var a, b := PartsBits(FixedLens(), 257, LengthParts(t.len)), PartsBits(FixedDists(), 0, DistParts(t.dist));
    TypeSize(STATIC_TREES, true);
    HasConcat(bits, 0, w + TypeBits(STATIC_TREES, true), a + b);
    var s := Typed(w, out, STATIC_TREES, true, bits, far);
    BlockParts(s, FixedLens(), FixedDists(), bits);
    HasConcat(bits, s.pos, a, b);
    var s1 := ReadLength(s, t.len, LengthParts(t.len), bits);
    m := ReadDist(s1, t.dist, DistParts(t.dist), b, bits);
    ReachesTrans(Start(), s, s1, bits);
    ReachesTrans(Start(), s1, m, bits);
  }

  lemma BlockParts(s: State, llens: seq<nat>, dlens: seq<nat>, bits: seq<bool>)
    requires InBlock(s, llens, dlens, bits)
    ensures At(s, bits) && s.mode == LEN && s.lcode == llens && s.dcode == dlens
  {
    hide At;
  }

  /** A fixed block of one token: its first bits are the token's. */
  lemma OneToken(t: Token)
    requires GoodToken(t)
    ensures Sendable(FixedLens(), FixedDists(), t) && AllSendable(FixedLens(), FixedDists(), [t])
    ensures HasCode(FixedLens(), END_BLOCK)
    ensures BodyBits(FixedLens(), FixedDists(), [t])
         == TokenBits(FixedLens(), FixedDists(), t) + CodeBits(FixedLens(), END_BLOCK)
  {
    hide FixedLens, FixedDists, SentDists, Sendable, TokenBits, CodeBits;
    BodySame([t]);
    assert Sendable(FixedLens(), FixedDists(), [t][0]);
    assert [t][1..] == [];
    assert TokensBits(FixedLens(), FixedDists(), []) == [];
    var b := TokenBits(FixedLens(), FixedDists(), t);
    assert b + [] == b;
  }

  lemma HasAll(part: seq<bool>, tail: seq<bool>)
    ensures Has(part + tail, 0, part)
  {
  }

  /** A finished stream, its data, and the state at its match. */
  method FarStream(size: nat) returns (all: seq<byte>, ghost data: seq<byte>, ghost m: State)
    requires size < 32768
    ensures Led(m, all) && m.mode == MATCH && |m.out| == m.offset == size + 1
    ensures Delivers(BytesBits(all), data, size + 1) && size + 2 < |data|
  {
    hide *;
    var zeros: seq<byte> := seq(size + 1, _ => 0);
    var t, far := Match(3, size + 1), size + 1;
    GoodMatch(far, zeros);
    ConveysNothing(far);
    ConveysStored([], [], zeros, false, far);
    var none: seq<bool> := [];
    var w := none + TypeBits(STORED_BLOCK, false) + StoredBits(|none| + 3, zeros);
    assert [] + zeros == zeros;
    OneToken(t);
    ConveysFixed(w, zeros, [t], true, far);
    var type_, token, end := TypeBits(STATIC_TREES, true), TokenBits(FixedLens(), FixedDists(), t),
                             CodeBits(FixedLens(), END_BLOCK);
    var bits := w + type_ + (token + end);
    data := Expand(zeros, [t]);
    LongerData(zeros, 3, size + 1);
    DeliversPadded(bits, data, far);
    var z := Zeros(Padding(|bits|));
    PaddedWhole(bits);
    all := Pack(bits + z);
    assert bits + z == w + type_ + token + (end + z);
    HasAll(w + type_ + token, end + z);
    m := MeetsMatch(w, zeros, t, BytesBits(all), far);
    MakeLed(m, all);
  }

  lemma PaddedWhole(bits: seq<bool>)
    ensures |bits + Zeros(Padding(|bits|))| % 8 == 0
  {
    hide Zeros, Padding;
    ZerosSize(Padding(|bits|));
    PaddingWhole(|bits|);
  }

  lemma PaddingWhole(n: nat)
    ensures (n + Padding(n)) % 8 == 0
  {
  }

  lemma GoodMatch(dist: nat, out: seq<byte>)
    requires 1 <= dist <= 32768 && dist <= |out|
    ensures GoodToken(Match(3, dist)) && Expandable(out, [Match(3, dist)]) && Reach([Match(3, dist)], dist)
  {
    hide CopyBack;
    var t := Match(3, dist);
    assert [t][1..] == [];
    assert Expandable(ExpandOne(out, t), []);
  }

  lemma LongerData(out: seq<byte>, len: nat, dist: nat)
    requires 1 <= dist <= |out| && Expandable(out, [Match(len, dist)])
    ensures |Expand(out, [Match(len, dist)])| == |out| + len
  {
    var t := Match(len, dist);
    assert [t][1..] == [];
    assert Expand(ExpandOne(out, t), []) == ExpandOne(out, t);
  }

  /** A decoder with a smaller window that takes the output of this stream in two calls stops at the match.
      In one call it copies any match. */
  method SmallWindow(size: nat) returns (all: seq<byte>, ghost data: seq<byte>, base: nat)
    requires size < 32768
    ensures Delivers(BytesBits(all), data, size + 1) && base + 1 < |data|
    ensures !Within(all, size) && !Served(all, base, 1, size) && forall space :: Served(all, 0, space, size)
  {
    hide *;
    ghost var m: State;
    all, data, m := FarStream(size);
    base := size + 1;
    Apart(m, base, size);
    TooFarBack(m, all, size);
    Unserved(m, all, base, 1, size);
    forall space ensures Served(all, 0, space, size) {
      FirstCall(all, space, size);
    }
  }

  lemma Apart(m: State, base: nat, size: nat)
    requires |m.out| == base == m.offset == size + 1
    ensures !Near(m, base, size)
  {
  }

  lemma FirstCall(all: seq<byte>, space: nat, size: nat)
    ensures Served(all, 0, space, size)
  {
    hide Led;
  }

  /** A stream in two calls of a new decoder, the first with room for no more than the data: the second call
      decides whether it gets through. */
  method TwoCalls(i: Inflate, stream: seq<byte>, first: nat, second: nat, ghost data: seq<byte>, ghost far: nat)
    returns (out: seq<byte>)
    requires i.Valid() && i.exact && i.all == [] && i.hist == []
    requires Delivers(BytesBits(stream), data, far) && first <= |data|
    modifies i, i.codes, i.distCodes, i.work
    ensures i.all == stream && (i.exact <==> Served(stream, first, second, Pow2(i.wbits)))
    ensures out <= data && first <= |out| <= first + second
    ensures if i.exact then |out| == first + second || out == data else i.st.mode == BAD
  {
    hide *;
    ghost var s := Transfer.EndState(stream, data, far);
    FirstCall(stream, first, Pow2(i.wbits));
    out := i.Call(stream, first, false);
    assert [] + stream == stream;
    assert [] + out == out;
    i.ValidParts();
    if After(i.abs, i.all) == None {
      Transfer.SameStop(i.abs, s, stream);
    }
    var rest := i.Call([], second, false);
    assert stream + [] == stream;
    out := out + rest;
    i.ValidParts();
    Transfer.OneCourse(i.abs, stream, s, stream);
    if After(i.abs, i.all) == None {
      Transfer.SameStop(i.abs, s, stream);
    }
  }

  /** Every decoder with a smaller window gives up on some finished stream. */
  method GivesUp(i: Inflate) returns (out: seq<byte>, ghost data: seq<byte>)
    requires i.Valid() && i.exact && i.all == [] && i.hist == [] && i.wbits < 15
    modifies i, i.codes, i.distCodes, i.work
    ensures !i.exact && i.st.mode == BAD && Delivers(BytesBits(i.all), data, Pow2(i.wbits) + 1)
    ensures out < data
  {
    hide *;
    SmallSize(i.wbits);
    var stream: seq<byte>, base: nat;
    stream, data, base := SmallWindow(Pow2(i.wbits));
    out := TwoCalls(i, stream, base, 1, data, Pow2(i.wbits) + 1);
  }

  lemma SmallSize(wbits: nat)
    requires wbits < 15
    ensures Pow2(wbits) < 32768
  {
    Pow2Mono(wbits, 14);
    Pow2Add(7, 7);
    assert Pow2(7) == 128;
  }
}
