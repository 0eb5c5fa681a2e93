/** Whole blocks and streams: what the bits written so far make the decoder put out. */
module StreamSpec {
  import opened Powers
  import opened BitStreams
  import opened Tokens
  import opened InflateSpec
  import opened InflateRuns
  import opened BlockSpec
  import opened HeaderSpec

  const STORED_BLOCK: nat := 0
  const STATIC_TREES: nat := 1
  const DYN_TREES: nat := 2

  function TypeBits(kind: nat, last: bool): seq<bool>
  {
    BitsOf(2 * kind + if last then 1 else 0, 3)
  }

  function Zeros(n: nat): seq<bool>
  {
    BitsOf(0, n)
  }

  /** Bits up to the next byte boundary. */
  function Padding(n: nat): nat
  {
    Align(n) - n
  }

  function StoredBits(pos: nat, data: seq<byte>): seq<bool>
    requires |data| < 0x10000
  {
    Zeros(Padding(pos)) + (BitsOf(|data|, 16) + (BitsOf(0xFFFF - |data|, 16) + BytesBits(data)))
  }

  lemma TypeValue(kind: nat, last: bool)
    requires kind <= 3
    ensures var v := 2 * kind + if last then 1 else 0; v < Pow2(3) && v % 2 == (if last then 1 else 0) && v / 2 == kind
  {
    assert Pow2(3) == 8;
  }

  lemma ReadType(s: State, kind: nat, last: bool, bits: seq<bool>) returns (s': State)
    requires At(s, bits) && s.mode == TYPE && !s.last && kind <= 2 && Has(bits, s.pos, TypeBits(kind, last))
    ensures At(s', bits) && Reaches(s, s', bits) && s'.pos == s.pos + 3 && s'.out == s.out && s'.last == last
    ensures s'.far == s.far
    ensures kind == STORED_BLOCK ==> s'.mode == STORED
    ensures kind == STATIC_TREES ==> InBlock(s', FixedLens(), FixedDists(), bits)
    ensures kind == DYN_TREES ==> s'.mode == TABLE
  {
    hide BitsOf, Reaches, Peek, Pow2, FixedLens, FixedDists;
    TypeValue(kind, last);
    HasPeek(bits, s.pos, 2 * kind + if last then 1 else 0, 3);
    s' := Step(s, bits).value;
    ReachesStep(s, bits);
  }

  lemma ReadAlign(s: State, bits: seq<bool>) returns (s': State)
    requires At(s, bits) && s.mode == STORED
    ensures At(s', bits) && Reaches(s, s', bits) && s' == s.(pos := Align(s.pos)) && s'.pos % 8 == 0
  {
    hide Reaches;
    if s.pos % 8 == 0 {
      s' := s;
      ReachesSelf(s, bits);
    } else {
      s' := Step(s, bits).value;
      ReachesStep(s, bits);
    }
  }

  lemma {:induction false} ReadCopy(s: State, data: seq<byte>, bits: seq<bool>) returns (s': State)
    requires At(s, bits) && s.mode == COPY && s.length == |data| && Has(bits, s.pos, BytesBits(data))
    ensures At(s', bits) && Reaches(s, s', bits) && s'.mode == TYPE && s'.last == s.last && s'.far == s.far
    ensures s'.pos == s.pos + 8 * |data| && s'.out == s.out + data
    decreases |data|
  {
    hide BitsOf, Reaches, Peek, Pow2, BytesBits;
    var s1 := Step(s, bits).value;
    if data == [] {
      ReachesStep(s, bits);
      s' := s1;
    } else {
      FirstByte(data);
      HasConcat(bits, s.pos, BitsOf(data[0], 8), BytesBits(data[1..]));
      HasPeek(bits, s.pos, data[0], 8);
      ReachesStep(s, bits);
      s' := ReadCopy(s1, data[1..], bits);
      ReachesTrans(s, s1, s', bits);
      assert data == [data[0]] + data[1..];
    }
  }

  lemma FirstByte(data: seq<byte>)
    requires data != []
    ensures BytesBits(data) == BitsOf(data[0], 8) + BytesBits(data[1..]) && data[0] < Pow2(8)
  {
    hide BytesBits, BitsOf;
    EightBits();
    assert data == [data[0]] + data[1..];
    BytesConcat([data[0]], data[1..]);
    BytesOne(data[0]);
  }

  /** _tr_stored_block's bits after the block type. */
  lemma ReadStored(s: State, data: seq<byte>, bits: seq<bool>) returns (s': State)
    requires At(s, bits) && s.mode == STORED && |data| < 0x10000 && Has(bits, s.pos, StoredBits(s.pos, data))
    ensures At(s', bits) && Reaches(s, s', bits) && s'.mode == TYPE && s'.last == s.last && s'.far == s.far
    ensures s'.pos == s.pos + |StoredBits(s.pos, data)| && s'.out == s.out + data
  {
    hide BitsOf, Reaches, Peek, Pow2, BytesBits, Align;
    var n := |data|;
    SixteenBits();
    AlignFits(s.pos, |bits|);
    HasConcat(bits, s.pos, Zeros(Padding(s.pos)), BitsOf(n, 16) + (BitsOf(0xFFFF - n, 16) + BytesBits(data)));
    var s1 := ReadAlign(s, bits);
    HasConcat(bits, s1.pos, BitsOf(n, 16), BitsOf(0xFFFF - n, 16) + BytesBits(data));
    HasConcat(bits, s1.pos + 16, BitsOf(0xFFFF - n, 16), BytesBits(data));
    HasPeek(bits, s1.pos, n, 16);
    HasPeek(bits, s1.pos + 16, 0xFFFF - n, 16);
    var s2 := Step(s1, bits).value;
    ReachesStep(s1, bits);
    s' := ReadCopy(s2, data, bits);
    ReachesTrans(s, s1, s2, bits);
    ReachesTrans(s, s2, s', bits);
  }

  lemma SixteenBits()
    ensures Pow2(16) == 0x10000
  {
    EightBits();
    Pow2Add(8, 8);
  }

  /** Any input that begins with the bits w brings the decoder to the end of a block with the
      output out; last says whether that block is the final one. No byte is copied over a distance
      above far. */
  ghost predicate Conveys(w: seq<bool>, out: seq<byte>, last: bool, far: nat)
  {
    forall bits: seq<bool> :: |bits| % 8 == 0 && Has(bits, 0, w) ==> Arrives(bits, |w|, out, last, far)
  }

  ghost predicate Arrives(bits: seq<bool>, pos: nat, out: seq<byte>, last: bool, far: nat)
    requires |bits| % 8 == 0
  {
    exists s: State :: Reaches(Start(), s, bits) && s.mode == TYPE && s.pos == pos && s.out == out && s.last == last
      && s.far <= far
  }

  lemma ConveysNothing(far: nat)
    ensures Conveys([], [], false, far)
  {
    hide Reaches;
    forall bits: seq<bool> | |bits| % 8 == 0 && Has(bits, 0, []) ensures Arrives(bits, 0, [], false, far) {
      ReachesSelf(Start(), bits);
    }
  }

  lemma StartAt(bits: seq<bool>)
    requires |bits| % 8 == 0
    ensures At(Start(), bits)
  {
  }

  /** After the bits w and a block type. */
  lemma Typed(w: seq<bool>, out: seq<byte>, kind: nat, last: bool, bits: seq<bool>, far: nat) returns (s: State)
    requires Conveys(w, out, false, far) && kind <= 2 && |bits| % 8 == 0 && Has(bits, 0, w + TypeBits(kind, last))
    ensures At(Start(), bits) && At(s, bits) && Reaches(Start(), s, bits)
    ensures s.pos == |w| + 3 && s.out == out && s.last == last && s.far <= far
    ensures kind == STORED_BLOCK ==> s.mode == STORED
    ensures kind == STATIC_TREES ==> InBlock(s, FixedLens(), FixedDists(), bits)
    ensures kind == DYN_TREES ==> s.mode == TABLE
  {
    hide Reaches, TypeBits, At, Has, InBlock, FixedLens, FixedDists;
    StartAt(bits);
    HasConcat(bits, 0, w, TypeBits(kind, last));
    var s0: State :| Reaches(Start(), s0, bits) && s0.mode == TYPE && s0.pos == |w| && s0.out == out && s0.last == false
      && s0.far <= far;
    ReachedAt(s0, bits);
    s := ReadType(s0, kind, last, bits);
    ReachesTrans(Start(), s0, s, bits);
  }

  lemma Arrived(s: State, bits: seq<bool>)
    requires |bits| % 8 == 0 && Reaches(Start(), s, bits) && s.mode == TYPE
    ensures forall far :: s.far <= far ==> Arrives(bits, s.pos, s.out, s.last, far)
  {
    hide Reaches;
  }

  /** A stored block conveys its data. */
  lemma ConveysStored(w: seq<bool>, out: seq<byte>, data: seq<byte>, last: bool, far: nat)
    requires Conveys(w, out, false, far) && |data| < 0x10000
    ensures Conveys(w + TypeBits(STORED_BLOCK, last) + StoredBits(|w| + 3, data), out + data, last, far)
  {
    hide Reaches, TypeBits, StoredBits, At, Has, Arrives;
    var a, b := TypeBits(STORED_BLOCK, last), StoredBits(|w| + 3, data);
    TypeSize(STORED_BLOCK, last);
    forall bits: seq<bool> | |bits| % 8 == 0 && Has(bits, 0, w + a + b)
      ensures Arrives(bits, |w + a + b|, out + data, last, far)
    {
      HasConcat(bits, 0, w + a, b);
      var s := Typed(w, out, STORED_BLOCK, last, bits, far);
      var s' := ReadStored(s, data, bits);
      ReachesTrans(Start(), s, s', bits);
      Arrived(s', bits);
    }
  }

  lemma TypeSize(kind: nat, last: bool)
    ensures |TypeBits(kind, last)| == 3
  {
  }

  lemma ReachedAt(s: State, bits: seq<bool>)
    requires |bits| % 8 == 0 && At(Start(), bits) && Reaches(Start(), s, bits)
    ensures At(s, bits)
  {
    var n: nat :| Iter(Start(), bits, n) == Some(s);
  }

  /** A block with the fixed codes conveys its tokens. */
  lemma ConveysFixed(w: seq<bool>, out: seq<byte>, ts: seq<Token>, last: bool, far: nat)
    requires Conveys(w, out, false, far) && Expandable(out, ts) && Reach(ts, far)
    requires AllSendable(FixedLens(), FixedDists(), ts) && HasCode(FixedLens(), END_BLOCK)
    ensures Conveys(w + TypeBits(STATIC_TREES, last) + BodyBits(FixedLens(), FixedDists(), ts),
                    Expand(out, ts), last, far)
  {
    hide Reaches, TypeBits, BodyBits, At, Has, InBlock, FixedLens, FixedDists, AllSendable, HasCode, Expandable, Expand,
      Arrives;
    var a, b := TypeBits(STATIC_TREES, last), BodyBits(FixedLens(), FixedDists(), ts);
    TypeSize(STATIC_TREES, last);
    forall bits: seq<bool> | |bits| % 8 == 0 && Has(bits, 0, w + a + b)
      ensures Arrives(bits, |w + a + b|, Expand(out, ts), last, far)
    {
      HasConcat(bits, 0, w + a, b);
      var s := Typed(w, out, STATIC_TREES, last, bits, far);
      var s' := ReadBody(s, FixedLens(), FixedDists(), ts, bits);
      ReachesTrans(Start(), s, s', bits);
      Arrived(s', bits);
    }
  }

  /** A block with its own codes conveys its tokens. */
  lemma ConveysDynamic(w: seq<bool>, out: seq<byte>, llens: seq<nat>, dlens: seq<nat>, bl: seq<nat>, blcodes: nat,
                       ts: seq<Token>, last: bool, far: nat)
    requires Conveys(w, out, false, far) && Expandable(out, ts) && Reach(ts, far) && Sound(llens, dlens, bl, blcodes)
    requires AllSendable(llens, dlens, ts) && HasCode(llens, END_BLOCK)
    ensures Conveys(w + TypeBits(DYN_TREES, last) + HeaderBits(llens, dlens, bl, blcodes) + BodyBits(llens, dlens, ts),
                    Expand(out, ts), last, far)
  {
    hide Reaches, TypeBits, BodyBits, HeaderBits, At, Has, InBlock, Sound, AllSendable, HasCode, Expandable, Expand,
      Arrives;
    var a, b, c := TypeBits(DYN_TREES, last), HeaderBits(llens, dlens, bl, blcodes), BodyBits(llens, dlens, ts);
    TypeSize(DYN_TREES, last);
    forall bits: seq<bool> | |bits| % 8 == 0 && Has(bits, 0, w + a + b + c)
      ensures Arrives(bits, |w + a + b + c|, Expand(out, ts), last, far)
    {
      HasConcat(bits, 0, w + a + b, c);
      HasConcat(bits, 0, w + a, b);
      var s := Typed(w, out, DYN_TREES, last, bits, far);
      var s1 := ReadHeader(s, llens, dlens, bl, blcodes, bits);
      var s' := ReadBody(s1, llens, dlens, ts, bits);
      InBlockAt(s1, llens, dlens, bits);
      ReachesTrans(Start(), s, s1, bits);
      ReachesTrans(Start(), s1, s', bits);
      Arrived(s', bits);
    }
  }

  lemma InBlockAt(s: State, llens: seq<nat>, dlens: seq<nat>, bits: seq<bool>)
    requires InBlock(s, llens, dlens, bits)
    ensures At(s, bits)
  {
  }

  /** A finished stream, padded to bytes and followed by anything, decodes to its output, and
      the decoder stops at the end of its last byte. */
  lemma ConveysAll(w: seq<bool>, out: seq<byte>, bits: seq<bool>, far: nat) returns (s: State)
    requires Conveys(w, out, true, far) && |bits| % 8 == 0 && Has(bits, 0, w)
    ensures At(Start(), bits) && Reaches(Start(), s, bits) && s.mode == DONE && s.out == out && s.pos == Align(|w|)
      && s.far <= far
    ensures At(s, bits) && Stuck(s, bits)
  {
    hide Reaches, Has;
    StartAt(bits);
    var s1: State :| Reaches(Start(), s1, bits) && s1.mode == TYPE && s1.pos == |w| && s1.out == out && s1.last == true
      && s1.far <= far;
    ReachedAt(s1, bits);
    s := Step(s1, bits).value;
    ReachesStep(s1, bits);
    ReachesTrans(Start(), s1, s, bits);
  }

  /** Any input that begins with the bits w decodes to out, and the decoder stops at the end
      of w. */
  ghost predicate Delivers(w: seq<bool>, out: seq<byte>, far: nat)
  {
    forall bits: seq<bool> :: |bits| % 8 == 0 && Has(bits, 0, w) ==> Finishes(bits, |w|, out, far)
  }

  ghost predicate Finishes(bits: seq<bool>, pos: nat, out: seq<byte>, far: nat)
    requires |bits| % 8 == 0
  {
    exists s: State :: Reaches(Start(), s, bits) && s.mode == DONE && s.pos == pos && s.out == out && s.far <= far
  }

  lemma DeliversPadded(w: seq<bool>, out: seq<byte>, far: nat)
    requires Conveys(w, out, true, far)
    ensures Delivers(w + Zeros(Padding(|w|)), out, far)
  {
    hide Reaches, Has, Conveys, Zeros;
    var z := Zeros(Padding(|w|));
    ZerosSize(Padding(|w|));
    forall bits: seq<bool> | |bits| % 8 == 0 && Has(bits, 0, w + z) ensures Finishes(bits, |w + z|, out, far) {
      HasConcat(bits, 0, w, z);
      var s := ConveysAll(w, out, bits, far);
    }
  }

  lemma ZerosSize(n: nat)
    ensures |Zeros(n)| == n
  {
  }
}
