/** The format of RFC 1951 in numbers, section by section: what the tables, codes and orders that writer and
    reader share come to, without naming them. */
module Rfc1951 {
  import opened Powers
  import opened Bits
  import opened BitStreams
  import opened Canonical
  import opened TableSpec
  import opened Tokens
  import opened InflateSpec
  import opened InflateRuns
  import opened BlockSpec
  import opened CodeLengths
  import opened HeaderSpec
  import opened StreamSpec

  /** Bit k of a number. */
  predicate BitAt(v: nat, k: nat)
  {
    v / Pow2(k) % 2 == 1
  }

  lemma {:induction false} BitsAt(v: nat, n: nat, k: nat)
    requires k < n
    ensures BitsOf(v, n)[k] == BitAt(v, k)
    decreases n
  {
    if k > 0 {
      BitsAt(v / 2, n - 1, k - 1);
      HalfDiv(v, Pow2(k - 1));
    }
  }

  lemma HalfDiv(v: nat, p: nat)
    requires p >= 1
    ensures v / 2 / p == v / (2 * p)
  {
    var q, r := v / 2 / p, v / 2 % p;
    assert v / 2 == p * q + r;
    assert v == (2 * p) * q + (2 * r + v % 2);
    DivModUnique(v, 2 * p, q, 2 * r + v % 2);
  }

  /** Section 3.1.1: bytes are filled from the lowest bit up. */
  lemma {:induction false} PackedBits(s: seq<byte>, k: nat)
    requires k < 8 * |s|
    ensures BytesBits(s)[k] == BitAt(s[k / 8], k % 8)
  {
    hide BitsOf, Pow2;
    var n := |s| - 1;
    if k < 8 * n {
      PackedBits(s[..n], k);
    } else {
      BitsAt(s[n], 8, k - 8 * n);
    }
  }

  lemma {:induction false} BitsReversed(v: nat, n: nat, k: nat)
    requires k < n
    ensures BitsOf(Rev(v, n), n)[k] == BitsOf(v, n)[n - 1 - k]
    decreases n
  {
    hide Pow2, BitsOf, Rev;
    var b := v % 2;
    RevStep(v, n);
    BitsPlus(Rev(v / 2, n - 1), n - 1, b, 1);
    OneBit(v);
    BitsNext(v, n);
    if k < n - 1 {
      BitsReversed(v / 2, n - 1, k);
    }
  }

  lemma OneBit(v: nat)
    ensures BitsOf(v % 2, 1) == [v % 2 == 1]
  {
  }

  lemma BitsNext(v: nat, n: nat)
    requires n >= 1
    ensures BitsOf(v, n) == [v % 2 == 1] + BitsOf(v / 2, n - 1)
  {
  }

  /** A code goes out from its highest bit down. */
  lemma CodePacked(lens: seq<nat>, i: nat, k: nat)
    requires HasCode(lens, i) && k < lens[i]
    ensures |CodeBits(lens, i)| == lens[i] && CodeBits(lens, i)[k] == BitAt(Code(lens, i), lens[i] - 1 - k)
  {
    hide Code, BitsOf, Rev, Pow2;
    BitsReversed(Code(lens, i), lens[i], k);
    BitsAt(Code(lens, i), lens[i], lens[i] - 1 - k);
  }

  /** Section 3.2.2: codes of one length have consecutive values in the order of their symbols. */
  lemma Consecutive(lens: seq<nat>, i: nat, j: nat)
    requires i < j < |lens| && lens[i] == lens[j] >= 1 && forall k :: i < k < j ==> lens[k] != lens[i]
    ensures Code(lens, j) == Code(lens, i) + 1
  {
    hide FirstCode;
    OccGap(lens, lens[i], i + 1, j);
    assert lens[..i + 1][..i] == lens[..i];
  }

  lemma {:induction false} OccGap(lens: seq<nat>, b: nat, i: nat, j: nat)
    requires i <= j <= |lens| && forall k :: i <= k < j ==> lens[k] != b
    ensures Occ(lens[..j], b) == Occ(lens[..i], b)
    decreases j
  {
    if i < j {
      OccGap(lens, b, i, j - 1);
      assert lens[..j][..j - 1] == lens[..j - 1];
    }
  }

  /** Shorter codes come first: a longer code begins with a number above every shorter one. */
  lemma ShorterFirst(lens: seq<nat>, i: nat, j: nat)
    requires i < |lens| && j < |lens| && 1 <= lens[i] < lens[j]
    ensures (Code(lens, i) + 1) * Pow2(lens[j] - lens[i]) <= Code(lens, j)
  {
    hide Space, Occ, Pow2;
    var d := lens[j] - lens[i];
    CodeBounds(lens, i);
    CodeBounds(lens, j);
    FirstAfter(lens, lens[i], d);
    MulOrder(Code(lens, i) + 1, Space(lens, lens[i]), Pow2(d));
  }

  /** The first code of the shortest length is zero. */
  lemma FirstIsZero(lens: seq<nat>, i: nat)
    requires i < |lens| && lens[i] >= 1
    requires forall j :: 0 <= j < |lens| ==> lens[j] == 0 || lens[j] > lens[i] || (lens[j] == lens[i] && j >= i)
    ensures Code(lens, i) == 0
  {
    NoSpace(lens, lens[i] - 1);
    OccGap(lens, lens[i], 0, i);
  }

  lemma {:induction false} NoSpace(lens: seq<nat>, b: nat)
    requires forall j :: 0 <= j < |lens| ==> lens[j] == 0 || lens[j] > b
    ensures Space(lens, b) == 0
  {
    if b > 0 {
      NoSpace(lens, b - 1);
      OccGap(lens, b, 0, |lens|);
      assert lens[..|lens|] == lens;
    }
  }

  /** Section 3.2.3: one bit for the last block and two for its kind. */
  lemma TypeIs(last: bool)
    ensures TypeBits(STORED_BLOCK, last) == [last, false, false]
    ensures TypeBits(STATIC_TREES, last) == [last, true, false]
    ensures TypeBits(DYN_TREES, last) == [last, false, true]
  {
    var l := if last then 1 else 0;
    ThreeBits(l);
    ThreeBits(2 + l);
    ThreeBits(4 + l);
  }

  lemma ThreeBits(v: nat)
    ensures BitsOf(v, 3) == [v % 2 == 1, v / 2 % 2 == 1, v / 2 / 2 % 2 == 1]
  {
    assert BitsOf(v / 2 / 2, 1) == [v / 2 / 2 % 2 == 1] + BitsOf(v / 2 / 2 / 2, 0);
  }

  /** Section 3.2.4: the padding, and where the length and the data stand after it. */
  lemma StoredIs(pos: nat, data: seq<byte>)
    requires |data| < 0x10000
    ensures var pad, b := (8 - pos % 8) % 8, StoredBits(pos, data);
      && |b| == pad + 32 + 8 * |data| && (pos + pad) % 8 == 0
      && b[pad..pad + 32] == BytesBits([|data| % 256, |data| / 256, 255 - |data| % 256, 255 - |data| / 256])
      && b[pad + 32..] == BytesBits(data) && forall k :: 0 <= k < pad ==> !b[k]
  {
    hide BitsOf, BytesBits;
    var n := |data|;
    PaddingIs(pos);
    NoneSet((8 - pos % 8) % 8);
    TwoBytes(n);
    TwoBytes(0xFFFF - n);
    assert (0xFFFF - n) % 256 == 255 - n % 256 && (0xFFFF - n) / 256 == 255 - n / 256;
    BytesConcat([n % 256, n / 256], [255 - n % 256, 255 - n / 256]);
    assert [n % 256, n / 256] + [255 - n % 256, 255 - n / 256] == [n % 256, n / 256, 255 - n % 256, 255 - n / 256];
  }

  lemma PaddingIs(pos: nat)
    ensures Padding(pos) == (8 - pos % 8) % 8 && (pos + Padding(pos)) % 8 == 0
  {
  }

  lemma {:induction false} NoneSet(n: nat)
    ensures |Zeros(n)| == n && forall k :: 0 <= k < n ==> !Zeros(n)[k]
  {
    if n > 0 {
      NoneSet(n - 1);
    }
  }

  lemma TwoBytes(v: nat)
    requires v < 0x10000
    ensures BytesBits([v % 256, v / 256]) == BitsOf(v, 16)
  {
    hide BitsOf, BytesBits, High;
    var lo: byte, hi: byte := v % 256, v / 256;
    EightBits();
    BitsPlus(lo, 8, hi, 8);
    assert [lo, hi] == [lo] + [hi];
    BytesConcat([lo], [hi]);
    BytesOne(lo);
    BytesOne(hi);
  }

  /** Section 3.2.5: the extra bits of length code c and the first length that has it. */
  function LengthExtra(c: nat): nat
  {
    if c < 8 || c == 28 then 0 else c / 4 - 1
  }

  function LengthFrom(c: nat): nat
  {
    if c == 28 then 258 else if c < 8 then c + 3 else (4 + c % 4) * Pow2(c / 4 - 1) + 3
  }

  function DistExtra(c: nat): nat
  {
    if c < 4 then 0 else c / 2 - 1
  }

  function DistFrom(c: nat): nat
  {
    if c < 4 then c + 1 else (2 + c % 2) * Pow2(c / 2 - 1) + 1
  }

  /** The tables of the writer and of the reader. */
  lemma LengthTables(c: nat)
    requires c <= 28
    ensures EXTRA_LBITS[c] == LengthExtra(c) && LEXT[c] == 16 + LengthExtra(c)
    ensures LBASE[c] == LengthFrom(c) && (c < 28 ==> BASE_LENGTH[c] == LengthFrom(c) - 3)
  {
    hide LengthFrom;
    if c < 28 {
      LengthStart(c);
    } else {
      LastLength();
    }
  }

  lemma DistTables(c: nat)
    requires c < 30
    ensures EXTRA_DBITS[c] == DistExtra(c) && DEXT[c] == 16 + DistExtra(c)
    ensures DBASE[c] == DistFrom(c) && BASE_DIST[c] == DistFrom(c) - 1
  {
    hide DistFrom;
    DistStart(c);
  }

  lemma LastLength()
    ensures LengthFrom(28) == 258
  {
  }

  lemma {:induction false} LengthStart(c: nat)
    requires c < 28
    ensures BASE_LENGTH[c] == LengthFrom(c) - 3
  {
    hide Pow2, BASE_LENGTH, EXTRA_LBITS;
    LengthSizes();
    if c <= 8 {
      FirstLengths(c);
    } else {
      LengthStart(c - 1);
      LengthBaseStep(c - 1);
      LengthBits(c - 1);
      NextStart(4, c);
    }
  }

  lemma LengthSizes()
    ensures |BASE_LENGTH| == |EXTRA_LBITS| == 29 && |BASE_DIST| == |EXTRA_DBITS| == 30
  {
  }

  lemma FirstLengths(c: nat)
    requires c <= 8
    ensures BASE_LENGTH[c] == LengthFrom(c) - 3
  {
    SmallPowers();
  }

  lemma LengthBits(c: nat)
    requires c <= 28
    ensures EXTRA_LBITS[c] == LengthExtra(c)
  {
  }

  lemma {:induction false} DistStart(c: nat)
    requires c < 30
    ensures BASE_DIST[c] == DistFrom(c) - 1
  {
    hide Pow2, BASE_DIST, EXTRA_DBITS;
    LengthSizes();
    if c <= 4 {
      FirstDists(c);
    } else {
      DistStart(c - 1);
      DistBaseStep(c - 1);
      DistBits(c - 1);
      NextStart(2, c);
    }
  }

  lemma FirstDists(c: nat)
    requires c <= 4
    ensures BASE_DIST[c] == DistFrom(c) - 1
  {
    SmallPowers();
  }

  lemma DistBits(c: nat)
    requires c < 30
    ensures EXTRA_DBITS[c] == DistExtra(c)
  {
  }

  /** Where one code's range ends the next one's begins. */
  lemma NextStart(m: nat, c: nat)
    requires (m == 2 || m == 4) && c > 2 * m
    ensures (m + (c - 1) % m) * Pow2((c - 1) / m - 1) + Pow2((c - 1) / m - 1) == (m + c % m) * Pow2(c / m - 1)
  {
    hide Pow2;
    if c % m == 0 {
      var p := Pow2((c - 1) / m - 1);
      assert (c - 1) % m == m - 1 && c / m - 1 == (c - 1) / m;
      PowNext(c / m - 1);
    } else {
      assert (c - 1) / m == c / m && (c - 1) % m == c % m - 1;
    }
  }

  lemma PowNext(n: nat)
    requires n >= 1
    ensures Pow2(n) == 2 * Pow2(n - 1)
  {
  }

  /** Section 3.2.6: the fixed codes. */
  lemma FixedCode(v: nat)
    requires v < 288
    ensures HasCode(FixedLens(), v)
    ensures var lens := FixedLens();
      if v < 144 then lens[v] == 8 && Code(lens, v) == 0x30 + v
      else if v < 256 then lens[v] == 9 && Code(lens, v) == 0x190 + (v - 144)
      else if v < 280 then lens[v] == 7 && Code(lens, v) == v - 256
      else lens[v] == 8 && Code(lens, v) == 0xC0 + (v - 280)
  {
    hide Occ;
    FixedSpace();
    var a1: seq<nat>, a2: seq<nat>, a3: seq<nat>, a4: seq<nat>
      := seq(144, _ => 8), seq(112, _ => 9), seq(24, _ => 7), seq(8, _ => 8);
    var b := FixedLens()[v];
    OccConst(144, 8, b);
    OccConst(112, 9, b);
    OccConst(24, 7, b);
    if v < 144 {
      assert FixedLens()[..v] == seq(v, _ => 8);
      OccConst(v, 8, b);
    } else if v < 256 {
      assert FixedLens()[..v] == a1 + seq(v - 144, _ => 9);
      OccConcat(a1, seq(v - 144, _ => 9), b);
      OccConst(v - 144, 9, b);
    } else if v < 280 {
      assert FixedLens()[..v] == a1 + a2 + seq(v - 256, _ => 7);
      OccConcat(a1, a2, b);
      OccConcat(a1 + a2, seq(v - 256, _ => 7), b);
      OccConst(v - 256, 7, b);
    } else {
      assert FixedLens()[..v] == a1 + a2 + a3 + seq(v - 280, _ => 8);
      OccConcat(a1, a2, b);
      OccConcat(a1 + a2, a3, b);
      OccConcat(a1 + a2 + a3, seq(v - 280, _ => 8), b);
      OccConst(v - 280, 8, b);
    }
  }

  lemma FixedSpace()
    ensures FirstCode(FixedLens(), 7) == 0 && FirstCode(FixedLens(), 8) == 48 && FirstCode(FixedLens(), 9) == 400
  {
    hide Occ, FixedLens;
    FixedOcc(1);
    FixedOcc(2);
    FixedOcc(3);
    FixedOcc(4);
    FixedOcc(5);
    FixedOcc(6);
    FixedOcc(7);
    FixedOcc(8);
    var lens := FixedLens();
    assert Space(lens, 0) == 0;
    assert Space(lens, 2) == 2 * Space(lens, 1) + Occ(lens, 2);
    assert Space(lens, 4) == 2 * Space(lens, 3) + Occ(lens, 4);
    assert Space(lens, 6) == 2 * Space(lens, 5) + Occ(lens, 6);
    assert Space(lens, 8) == 2 * Space(lens, 7) + Occ(lens, 8);
  }

  lemma FixedDist(v: nat)
    requires v < 32
    ensures HasCode(FixedDists(), v) && FixedDists()[v] == 5 && Code(FixedDists(), v) == v
  {
    hide Occ;
    var lens := FixedDists();
    FixedOcc(1);
    FixedOcc(2);
    FixedOcc(3);
    FixedOcc(4);
    assert Space(lens, 2) == 2 * Space(lens, 1) + Occ(lens, 2);
    assert Space(lens, 4) == 2 * Space(lens, 3) + Occ(lens, 4);
    assert lens[..v] == seq(v, _ => 5);
    OccConst(v, 5, 5);
  }

  /** Section 3.2.7: the code length code whose length is sent as number k. */
  function Sent(k: nat): (r: nat)
    requires k < 19
    ensures r < 19
  {
    if k < 3 then 16 + k else if k == 3 then 0 else if k % 2 == 0 then 8 + (k - 4) / 2 else 7 - (k - 5) / 2
  }

  lemma OrderIs(k: nat)
    requires k < 19
    ensures k < |ORDER| && ORDER[k] == Sent(k) < 19
  {
  }

  lemma {:induction false} OrderAt(bl: seq<nat>, k: nat, n: nat, j: nat)
    requires |bl| == 19 && k <= j < n <= 19
    ensures |OrderBits(bl, k, n)| == 3 * (n - k)
    ensures OrderBits(bl, k, n)[3 * (j - k)..3 * (j - k) + 3] == BitsOf(bl[Sent(j)], 3)
    decreases n - k
  {
    hide ORDER, Sent;
    OrderIs(k);
    OrderIs(j);
    var b, more := BitsOf(bl[ORDER[k]], 3), OrderBits(bl, k + 1, n);
    assert OrderBits(bl, k, n) == b + more;
    if k + 1 < n {
      OrderAt(bl, k + 1, n, if j == k then j + 1 else j);
    } else {
      NoOrder(bl, n);
    }
    if j > k {
      SliceAfter(b, more, 3 * (j - k - 1));
    }
  }

  lemma SliceAfter(a: seq<bool>, b: seq<bool>, i: nat)
    requires |a| == 3 && i + 3 <= |b|
    ensures (a + b)[i + 3..i + 6] == b[i..i + 3]
  {
  }

  /** The header that is written: the three counts, then the lengths of the code length codes in that order. */
  lemma HeaderIs(llens: seq<nat>, dlens: seq<nat>, bl: seq<nat>, n: nat, k: nat)
    requires Sound(llens, dlens, bl, n) && k < n
    ensures var b := HeaderBits(llens, dlens, bl, n);
      && |b| >= 14 + 3 * n && b[..5] == BitsOf(|llens| - 257, 5) && b[5..10] == BitsOf(|dlens| - 1, 5)
      && b[10..14] == BitsOf(n - 4, 4) && b[14 + 3 * k..14 + 3 * k + 3] == BitsOf(bl[Sent(k)], 3)
    ensures forall j :: n <= j < 19 ==> bl[Sent(j)] == 0
  {
    hide BitsOf, OrderBits, ItemsBits, TreeItems, Accepted, Sent, ORDER;
    OrderAt(bl, 0, n, k);
    var a, o, rest := CountBits(|llens|, |dlens|, n), OrderBits(bl, 0, n),
                      ItemsBits(bl, TreeItems(llens)) + ItemsBits(bl, TreeItems(dlens));
    assert HeaderBits(llens, dlens, bl, n) == a + o + rest;
    SliceMiddle(a, o, rest, 3 * k);
    forall j | n <= j < 19 ensures bl[Sent(j)] == 0 {
      OrderIs(j);
    }
  }

  lemma SliceMiddle(a: seq<bool>, b: seq<bool>, c: seq<bool>, i: nat)
    requires i + 3 <= |b|
    ensures (a + b + c)[..|a|] == a && (a + b + c)[|a| + i..|a| + i + 3] == b[i..i + 3]
  {
  }

  /** The reader takes them in that order, and those that are missing for zero. */
  lemma OrderRead(s: State, bits: seq<bool>) returns (s': State)
    requires At(s, bits) && s.mode == LENLENS && s.have == 0 && Fits(s.pos, 3 * s.ncode, bits)
    ensures Reaches(s, s', bits) && s'.pos == s.pos + 3 * s.ncode && |s'.lens| == 320
    ensures s'.mode == if Accepted(CODES, s'.lens[..19]) then CODELENS else BAD
    ensures s'.mode == CODELENS ==> s'.lcode == s'.lens[..19]
    ensures forall k :: 0 <= k < 19 ==>
      s'.lens[Sent(k)] == if k < s.ncode then Peek(bits, s.pos + 3 * k, 3) else 0
  {
    hide Reaches, Peek, Accepted, At;
    var pos := s.pos;
    LenLensParts(s, bits);
    var s1 := ReadSome(s, pos, bits);
    LenLensParts(s1, bits);
    s' := AfterLenLens(s1, bits);
    ReachesTrans(s, s1, s', bits);
    forall k | 0 <= k < 19 ensures s'.lens[Sent(k)] == if k < s.ncode then Peek(bits, pos + 3 * k, 3) else 0 {
      OrderIs(k);
      if k < s.ncode {
        ClearKeeps(s1.lens, s.ncode, k);
      } else {
        ClearZero(s1.lens, s.ncode, k);
      }
    }
  }

  lemma LenLensParts(s: State, bits: seq<bool>)
    requires At(s, bits) && s.mode == LENLENS
    ensures |s.lens| == 320 && s.have <= s.ncode <= 19
  {
  }

  /** The lengths read so far. */
  ghost predicate Taken(s: State, pos: nat, bits: seq<bool>)
    requires |s.lens| == 320 && s.have <= 19 && pos + 3 * s.have <= |bits|
  {
    forall k :: 0 <= k < s.have ==> s.lens[Sent(k)] == Peek(bits, pos + 3 * k, 3)
  }

  lemma {:induction false} ReadSome(s: State, pos: nat, bits: seq<bool>) returns (s': State)
    requires At(s, bits) && s.mode == LENLENS && |s.lens| == 320 && s.have <= s.ncode <= 19
    requires s.pos == pos + 3 * s.have && Fits(pos, 3 * s.ncode, bits) && Taken(s, pos, bits)
    ensures At(s', bits) && Reaches(s, s', bits) && SameHeader(s, s') && |s'.lens| == 320
    ensures s'.have == s.ncode && s'.pos == pos + 3 * s.ncode && Taken(s', pos, bits)
    decreases s.ncode - s.have
  {
    hide Reaches, Peek, At;
    if s.have == s.ncode {
      s' := s;
      ReachesSelf(s, bits);
    } else {
      var s1 := ReadNext(s, bits);
      TakenNext(s, s1, pos, bits);
      s' := ReadSome(s1, pos, bits);
      ReachesTrans(s, s1, s', bits);
    }
  }

  lemma ReadNext(s: State, bits: seq<bool>) returns (s': State)
    requires At(s, bits) && s.mode == LENLENS && s.have < s.ncode <= 19 && Fits(s.pos, 3, bits) && |s.lens| == 320
    ensures At(s', bits) && Reaches(s, s', bits)
    ensures s' == s.(lens := s.lens[Sent(s.have) := Peek(bits, s.pos, 3)], have := s.have + 1, pos := s.pos + 3)
  {
    hide Reaches, Peek, Accepted, ORDER, Sent;
    OrderIs(s.have);
    s' := Step(s, bits).value;
    ReachesStep(s, bits);
  }

  lemma TakenNext(s: State, s': State, pos: nat, bits: seq<bool>)
    requires |s.lens| == 320 && s.have < 19 && pos + 3 * s.have + 3 <= |bits| && s.pos == pos + 3 * s.have
    requires Taken(s, pos, bits)
    requires s' == s.(lens := s.lens[Sent(s.have) := Peek(bits, s.pos, 3)], have := s.have + 1, pos := s.pos + 3)
    ensures Taken(s', pos, bits)
  {
    hide Peek;
  }

  lemma AfterLenLens(s: State, bits: seq<bool>) returns (s': State)
    requires At(s, bits) && s.mode == LENLENS && s.have == s.ncode <= 19 && |s.lens| == 320
    ensures Reaches(s, s', bits) && s'.pos == s.pos && s'.lens == ClearFrom(s.lens, s.ncode)
    ensures s'.mode == if Accepted(CODES, s'.lens[..19]) then CODELENS else BAD
    ensures s'.mode == CODELENS ==> s'.lcode == s'.lens[..19]
  {
    hide Reaches, Accepted, ClearFrom;
    s' := Step(s, bits).value;
    ReachesStep(s, bits);
  }

  lemma {:induction false} ClearKeeps(lens: seq<nat>, n: nat, k: nat)
    requires |lens| == 320 && k < n <= 19
    ensures ClearFrom(lens, n)[Sent(k)] == lens[Sent(k)]
    decreases 19 - n
  {
    hide ORDER;
    if n < 19 {
      OrderIs(n);
      SentDiffers(k, n);
      ClearKeeps(lens[Sent(n) := 0], n + 1, k);
    }
  }

  lemma SentDiffers(k: nat, n: nat)
    requires k < n < 19
    ensures Sent(k) != Sent(n)
  {
  }

  lemma {:induction false} ClearZero(lens: seq<nat>, n: nat, k: nat)
    requires |lens| == 320 && n <= k < 19
    ensures ClearFrom(lens, n)[Sent(k)] == 0
    decreases 19 - n
  {
    hide ORDER;
    OrderIs(n);
    if k == n {
      ClearKeeps(lens[Sent(n) := 0], n + 1, k);
    } else {
      ClearZero(lens[Sent(n) := 0], n + 1, k);
    }
  }
}
