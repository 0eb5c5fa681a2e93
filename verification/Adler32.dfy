/** adler32.c: sums with the reduction put off, the reductions without division, and
    adler32_combine (section 2.2 of RFC 1950). */
module Adler32 {
  import opened BitStreams

  const BASE: nat := 65521
  const NMAX: nat := 5552
  const WORD: nat := 0x1_0000_0000
  const MAX_OFFSET: int := 0x8000_0000_0000_0000

  /** z_off64_t. */
  type Offset = x: int | -MAX_OFFSET <= x < MAX_OFFSET

  /** The first sum after the data, not reduced. */
  function SumA(a: nat, data: seq<byte>): nat
  {
    if data == [] then a else SumA(a, data[..|data| - 1]) + data[|data| - 1]
  }

  /** The second sum: all the first sums along the way. */
  function SumB(a: nat, s: nat, data: seq<byte>): nat
  {
    if data == [] then s else SumB(a, s, data[..|data| - 1]) + SumA(a, data)
  }

  /** The checksum from the sums a and s on: both reduced after every byte. */
  function Bytewise(a: nat, s: nat, data: seq<byte>): (nat, nat)
  {
    if data == [] then (a % BASE, s % BASE)
    else
      var (a1, s1) := Bytewise(a, s, data[..|data| - 1]);
      var a2 := (a1 + data[|data| - 1]) % BASE;
      (a2, (s1 + a2) % BASE)
  }

  function Pack(a: nat, s: nat): nat
  {
    a + 65536 * s
  }

  /** The definition: from the two halves of adler. */
  function Adler(adler: nat, data: seq<byte>): nat
  {
    var r := Bytewise(adler % 65536, adler / 65536 % 65536, data);
    Pack(r.0, r.1)
  }

  /** Reducing once at the end is enough. */
  lemma {:induction false} ReduceLate(a: nat, s: nat, data: seq<byte>)
    ensures Bytewise(a, s, data) == (SumA(a, data) % BASE, SumB(a, s, data) % BASE)
  {
    if data != [] {
      var n := |data| - 1;
      ReduceLate(a, s, data[..n]);
      ModAdd(SumA(a, data[..n]), data[n]);
      ModAddTwo(SumB(a, s, data[..n]), SumA(a, data));
    }
  }

  lemma ModAdd(x: nat, y: nat)
    ensures (x % BASE + y) % BASE == (x + y) % BASE
  {
  }

  lemma ModAddTwo(x: nat, y: nat)
    ensures (x % BASE + y % BASE) % BASE == (x + y) % BASE
  {
    ModAdd(x, y % BASE);
    ModAdd(y, x);
  }

  lemma {:induction false} SumABound(a: nat, data: seq<byte>)
    ensures SumA(a, data) <= a + 255 * |data|
  {
    if data != [] {
      SumABound(a, data[..|data| - 1]);
    }
  }

  /** The bound behind NMAX, line 13. */
  lemma {:induction false} SumBBound(a: nat, s: nat, data: seq<byte>)
    ensures 2 * SumB(a, s, data) <= 2 * s + 2 * Times(a, |data|) + 255 * Times(|data|, |data| + 1)
  {
    if data != [] {
      var n := |data| - 1;
      SumBBound(a, s, data[..n]);
      SumABound(a, data);
      TimesNext(a, n);
      TimesSquare(n);
    }
  }

  function Times(x: nat, y: nat): nat
  {
    x * y
  }

  lemma TimesNext(a: nat, n: nat)
    ensures Times(a, n + 1) == Times(a, n) + a
  {
  }

  lemma TimesSquare(n: nat)
    ensures Times(n + 1, n + 2) == Times(n, n + 1) + 2 * (n + 1)
  {
  }

  lemma TimesMono(x: nat, y: nat, x': nat, y': nat)
    requires x <= x' && y <= y'
    ensures Times(x, y) <= Times(x', y')
  {
    assert x * y <= x' * y;
    assert x' * y <= x' * y';
  }

  /** No sum over at most NMAX bytes overflows 32 bits, whatever the two halves were. */
  lemma NoOverflow(a: nat, s: nat, data: seq<byte>)
    requires a <= 65535 && s <= 65535 && |data| <= NMAX
    ensures SumA(a, data) < WORD && SumB(a, s, data) < WORD
  {
    hide SumA, SumB;
    SumABound(a, data);
    SumBBound(a, s, data);
    TimesMono(a, |data|, 65535, NMAX);
    TimesMono(|data|, |data| + 1, NMAX, NMAX + 1);
  }

  lemma SumSnoc(a: nat, s: nat, data: seq<byte>, i: nat)
    requires i < |data|
    ensures SumA(a, data[..i + 1]) == SumA(a, data[..i]) + data[i]
    ensures SumB(a, s, data[..i + 1]) == SumB(a, s, data[..i]) + SumA(a, data[..i + 1])
  {
    assert data[..i + 1][..i] == data[..i];
  }

  /** DO1 over a block of at most NMAX bytes: lines 18-22, 91-94, 104-107 and 116-123. The sums stay below
      2^32 all along. */
  method AddBlock(a0: nat, s0: nat, block: seq<byte>) returns (a: nat, s: nat)
    requires a0 <= 65535 && s0 <= 65535 && |block| <= NMAX
    ensures a == SumA(a0, block) && s == SumB(a0, s0, block)
  {
    hide SumA, SumB;
    a, s := a0, s0;
    NoSums(a0, s0, block);
    for i := 0 to |block|
      invariant a == SumA(a0, block[..i]) && s == SumB(a0, s0, block[..i]) && a < WORD && s < WORD
    {
      SumSnoc(a0, s0, block, i);
      NoOverflow(a0, s0, block[..i + 1]);
      a := a + block[i];
      s := s + a;
    }
    assert block[..|block|] == block;
  }

  lemma NoSums(a: nat, s: nat, data: seq<byte>)
    ensures SumA(a, data[..0]) == a && SumB(a, s, data[..0]) == s
  {
  }

  lemma {:induction false} BytewiseConcat(a: nat, s: nat, x: seq<byte>, y: seq<byte>)
    ensures var r := Bytewise(a, s, x); Bytewise(a, s, x + y) == Bytewise(r.0, r.1, y)
    decreases |y|
  {
    var r := Bytewise(a, s, x);
    if y == [] {
      assert x + y == x;
      BytewiseReduced(a, s, x);
    } else {
      var n := |y| - 1;
      BytewiseConcat(a, s, x, y[..n]);
      assert (x + y)[..|x + y| - 1] == x + y[..n];
    }
  }

  lemma BytewiseReduced(a: nat, s: nat, x: seq<byte>)
    ensures var r := Bytewise(a, s, x); r.0 < BASE && r.1 < BASE && r.0 % BASE == r.0 && r.1 % BASE == r.1
  {
  }

  /** Lines 75-83: the shortcut for one byte subtracts at most once. */
  function OneByte(a: nat, s: nat, b: byte): (nat, nat)
  {
    var a1 := if a + b >= BASE then a + b - BASE else a + b;
    var s1 := if s + a1 >= BASE then s + a1 - BASE else s + a1;
    (a1, s1)
  }

  /** The shortcut gives the checksum exactly when the second sum does not need two subtractions. */
  lemma OneByteExact(a: nat, s: nat, b: byte)
    requires a <= 65535 && s <= 65535
    ensures OneByte(a, s, b) == Bytewise(a, s, [b]) <==> s + (a + b) % BASE < 2 * BASE
  {
    hide Bytewise;
    BytewiseOne(a, s, b);
    SmallByte(a + b);
  }

  lemma BytewiseOne(a: nat, s: nat, b: byte)
    ensures Bytewise(a, s, [b]) == ((a + b) % BASE, (s + (a + b) % BASE) % BASE)
  {
    assert [b][..0] == [];
    assert Bytewise(a, s, [b][..0]) == (a % BASE, s % BASE);
    ModAdd(a, b);
    ModAdd(s, (a + b) % BASE);
  }

  lemma SmallByte(x: nat)
    requires x < 2 * BASE
    ensures x % BASE == if x >= BASE then x - BASE else x
  {
  }

  /** From a checksum that is not reduced the shortcut can leave one that is not reduced. */
  lemma OneByteMisses()
    ensures OneByte(65520, 65535, 0) == (65520, 65534) && Bytewise(65520, 65535, [0]) != (65520, 65534)
  {
    OneByteExact(65520, 65535, 0);
  }

  /** From a checksum of some data it never does. */
  lemma OneByteReduced(a: nat, s: nat, b: byte)
    requires a < BASE && s < BASE
    ensures OneByte(a, s, b) == Bytewise(a, s, [b])
  {
    OneByteExact(a, s, b);
  }

  /** adler32_z, lines 63-131; noBuf stands for buf == Z_NULL, noDivide for NO_DIVIDE. */
  method Adler32Z(adler: nat, buf: seq<byte>, noBuf: bool, noDivide: bool) returns (r: nat)
    requires adler < WORD && (noBuf ==> buf == [])
    ensures noBuf ==> r == 1
    ensures !noBuf && |buf| != 1 ==> r == Adler(adler, buf)
    ensures !noBuf && |buf| == 1 ==>
      (r == Adler(adler, buf) <==> adler / 65536 + (adler % 65536 + buf[0]) % BASE < 2 * BASE)
  {
    hide SumA, SumB, Bytewise, Mod28;
    var s: nat, a: nat := adler / 65536 % 65536, adler % 65536;
    ghost var a0, s0 := a, s;
    if |buf| == 1 {
      OneByteExact(a, s, buf[0]);
      OneByteBound(a, s, buf[0]);
      BytewiseReduced(a, s, [buf[0]]);
      assert buf == [buf[0]];
      a := a + buf[0];
      if a >= BASE {
        a := a - BASE;
      }
      s := s + a;
      if s >= BASE {
        s := s - BASE;
      }
      PackSame(a, s, Bytewise(a0, s0, buf).0, Bytewise(a0, s0, buf).1);
      return Pack(a, s);
    }
    if noBuf {
      return 1;
    }
    if |buf| < 16 {
      a, s := ShortBuf(a, s, buf, noDivide);
    } else {
      a, s := LongBuf(a, s, buf, noDivide);
    }
    return Pack(a, s);
  }

  /** Lines 90-99. */
  method ShortBuf(a0: nat, s0: nat, buf: seq<byte>, noDivide: bool) returns (a: nat, s: nat)
    requires a0 <= 65535 && s0 <= 65535 && |buf| < 16
    ensures (a, s) == Bytewise(a0, s0, buf)
  {
    hide SumA, SumB, Bytewise, Mod28;
    ReduceLate(a0, s0, buf);
    SumABound(a0, buf);
    ShortSum(a0, s0, buf);
    a, s := AddBlock(a0, s0, buf);
    a := if a >= BASE then a - BASE else a;
    s := Mod28(noDivide, s);
  }

  /** Lines 101-127. */
  method LongBuf(a0: nat, s0: nat, buf: seq<byte>, noDivide: bool) returns (a: nat, s: nat)
    requires a0 <= 65535 && s0 <= 65535 && |buf| >= 16
    ensures (a, s) == Bytewise(a0, s0, buf)
  {
    hide Bytewise;
    a, s := a0, s0;
    var i: nat := 0;
    while |buf| - i >= NMAX
      invariant i <= |buf| && a <= 65535 && s <= 65535
      invariant (i == 0 && a == a0 && s == s0) || (i > 0 && (a, s) == Bytewise(a0, s0, buf[..i]))
    {
      a, s := FullBlock(a, s, buf, i, NMAX, noDivide, a0, s0);
      i := i + NMAX;
    }
    assert buf[..|buf|] == buf;
    if i < |buf| {
      a, s := FullBlock(a, s, buf, i, |buf| - i, noDivide, a0, s0);
    }
  }

  /** Lines 100-110 and 113-126: n more bytes, then one reduction. */
  method FullBlock(a: nat, s: nat, buf: seq<byte>, i: nat, n: nat, noDivide: bool, ghost a0: nat, ghost s0: nat)
    returns (a': nat, s': nat)
    requires a <= 65535 && s <= 65535 && 1 <= n <= NMAX && i + n <= |buf|
    requires (i == 0 && a == a0 && s == s0) || (i > 0 && (a, s) == Bytewise(a0, s0, buf[..i]))
    ensures a' <= 65535 && s' <= 65535 && (a', s') == Bytewise(a0, s0, buf[..i + n])
  {
    hide SumA, SumB, Bytewise, Mod;
    a', s' := AddBlock(a, s, buf[i..i + n]);
    NoOverflow(a, s, buf[i..i + n]);
    ReduceLate(a, s, buf[i..i + n]);
    if i > 0 {
      BytewiseConcat(a0, s0, buf[..i], buf[i..i + n]);
      assert buf[..i] + buf[i..i + n] == buf[..i + n];
    } else {
      assert buf[i..i + n] == buf[..i + n];
    }
    a', s' := Mod(noDivide, a'), Mod(noDivide, s');
  }

  lemma ShortSum(a: nat, s: nat, data: seq<byte>)
    requires a <= 65535 && s <= 65535 && |data| < 16
    ensures SumB(a, s, data) < 0x1000_0000
  {
    hide SumB;
    SumBBound(a, s, data);
    TimesMono(a, |data|, 65535, 15);
    TimesMono(|data|, |data| + 1, 15, 16);
  }

  lemma OneByteBound(a: nat, s: nat, b: byte)
    requires a <= 65535 && s <= 65535
    ensures OneByte(a, s, b).0 < 65536 && OneByte(a, s, b).1 < 65536
  {
  }

  lemma PackSame(a: nat, s: nat, a': nat, s': nat)
    requires a < 65536 && a' < 65536
    ensures Pack(a, s) == Pack(a', s') <==> a == a' && s == s'
  {
  }

  /** CHOP, lines 28-33: 65536 is 15 more than BASE. */
  function Chop(a: nat): nat
  {
    a % 65536 + 15 * (a / 65536)
  }

  /** MOD28, lines 34-38, without division. */
  function Chop28(a: nat): nat
  {
    var c := Chop(a);
    if c >= BASE then c - BASE else c
  }

  /** MOD, lines 39-43, without division. */
  function Chop32(a: nat): nat
  {
    Chop28(Chop(a))
  }

  /** MOD63, lines 44-55, without division: 2^32 is 225 more than a multiple of BASE. */
  function Chop63(a: nat): nat
  {
    Chop28(Chop(a % WORD + 225 * (a / WORD)))
  }

  lemma ChopSame(a: nat)
    ensures Chop(a) % BASE == a % BASE && Chop(a) <= a
  {
    var h := a / 65536;
    assert a == Chop(a) + BASE * h;
    ModPlus(Chop(a), h);
  }

  lemma ModPlus(x: nat, k: nat)
    ensures (x + BASE * k) % BASE == x % BASE
  {
  }

  /** MOD28 is the remainder exactly when one subtraction is enough after the first step. */
  lemma Chop28Is(a: nat)
    ensures Chop28(a) == a % BASE <==> Chop(a) < 2 * BASE
    ensures a < 0x1000_0000 ==> Chop28(a) == a % BASE
  {
    ChopSame(a);
  }

  lemma Chop32Is(a: nat)
    requires a < WORD
    ensures Chop32(a) == a % BASE
  {
    ChopSame(a);
    Chop28Is(Chop(a));
  }

  lemma Chop63Is(a: nat)
    requires a < MAX_OFFSET
    ensures Chop63(a) == a % BASE
  {
    hide Chop, Chop28;
    var h := a / WORD;
    var b := a % WORD + 225 * h;
    assert a == b + BASE * (65551 * h);
    ModPlus(b, 65551 * h);
    ChopSame(b);
    ChopBound(b);
    Chop28Is(Chop(b));
  }

  lemma ChopBound(b: nat)
    requires b < 0x80_0000_0000
    ensures Chop(b) < 0x1000_0000
  {
  }

  /** MOD, MOD28 and MOD63, lines 28-61, with NO_DIVIDE and without: the remainder either way. */
  function Mod(noDivide: bool, a: nat): (r: nat)
    requires a < WORD
    ensures r == a % BASE
  {
    Chop32Is(a);
    if noDivide then Chop32(a) else a % BASE
  }

  function Mod28(noDivide: bool, a: nat): (r: nat)
    requires a < 0x1000_0000
    ensures r == a % BASE
  {
    Chop28Is(a);
    if noDivide then Chop28(a) else a % BASE
  }

  function Mod63(noDivide: bool, a: nat): (r: nat)
    requires a < MAX_OFFSET
    ensures r == a % BASE
  {
    Chop63Is(a);
    if noDivide then Chop63(a) else a % BASE
  }

  /** sum1 | (sum2 << 16), where sum1 may have a seventeenth bit. */
  function Or16(a: nat, s: nat): nat
  {
    if a < 65536 then Pack(a, s) else Pack(a - 65536, if s % 2 == 0 then s + 1 else s)
  }

  /** The sums of adler32_combine_ before they are reduced, lines 158-164. */
  function FirstOf(adler1: nat, adler2: nat): nat
  {
    adler1 % 65536 + adler2 % 65536 + BASE - 1
  }

  function SecondOf(adler1: nat, adler2: nat, len2: nat): nat
  {
    Times(len2 % BASE, adler1 % 65536) % BASE + adler1 / 65536 % 65536 + adler2 / 65536 % 65536 + BASE - len2 % BASE
  }

  /** adler32_combine_, lines 143-169. The sums are reduced exactly where two subtractions of BASE, or three, are
      enough, which they are for the checksums of any data. */
  method Combine(adler1: nat, adler2: nat, len2: Offset, noDivide: bool) returns (r: nat)
    ensures len2 < 0 ==> r == 0xffff_ffff
    ensures len2 >= 0 ==>
      (r == Pack(FirstOf(adler1, adler2) % BASE, SecondOf(adler1, adler2, len2) % BASE)
       <==> FirstOf(adler1, adler2) < 3 * BASE && SecondOf(adler1, adler2, len2) < 4 * BASE)
    ensures forall x, y :: adler1 == Adler(1, x) && adler2 == Adler(1, y) && len2 == |y| ==> r == Adler(1, x + y)
  {
    hide Times, Adler, Or16, FirstOf, SecondOf, Mod, Mod63;
    if len2 < 0 {
      return 0xffff_ffff;
    }
    SumBounds(adler1, adler2, len2);
    var rem: nat := Mod63(noDivide, len2);
    var sum1: nat := adler1 % 65536;
    ProductFits(rem, sum1);
    var sum2: nat := Mod(noDivide, Times(rem, sum1));
    sum1 := sum1 + adler2 % 65536 + BASE - 1;
    sum2 := sum2 + adler1 / 65536 % 65536 + adler2 / 65536 % 65536 + BASE - rem;
    ghost var x, y := sum1, sum2;
    if sum1 >= BASE { sum1 := sum1 - BASE; }
    if sum1 >= BASE { sum1 := sum1 - BASE; }
    if sum2 >= 2 * BASE { sum2 := sum2 - 2 * BASE; }
    if sum2 >= BASE { sum2 := sum2 - BASE; }
    r := Or16(sum1, sum2);
    ReducedOr(x, y, sum1, sum2);
    forall a, b | adler1 == Adler(1, a) && adler2 == Adler(1, b) && len2 == |b| ensures r == Adler(1, a + b) {
      CombineLaw(a, b);
    }
  }

  lemma ProductFits(rem: nat, sum: nat)
    requires rem < BASE && sum < 65536
    ensures Times(rem, sum) < WORD
  {
    TimesMono(rem, sum, 65520, 65535);
  }

  lemma SumBounds(adler1: nat, adler2: nat, len2: nat)
    ensures FirstOf(adler1, adler2) == adler1 % 65536 + adler2 % 65536 + BASE - 1 <= 3 * BASE + 27
    ensures SecondOf(adler1, adler2, len2)
         == Times(len2 % BASE, adler1 % 65536) % BASE + adler1 / 65536 % 65536 + adler2 / 65536 % 65536
          + BASE - len2 % BASE
    ensures SecondOf(adler1, adler2, len2) <= 4 * BASE + 27
  {
    hide Times;
  }

  /** x after two subtractions and y after three. */
  lemma ReducedOr(x: nat, y: nat, a: nat, s: nat)
    requires x <= 3 * BASE + 27 && y <= 4 * BASE + 27
    requires a == if x >= 2 * BASE then x - 2 * BASE else if x >= BASE then x - BASE else x
    requires s == if y >= 3 * BASE then y - 3 * BASE else if y >= 2 * BASE then y - 2 * BASE
      else if y >= BASE then y - BASE else y
    ensures Or16(a, s) == Pack(x % BASE, y % BASE) <==> x < 3 * BASE && y < 4 * BASE
  {
    ModOf(x);
    ModOf(y);
  }

  lemma ModOf(x: nat)
    ensures x < 5 * BASE ==> x % BASE == if x >= 4 * BASE then x - 4 * BASE else if x >= 3 * BASE then x - 3 * BASE
      else if x >= 2 * BASE then x - 2 * BASE else if x >= BASE then x - BASE else x
  {
  }

  lemma {:induction false} SumAConcat(a: nat, x: seq<byte>, y: seq<byte>)
    ensures SumA(a, x + y) == SumA(SumA(a, x), y)
    decreases |y|
  {
    if y == [] {
      assert x + y == x;
    } else {
      SumAConcat(a, x, y[..|y| - 1]);
      assert (x + y)[..|x + y| - 1] == x + y[..|y| - 1];
    }
  }

  lemma {:induction false} SumBConcat(a: nat, s: nat, x: seq<byte>, y: seq<byte>)
    ensures SumB(a, s, x + y) == SumB(SumA(a, x), SumB(a, s, x), y)
    decreases |y|
  {
    hide SumA;
    if y == [] {
      assert x + y == x;
    } else {
      SumBConcat(a, s, x, y[..|y| - 1]);
      SumAConcat(a, x, y);
      assert (x + y)[..|x + y| - 1] == x + y[..|y| - 1];
    }
  }

  /** What the start contributes to the sums. */
  lemma {:induction false} SumsFrom(a: nat, s: nat, y: seq<byte>)
    requires a >= 1
    ensures SumA(a, y) == SumA(1, y) + a - 1
    ensures SumB(a, s, y) == SumB(1, 0, y) + s + Times(|y|, a) - |y|
  {
    if y != [] {
      SumsFrom(a, s, y[..|y| - 1]);
      TimesAgain(|y| - 1, a);
    }
  }

  lemma TimesAgain(n: nat, a: nat)
    ensures Times(n + 1, a) == Times(n, a) + a
  {
  }

  lemma {:induction false} SumAStart(a: nat, x: seq<byte>)
    ensures SumA(a, x) >= a
  {
    if x != [] {
      SumAStart(a, x[..|x| - 1]);
    }
  }

  lemma TimesCong(n: nat, a: nat)
    ensures Times(n, a) % BASE == Times(n % BASE, a % BASE) % BASE
  {
    var q, r, p, b := n / BASE, n % BASE, a / BASE, a % BASE;
    assert n == BASE * q + r && a == BASE * p + b;
    var k := q * a + r * p;
    Expand(q, r, p, b, a);
    ModPlus(r * b, k);
  }

  lemma Expand(q: nat, r: nat, p: nat, b: nat, a: nat)
    requires a == BASE * p + b
    ensures (BASE * q + r) * a == r * b + BASE * (q * a + r * p)
  {
    assert (BASE * q + r) * a == BASE * (q * a) + r * a;
    assert r * a == r * (BASE * p) + r * b;
    assert r * (BASE * p) == BASE * (r * p);
  }

  /** The two sums of a checksum that began with 1. */
  lemma AdlerParts(x: seq<byte>)
    ensures Adler(1, x) % 65536 == SumA(1, x) % BASE && Adler(1, x) / 65536 == SumB(1, 0, x) % BASE
  {
    hide SumA, SumB, Bytewise;
    ReduceLate(1, 0, x);
  }

  /** The bytes added up, and added up with the last counted once, the one before it twice, and so on. */
  function Plain(x: seq<byte>): nat
  {
    if x == [] then 0 else x[0] + Plain(x[1..])
  }

  function Weighted(x: seq<byte>): nat
  {
    if x == [] then 0 else Times(|x|, x[0]) + Weighted(x[1..])
  }

  lemma {:induction false} WeightedSnoc(x: seq<byte>, b: byte)
    ensures Plain(x + [b]) == Plain(x) + b && Weighted(x + [b]) == Weighted(x) + Plain(x) + b
  {
    if x == [] {
      assert x + [b] == [b] && [b][1..] == [];
    } else {
      WeightedSnoc(x[1..], b);
      assert (x + [b])[1..] == x[1..] + [b] && (x + [b])[0] == x[0];
      TimesAgain(|x|, x[0]);
    }
  }

  lemma {:induction false} SumsAre(x: seq<byte>)
    ensures SumA(1, x) == 1 + Plain(x) && SumB(1, 0, x) == |x| + Weighted(x)
  {
    if x != [] {
      var n := |x| - 1;
      SumsAre(x[..n]);
      WeightedSnoc(x[..n], x[n]);
      assert x == x[..n] + [x[n]];
    }
  }

  /** The checksum in closed form: section 8.2 of RFC 1950. */
  lemma AdlerSums(x: seq<byte>)
    ensures Adler(1, x) == (1 + Plain(x)) % 65521 + 65536 * ((|x| + Weighted(x)) % 65521)
  {
    hide SumA, SumB, Plain, Weighted, Adler;
    AdlerParts(x);
    AdlerIs(x);
    SumsAre(x);
  }

  lemma AdlerFits(x: seq<byte>)
    ensures Adler(1, x) % 65536 < BASE && Adler(1, x) / 65536 < BASE
  {
    hide SumA, SumB, Adler;
    AdlerParts(x);
  }

  /** adler32_combine gives the checksum of the two pieces together: two subtractions, or three, are enough. */
  lemma CombineLaw(x: seq<byte>, y: seq<byte>)
    ensures var a, b := Adler(1, x), Adler(1, y);
      && FirstOf(a, b) < 3 * BASE && SecondOf(a, b, |y|) < 4 * BASE
      && Adler(1, x + y) == Pack(FirstOf(a, b) % BASE, SecondOf(a, b, |y|) % BASE)
  {
    hide Times, Adler;
    AdlerFits(x);
    AdlerFits(y);
    SumsTogether(x, y);
    var a, b, rem := Adler(1, x), Adler(1, y), |y| % BASE;
    HalfFits(a);
    HalfFits(b);
    ModAdd(Times(rem, a % 65536), a / 65536 + b / 65536 + BASE - rem);
  }

  lemma HalfFits(a: nat)
    requires a / 65536 < BASE
    ensures a / 65536 % 65536 == a / 65536
  {
  }

  lemma SumsTogether(x: seq<byte>, y: seq<byte>)
    ensures var a1, s1, a2, s2 := Adler(1, x) % 65536, Adler(1, x) / 65536, Adler(1, y) % 65536, Adler(1, y) / 65536;
      Adler(1, x + y) == Pack((a1 + a2 + BASE - 1) % BASE, (Times(|y| % BASE, a1) + s1 + s2 + BASE - |y| % BASE) % BASE)
  {
    hide SumA, SumB, Bytewise, Times, Adler;
    AdlerParts(x);
    AdlerParts(y);
    AdlerParts(x + y);
    AdlerIs(x + y);
    var a, s, n := SumA(1, x), SumB(1, 0, x), |y|;
    SumAStart(1, x);
    SumAConcat(1, x, y);
    SumBConcat(1, 0, x, y);
    SumsFrom(a, s, y);
    FirstSum(a, SumA(1, y));
    TimesCong(n, a);
    SecondSum(Times(n, a), Times(n % BASE, a % BASE), s, SumB(1, 0, y), n);
  }

  /** From halves that are not reduced the sums need not be either. */
  lemma CombineMisses()
    ensures FirstOf(0xffff, 0xffff) >= 3 * BASE && SecondOf(0xffff_fff0, 0xffff_0001, 1) >= 4 * BASE
  {
  }

  lemma AdlerIs(x: seq<byte>)
    ensures Adler(1, x) == Pack(Adler(1, x) % 65536, Adler(1, x) / 65536)
  {
    hide Bytewise;
  }

  lemma FirstSum(a: nat, b: nat)
    requires a >= 1
    ensures (b + a - 1) % BASE == (a % BASE + b % BASE + BASE - 1) % BASE
  {
    var p, q := a / BASE, b / BASE;
    assert b + a - 1 + BASE == a % BASE + b % BASE + BASE - 1 + BASE * (p + q);
    ModPlus(a % BASE + b % BASE + BASE - 1, p + q);
    ModPlus(b + a - 1, 1);
  }

  lemma SecondSum(t: nat, t': nat, s: nat, z: nat, n: nat)
    requires t % BASE == t' % BASE && z + s + t >= n
    ensures (z + s + t - n) % BASE == (t' + s % BASE + z % BASE + BASE - n % BASE) % BASE
  {
    var x := z + s + t - n;
    var y := t' + s % BASE + z % BASE + BASE - n % BASE;
    var k := z / BASE + s / BASE + t / BASE;
    var m := n / BASE + t' / BASE + 1;
    assert x + BASE * m == y + BASE * k;
    ModPlus(x, m);
    ModPlus(y, k);
  }
}
