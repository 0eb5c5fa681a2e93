/** crc32.c: tables, byte and word steps in both byte orders, and crc32_combine, against the
    division by the polynomial one bit at a time (section 8 of RFC 1952). */
module Crc32 {
  import opened Powers
  import opened BitStreams
  import opened Xors

  const POLY: nat := 0xEDB8_8320
  const ONES: nat := 0xFFFF_FFFF

  /** The division by the polynomial, one bit on. */
  function BitStep(c: nat): nat
  {
    if c % 2 == 1 then Xor(POLY, c / 2) else c / 2
  }

  function Steps(c: nat, n: nat): nat
    decreases n
  {
    if n == 0 then c else Steps(BitStep(c), n - 1)
  }

  /** The register after the bits of the data, fed in one at a time: the definition. */
  function Serial(c: nat, bits: seq<bool>): nat
    decreases |bits|
  {
    if bits == [] then c else Serial(BitStep(Xor(c, if bits[0] then 1 else 0)), bits[1..])
  }

  function Register(c: nat, data: seq<byte>): nat
    decreases |data|
  {
    if data == [] then c else Register(Feed(c, data[0]), data[1..])
  }

  /** One byte. */
  function Feed(c: nat, b: byte): nat
  {
    Steps(Xor(c, b), 8)
  }

  /** The checksum of data, continuing from crc. */
  function Crc(crc: nat, data: seq<byte>): nat
  {
    Xor(Register(Xor(crc, ONES), data), ONES)
  }

  lemma {:induction false} StepsAdd(c: nat, n: nat, m: nat)
    ensures Steps(c, n + m) == Steps(Steps(c, n), m)
    decreases n
  {
    if n > 0 {
      StepsAdd(BitStep(c), n - 1, m);
    }
  }

  lemma BitStepLinear(a: nat, b: nat)
    ensures BitStep(Xor(a, b)) == Xor(BitStep(a), BitStep(b))
  {
    hide Xor;
    XorStep(a, b);
    var x, y := a / 2, b / 2;
    if a % 2 == 1 && b % 2 == 1 {
      XorSwap(POLY, x, POLY, y);
      XorSelf(POLY);
      XorZero(Xor(x, y));
    } else if a % 2 == 1 {
      XorAssoc(POLY, x, y);
    } else if b % 2 == 1 {
      XorAssoc(x, POLY, y);
      XorComm(x, POLY);
      XorAssoc(POLY, x, y);
    }
  }

  /** The steps are linear over exclusive or. */
  lemma {:induction false} StepsLinear(a: nat, b: nat, n: nat)
    ensures Steps(Xor(a, b), n) == Xor(Steps(a, n), Steps(b, n))
    decreases n
  {
    hide Xor, BitStep;
    if n > 0 {
      BitStepLinear(a, b);
      StepsLinear(BitStep(a), BitStep(b), n - 1);
    }
  }

  /** Zeros in the low bits are only shifted out. */
  lemma {:induction false} StepsShl(x: nat, n: nat)
    ensures Steps(Shl(x, n), n) == x
    decreases n
  {
    if n > 0 {
      ShlStep(x, n);
      StepsShl(x, n - 1);
    }
  }

  lemma {:induction false} StepsZero(n: nat)
    ensures Steps(0, n) == 0
  {
    if n > 0 {
      StepsZero(n - 1);
    }
  }

  /** A byte at once is its bits one after another. */
  lemma {:induction false} FeedIsSerial(c: nat, v: nat, n: nat)
    requires v < Pow2(n)
    ensures Serial(c, BitsOf(v, n)) == Steps(Xor(c, v), n)
    decreases n
  {
    hide Xor, BitStep, Pow2, BitsOf;
    NextBit(v, n);
    if n == 0 {
      XorComm(c, 0);
      XorZero(c);
    } else {
      var lo, hi := v % 2, v / 2;
      var c1 := BitStep(Xor(c, lo));
      FeedIsSerial(c1, hi, n - 1);
      LowBitApart(c, v);
    }
  }

  lemma NextBit(v: nat, n: nat)
    requires v < Pow2(n)
    ensures n == 0 ==> v == 0 && BitsOf(v, n) == []
    ensures n > 0 ==> BitsOf(v, n) != [] && BitsOf(v, n)[0] == (v % 2 == 1) && BitsOf(v, n)[1..] == BitsOf(v / 2, n - 1)
    ensures n > 0 ==> v / 2 < Pow2(n - 1)
  {
  }

  lemma LowBitApart(c: nat, v: nat)
    ensures BitStep(Xor(c, v)) == Xor(BitStep(Xor(c, v % 2)), v / 2)
  {
    hide Xor;
    var lo, hi := v % 2, v / 2;
    XorZero(lo);
    XorStep(2 * hi, lo);
    XorStep(lo, 2 * hi);
    XorComm(hi, 0);
    XorZero(hi);
    assert Xor(lo, 2 * hi) == v;
    XorAssoc(c, lo, 2 * hi);
    BitStepLinear(Xor(c, lo), 2 * hi);
  }

  /** The register is the bit-serial division of all the bits of the data. */
  lemma {:induction false} RegisterIsSerial(c: nat, data: seq<byte>)
    ensures Register(c, data) == Serial(c, BytesBits(data))
    decreases |data|
  {
    hide Steps, BitsOf, BytesBits, Serial;
    if data == [] {
      SerialNone(c);
    } else {
      EightBits();
      FeedIsSerial(c, data[0], 8);
      RegisterIsSerial(Feed(c, data[0]), data[1..]);
      assert data == [data[0]] + data[1..];
      BytesConcat([data[0]], data[1..]);
      BytesOne(data[0]);
      SerialConcat(c, BitsOf(data[0], 8), BytesBits(data[1..]));
    }
  }

  lemma SerialNone(c: nat)
    ensures BytesBits([]) == [] && Serial(c, []) == c
  {
  }

  lemma {:induction false} SerialConcat(c: nat, a: seq<bool>, b: seq<bool>)
    ensures Serial(c, a + b) == Serial(Serial(c, a), b)
    decreases |a|
  {
    hide BitStep, Xor;
    if a == [] {
      assert a + b == b;
    } else {
      SerialConcat(BitStep(Xor(c, if a[0] then 1 else 0)), a[1..], b);
      assert (a + b)[0] == a[0] && (a + b)[1..] == a[1..] + b;
    }
  }

  /** DO1, line 198: the table does eight steps at once. */
  lemma ByteStep(x: nat)
    ensures Steps(x, 8) == Xor(Steps(x % 256, 8), x / 256)
  {
    hide Xor, Steps;
    var lo, hi := x % 256, x / 256;
    EightBits();
    ByteSplit(x);
    ShlIs(hi, 8);
    StepsLinear(lo, Shl(hi, 8), 8);
    StepsShl(hi, 8);
  }

  lemma ByteSplit(x: nat)
    ensures x == Xor(x % 256, Shl(x / 256, 8))
  {
    hide Xor;
    EightBits();
    ShlIs(x / 256, 8);
    XorJoin(x % 256, 0, 0, x / 256, 8);
    XorComm(x % 256, 0);
    XorZero(x % 256);
    XorZero(x / 256);
  }

  /** t[i] is the byte i after n steps: crc_table[k] for n == 8 * (k + 1). */
  ghost predicate TableOk(t: seq<nat>, n: nat)
  {
    |t| == 256 && forall i :: 0 <= i < 256 ==> t[i] == Steps(i, n)
  }

  /** Lines 108-114: the crc of every byte. */
  method MakeTable() returns (t: seq<nat>)
    ensures TableOk(t, 8)
  {
    hide Steps, BitStep;
    t := [];
    for n := 0 to 256
      invariant |t| == n && forall i :: 0 <= i < n ==> t[i] == Steps(i, 8)
    {
      var c: nat := n;
      for k := 0 to 8
        invariant Steps(c, 8 - k) == Steps(n, 8)
      {
        StepsOne(c, 8 - k);
        c := if c % 2 == 1 then Xor(POLY, c / 2) else c / 2;
      }
      StepsNone(c);
      t := t + [c];
    }
  }

  lemma StepsOne(c: nat, n: nat)
    requires n > 0
    ensures Steps(c, n) == Steps(if c % 2 == 1 then Xor(POLY, c / 2) else c / 2, n - 1)
  {
  }

  lemma StepsNone(c: nat)
    ensures Steps(c, 0) == c
  {
  }

  /** Lines 119-127: each value followed by one more zero byte. */
  method MakeNext(t0: seq<nat>, prev: seq<nat>, ghost n: nat) returns (t: seq<nat>)
    requires TableOk(t0, 8) && TableOk(prev, n)
    ensures TableOk(t, n + 8)
  {
    hide Steps, Xor;
    t := [];
    for i := 0 to 256
      invariant |t| == i && forall j :: 0 <= j < i ==> t[j] == Steps(j, n + 8)
    {
      var c: nat := prev[i];
      ByteStep(c);
      StepsAdd(i, n, 8);
      t := t + [Xor(t0[c % 256], c / 256)];
    }
  }

  /** One byte by the table, line 198. */
  lemma TableStep(t0: seq<nat>, c: nat, b: byte)
    requires TableOk(t0, 8)
    ensures Xor(t0[Xor(c, b) % 256], c / 256) == Feed(c, b)
  {
    hide Xor, Steps;
    ByteStep(Xor(c, b));
    HighByte(c, b);
  }

  lemma HighByte(c: nat, b: byte)
    ensures Xor(c, b) / 256 == c / 256
  {
    hide Xor;
    EightBits();
    XorJoin(c % 256, b, c / 256, 0, 8);
    XorFits(c % 256, b, 8);
    XorComm(c / 256, 0);
    XorZero(c / 256);
  }

  lemma RegisterStep(c: nat, data: seq<byte>, n: nat)
    requires n < |data|
    ensures Register(c, data[n..]) == Register(Feed(c, data[n]), data[n + 1..])
  {
    assert data[n..][0] == data[n] && data[n..][1..] == data[n + 1..];
  }

  /** crc32_z, lines 202-234, a byte at a time. */
  method CrcBytes(t0: seq<nat>, crc: nat, buf: seq<byte>) returns (r: nat)
    requires TableOk(t0, 8)
    ensures r == Crc(crc, buf)
  {
    hide Xor, Steps, Register, Feed;
    var c: nat := Xor(crc, ONES);
    assert buf[0..] == buf;
    for i := 0 to |buf|
      invariant Register(c, buf[i..]) == Register(Xor(crc, ONES), buf)
    {
      RegisterStep(c, buf, i);
      TableStep(t0, c, buf[i]);
      c := Xor(t0[Xor(c, buf[i]) % 256], c / 256);
    }
    RegisterNone(c, buf);
    r := Xor(c, ONES);
  }

  lemma RegisterNone(c: nat, data: seq<byte>)
    ensures Register(c, data[|data|..]) == c
  {
  }

  /** The first byte lowest. */
  function Little(data: seq<byte>): nat
  {
    if data == [] then 0 else data[0] + 256 * Little(data[1..])
  }

  lemma {:induction false} FeedMany(c: nat, data: seq<byte>)
    ensures Register(c, data) == Steps(Xor(c, Little(data)), 8 * |data|)
    decreases |data|
  {
    hide Xor, Steps;
    if data == [] {
      StepsNone(Xor(c, 0));
      XorComm(c, 0);
      XorZero(c);
    } else {
      var b, r := data[0], Little(data[1..]);
      FeedMany(Feed(c, b), data[1..]);
      LittleApart(c, b, r);
      StepsAdd(Xor(c, b + 256 * r), 8, 8 * (|data| - 1));
    }
  }

  lemma LittleApart(c: nat, b: byte, r: nat)
    ensures Xor(Steps(Xor(c, b), 8), r) == Steps(Xor(c, b + 256 * r), 8)
  {
    hide Xor, Steps;
    EightBits();
    ShlIs(r, 8);
    StepsShl(r, 8);
    StepsLinear(Xor(c, b), Shl(r, 8), 8);
    XorAssoc(c, b, Shl(r, 8));
    ByteSplit(b + 256 * r);
  }

  /** Steps on a word, byte by byte of the word: each byte of x goes through its own table. */
  lemma SlicedSteps(x: nat, n: nat)
    ensures Steps(x, 8 + n) == Xor(Steps(x % 256, 8 + n), Steps(x / 256, n))
  {
    hide Xor, Steps;
    ByteSplit(x);
    var lo, hi := x % 256, x / 256;
    StepsLinear(lo, Shl(hi, 8), 8 + n);
    StepsShl(hi, 8);
    StepsAdd(Shl(hi, 8), 8, n);
  }

  /** crc_table[0] to crc_table[3], or [4] to [7]. */
  datatype Slices = Slices(t0: seq<nat>, t1: seq<nat>, t2: seq<nat>, t3: seq<nat>)

  /** DOLIT4, lines 260-262. */
  lemma LittleWord(t: Slices, x: nat)
    requires TableOk(t.t0, 8) && TableOk(t.t1, 16) && TableOk(t.t2, 24) && TableOk(t.t3, 32) && x < 0x1_0000_0000
    ensures x / 256 / 256 / 256 < 256
    ensures Xor(Xor(Xor(t.t3[x % 256], t.t2[x / 256 % 256]), t.t1[x / 256 / 256 % 256]), t.t0[x / 256 / 256 / 256])
         == Steps(x, 32)
  {
    hide Xor, Steps;
    var y, z, w := x / 256, x / 256 / 256, x / 256 / 256 / 256;
    SlicedSteps(x, 24);
    SlicedSteps(y, 16);
    SlicedSteps(z, 8);
    var a, b, c, d := t.t3[x % 256], t.t2[y % 256], t.t1[z % 256], t.t0[w];
    XorAssoc(a, b, Xor(c, d));
    XorAssoc(Xor(a, b), c, d);
  }

  lemma Bits32()
    ensures Pow2(32) == 0x1_0000_0000 && Pow2(8) == 256
  {
    EightBits();
    Pow2Add(8, 8);
    Pow2Add(16, 16);
  }

  lemma BitStepBound(c: nat)
    requires c < Pow2(32)
    ensures BitStep(c) < Pow2(32)
  {
    hide Pow2, Xor;
    Bits32();
    XorFits(POLY, c / 2, 32);
  }

  lemma {:induction false} StepsBound(c: nat, n: nat)
    requires c < Pow2(32)
    ensures Steps(c, n) < Pow2(32)
    decreases n
  {
    hide Pow2, BitStep;
    if n > 0 {
      BitStepBound(c);
      StepsBound(BitStep(c), n - 1);
    }
  }

  lemma {:induction false} RegisterConcat(c: nat, a: seq<byte>, b: seq<byte>)
    ensures Register(c, a + b) == Register(Register(c, a), b)
    decreases |a|
  {
    hide Feed;
    if a == [] {
      assert a + b == b;
    } else {
      RegisterConcat(Feed(c, a[0]), a[1..], b);
      assert (a + b)[0] == a[0] && (a + b)[1..] == a[1..] + b;
    }
  }

  lemma {:induction false} LittleBound(data: seq<byte>)
    ensures Little(data) < Pow2(8 * |data|)
  {
    hide Pow2;
    if data == [] {
      PowNone();
    } else {
      LittleBound(data[1..]);
      EightBits();
      Pow2Add(8, 8 * (|data| - 1));
    }
  }

  /** Four bytes of the data at once. */
  lemma WordStep(c: nat, data: seq<byte>, i: nat)
    requires c < Pow2(32) && i + 4 <= |data|
    ensures var x := Xor(c, Little(data[i..i + 4]));
      x < Pow2(32) && Register(c, data[i..]) == Register(Steps(x, 32), data[i + 4..]) && Steps(x, 32) < Pow2(32)
  {
    hide Xor, Steps, Register, Little, Pow2;
    var w := data[i..i + 4];
    assert data[i..] == w + data[i + 4..];
    RegisterConcat(c, w, data[i + 4..]);
    FeedMany(c, w);
    LittleBound(w);
    XorFits(c, Little(w), 32);
    StepsBound(Xor(c, Little(w)), 32);
  }

  /** A byte of the data. */
  lemma OneStep(c: nat, data: seq<byte>, i: nat)
    requires c < Pow2(32) && i < |data|
    ensures Register(c, data[i..]) == Register(Feed(c, data[i]), data[i + 1..]) && Feed(c, data[i]) < Pow2(32)
  {
    hide Xor, Steps, Register, Pow2;
    RegisterStep(c, data, i);
    Bits32();
    XorFits(c, data[i], 32);
    StepsBound(Xor(c, data[i]), 8);
  }

  /** The tables of the little-endian code. */
  ghost predicate Sliced(t: Slices)
  {
    TableOk(t.t0, 8) && TableOk(t.t1, 16) && TableOk(t.t2, 24) && TableOk(t.t3, 32)
  }

  method MakeSliced() returns (t: Slices)
    ensures Sliced(t)
  {
    var t0 := MakeTable();
    var t1 := MakeNext(t0, t0, 8);
    var t2 := MakeNext(t0, t1, 16);
    var t3 := MakeNext(t0, t2, 24);
    t := Slices(t0, t1, t2, t3);
  }

  /** DOLIT4: the word from the buffer, then the four tables. */
  method LittleStep(t: Slices, c: nat, word: nat) returns (r: nat)
    requires Sliced(t) && Xor(c, word) < Pow2(32)
    ensures r == Steps(Xor(c, word), 32)
  {
    hide Xor, Steps, Pow2, TableOk;
    Bits32();
    var x: nat := Xor(c, word);
    LittleWord(t, x);
    TableSizes(t);
    r := Xor(Xor(Xor(t.t3[x % 256], t.t2[x / 256 % 256]), t.t1[x / 256 / 256 % 256]), t.t0[x / 256 / 256 / 256]);
  }

  lemma TableSizes(t: Slices)
    requires Sliced(t)
    ensures |t.t0| == |t.t1| == |t.t2| == |t.t3| == 256
  {
  }

  /** crc32_little, lines 266-297; head is the number of bytes before the first aligned word. */
  method CrcLittle(t: Slices, crc: nat, buf: seq<byte>, head: nat) returns (r: nat)
    requires Sliced(t) && crc < Pow2(32)
    ensures r == Crc(crc, buf)
  {
    hide Xor, Steps, Register, Feed, Little, Pow2, TableOk;
    Bits32();
    XorFits(crc, ONES, 32);
    TableSizes(t);
    var c: nat, i: nat := Xor(crc, ONES), 0;
    assert buf[0..] == buf;
    while i < |buf| && i < head
      invariant i <= |buf| && c < Pow2(32) && Register(c, buf[i..]) == Register(Xor(crc, ONES), buf)
    {
      OneStep(c, buf, i);
      TableStep(t.t0, c, buf[i]);
      c := Xor(t.t0[Xor(c, buf[i]) % 256], c / 256);
      i := i + 1;
    }
    while |buf| - i >= 4
      invariant i <= |buf| && c < Pow2(32) && Register(c, buf[i..]) == Register(Xor(crc, ONES), buf)
    {
      WordStep(c, buf, i);
      c := LittleStep(t, c, Little(buf[i..i + 4]));
      i := i + 4;
    }
    while i < |buf|
      invariant i <= |buf| && c < Pow2(32) && Register(c, buf[i..]) == Register(Xor(crc, ONES), buf)
    {
      OneStep(c, buf, i);
      TableStep(t.t0, c, buf[i]);
      c := Xor(t.t0[Xor(c, buf[i]) % 256], c / 256);
      i := i + 1;
    }
    RegisterNone(c, buf);
    r := Xor(c, ONES);
  }

  /** ZSWAP32. */
  function Swap(x: nat): nat
  {
    Word(x / 256 / 256 / 256, x / 256 / 256 % 256, x / 256 % 256, x % 256)
  }

  /** Four bytes as a word, first byte lowest. */
  function Word(b0: nat, b1: nat, b2: nat, b3: nat): nat
  {
    b0 + 256 * (b1 + 256 * (b2 + 256 * b3))
  }

  lemma WordBytes(b0: nat, b1: nat, b2: nat, b3: nat)
    requires b0 < 256 && b1 < 256 && b2 < 256 && b3 < 256
    ensures var x := Word(b0, b1, b2, b3);
      x % 256 == b0 && x / 256 % 256 == b1 && x / 256 / 256 % 256 == b2
      && x / 256 / 256 / 256 == b3 && x < 0x1_0000_0000
  {
  }

  lemma WordOf(x: nat)
    ensures x == Word(x % 256, x / 256 % 256, x / 256 / 256 % 256, x / 256 / 256 / 256)
  {
  }

  lemma XorWord(a0: nat, a1: nat, a2: nat, a3: nat, b0: nat, b1: nat, b2: nat, b3: nat)
    requires a0 < 256 && a1 < 256 && a2 < 256 && b0 < 256 && b1 < 256 && b2 < 256
    ensures Xor(Word(a0, a1, a2, a3), Word(b0, b1, b2, b3)) == Word(Xor(a0, b0), Xor(a1, b1), Xor(a2, b2), Xor(a3, b3))
  {
    hide Xor, Pow2;
    EightBits();
    XorJoin(a2, b2, a3, b3, 8);
    XorJoin(a1, b1, a2 + 256 * a3, b2 + 256 * b3, 8);
    XorJoin(a0, b0, a1 + 256 * (a2 + 256 * a3), b1 + 256 * (b2 + 256 * b3), 8);
  }

  lemma XorByte(a: nat, b: nat)
    requires a < 256 && b < 256
    ensures Xor(a, b) < 256
  {
    hide Xor, Pow2;
    EightBits();
    XorFits(a, b, 8);
  }

  /** Swapping bytes is linear. */
  lemma SwapXor(x: nat, y: nat)
    requires x < 0x1_0000_0000 && y < 0x1_0000_0000
    ensures Swap(Xor(x, y)) == Xor(Swap(x), Swap(y))
  {
    hide Xor, Word;
    var x0, x1, x2, x3 := x % 256, x / 256 % 256, x / 256 / 256 % 256, x / 256 / 256 / 256;
    var y0, y1, y2, y3 := y % 256, y / 256 % 256, y / 256 / 256 % 256, y / 256 / 256 / 256;
    WordOf(x);
    WordOf(y);
    XorWord(x0, x1, x2, x3, y0, y1, y2, y3);
    XorWord(x3, x2, x1, x0, y3, y2, y1, y0);
    XorByte(x0, y0);
    XorByte(x1, y1);
    XorByte(x2, y2);
    XorByte(x3, y3);
    WordBytes(Xor(x0, y0), Xor(x1, y1), Xor(x2, y2), Xor(x3, y3));
  }

  lemma SwapBytes(x: nat)
    requires x < 0x1_0000_0000
    ensures var e := Swap(x);
      && e % 256 == x / 256 / 256 / 256 && e / 256 % 256 == x / 256 / 256 % 256 && e / 256 / 256 % 256 == x / 256 % 256
      && e / 256 / 256 / 256 == x % 256 && e < 0x1_0000_0000 && Swap(e) == x
  {
    hide Word;
    WordOf(x);
    WordBytes(x / 256 / 256 / 256, x / 256 / 256 % 256, x / 256 % 256, x % 256);
  }

  /** Shifting the other way in the other byte order. */
  lemma SwapShift(x: nat)
    requires x < 0x1_0000_0000
    ensures Swap(x / 256) == Swap(x) * 256 % 0x1_0000_0000
  {
    var b0, b1, b2, b3 := x % 256, x / 256 % 256, x / 256 / 256 % 256, x / 256 / 256 / 256;
    assert x / 256 / 256 / 256 / 256 == 0;
    var e := Word(b3, b2, b1, b0);
    assert e * 256 == 256 * (b3 + 256 * (b2 + 256 * b1)) + 0x1_0000_0000 * b0;
  }

  /** crc_table[4 .. 7], lines 121 and 125. */
  ghost predicate Swapped(s: seq<nat>, t: seq<nat>)
  {
    |s| == |t| && forall i :: 0 <= i < |t| ==> s[i] == Swap(t[i])
  }

  method MakeSwapped(t: seq<nat>) returns (s: seq<nat>)
    ensures Swapped(s, t)
  {
    s := [];
    for i := 0 to |t|
      invariant |s| == i && forall j :: 0 <= j < i ==> s[j] == Swap(t[j])
    {
      s := s + [Swap(t[i])];
    }
  }

  lemma TableBound(t: seq<nat>, n: nat, i: nat)
    requires TableOk(t, n) && i < 256
    ensures t[i] < 0x1_0000_0000
  {
    hide Steps, Pow2;
    Bits32();
    StepsBound(i, n);
  }

  /** A byte step on the swapped register, lines 318 and 333. */
  lemma BigByte(t0: seq<nat>, s0: seq<nat>, c: nat, b: byte)
    requires TableOk(t0, 8) && Swapped(s0, t0) && c < 0x1_0000_0000
    ensures var e := Swap(c);
      && Xor(e / 256 / 256 / 256, b) < 256
      && Xor(s0[Xor(e / 256 / 256 / 256, b)], e * 256 % 0x1_0000_0000) == Swap(Feed(c, b))
  {
    hide Xor, Steps, Swap, Feed, Pow2;
    SwapBytes(c);
    SwapShift(c);
    XorByte(c % 256, b);
    TableStep(t0, c, b);
    LowByte(c, b);
    TableBound(t0, 8, Xor(c % 256, b));
    SwapXor(t0[Xor(c % 256, b)], c / 256);
  }

  lemma LowByte(c: nat, b: byte)
    ensures Xor(c, b) % 256 == Xor(c % 256, b)
  {
    hide Xor, Pow2;
    EightBits();
    XorJoin(c % 256, b, c / 256, 0, 8);
    XorByte(c % 256, b);
  }

  ghost predicate AllSwapped(s: Slices, t: Slices)
  {
    Swapped(s.t0, t.t0) && Swapped(s.t1, t.t1) && Swapped(s.t2, t.t2) && Swapped(s.t3, t.t3)
  }

  /** DOBIG4, lines 300-302. */
  lemma BigWord(t: Slices, s: Slices, x: nat)
    requires Sliced(t) && AllSwapped(s, t)
    requires x < 0x1_0000_0000
    ensures var e := Swap(x);
      && e / 256 / 256 / 256 < 256
      && Xor(Xor(Xor(s.t0[e % 256], s.t1[e / 256 % 256]), s.t2[e / 256 / 256 % 256]), s.t3[e / 256 / 256 / 256])
         == Swap(Steps(x, 32))
  {
    hide Xor, Steps, Swap, Pow2;
    SwapBytes(x);
    LittleWord(t, x);
    var a, b, c, d := t.t3[x % 256], t.t2[x / 256 % 256], t.t1[x / 256 / 256 % 256], t.t0[x / 256 / 256 / 256];
    TableBound(t.t3, 32, x % 256);
    TableBound(t.t2, 24, x / 256 % 256);
    TableBound(t.t1, 16, x / 256 / 256 % 256);
    TableBound(t.t0, 8, x / 256 / 256 / 256);
    SwapFour(a, b, c, d);
  }

  lemma SwapFour(a: nat, b: nat, c: nat, d: nat)
    requires a < 0x1_0000_0000 && b < 0x1_0000_0000 && c < 0x1_0000_0000 && d < 0x1_0000_0000
    ensures Swap(Xor(Xor(Xor(a, b), c), d)) == Xor(Xor(Xor(Swap(d), Swap(c)), Swap(b)), Swap(a))
  {
    hide Xor, Swap, Pow2;
    Bits32();
    XorFits(a, b, 32);
    XorFits(Xor(a, b), c, 32);
    SwapXor(a, b);
    SwapXor(Xor(a, b), c);
    SwapXor(Xor(Xor(a, b), c), d);
    var a', b', c', d' := Swap(a), Swap(b), Swap(c), Swap(d);
    XorComm(Xor(Xor(a', b'), c'), d');
    XorComm(Xor(a', b'), c');
    XorComm(a', b');
    XorAssoc(d', c', Xor(b', a'));
    XorAssoc(Xor(d', c'), b', a');
  }

  /** Four bytes read by a big-endian machine. */
  function Big(data: seq<byte>): nat
    requires |data| == 4
  {
    Word(data[3], data[2], data[1], data[0])
  }

  lemma BigIsSwapped(data: seq<byte>)
    requires |data| == 4
    ensures Big(data) == Swap(Little(data)) && Little(data) < 0x1_0000_0000
  {
    hide Swap;
    LittleFour(data);
    WordBytes(data[0], data[1], data[2], data[3]);
    SwapIs(Little(data));
  }

  lemma SwapIs(x: nat)
    ensures Swap(x) == Word(x / 256 / 256 / 256, x / 256 / 256 % 256, x / 256 % 256, x % 256)
  {
  }

  lemma LittleFour(data: seq<byte>)
    requires |data| == 4
    ensures Little(data) == Word(data[0], data[1], data[2], data[3])
  {
    var d1, d2, d3, d4 := data[1..], data[1..][1..], data[1..][1..][1..], data[1..][1..][1..][1..];
    assert d4 == [];
    assert Little(d4) == 0;
    var b1: nat, b2: nat, b3: nat := data[1], data[2], data[3];
    assert Little(d3) == b3 && Little(d2) == b2 + 256 * b3;
    assert Little(d1) == b1 + 256 * Little(d2);
  }

  /** crc32_big, lines 306-337: the register and the tables have their bytes swapped throughout. */
  method CrcBig(s: Slices, crc: nat, buf: seq<byte>, head: nat, ghost t: Slices) returns (r: nat)
    requires Sliced(t) && AllSwapped(s, t)
    requires crc < 0x1_0000_0000
    ensures r == Crc(crc, buf)
  {
    hide Xor, Steps, Register, Feed, Little, Big, Pow2, TableOk, Swap;
    Bits32();
    XorFits(crc, ONES, 32);
    TableSizes(t);
    SwapXor(crc, ONES);
    OnesSwapped();
    var e: nat, i: nat := Xor(Swap(crc), ONES), 0;
    ghost var c: nat := Xor(crc, ONES);
    assert buf[0..] == buf;
    while i < |buf| && i < head
      invariant i <= |buf| && c < Pow2(32) && e == Swap(c) && Register(c, buf[i..]) == Register(Xor(crc, ONES), buf)
    {
      OneStep(c, buf, i);
      BigByte(t.t0, s.t0, c, buf[i]);
      e := Xor(s.t0[Xor(e / 256 / 256 / 256, buf[i])], e * 256 % 0x1_0000_0000);
      c := Feed(c, buf[i]);
      i := i + 1;
    }
    while |buf| - i >= 4
      invariant i <= |buf| && c < Pow2(32) && e == Swap(c) && Register(c, buf[i..]) == Register(Xor(crc, ONES), buf)
    {
      WordStep(c, buf, i);
      ghost var w := Little(buf[i..i + 4]);
      BigIsSwapped(buf[i..i + 4]);
      SwapXor(c, w);
      BigWord(t, s, Xor(c, w));
      e := Xor(e, Big(buf[i..i + 4]));
      e := Xor(Xor(Xor(s.t0[e % 256], s.t1[e / 256 % 256]), s.t2[e / 256 / 256 % 256]), s.t3[e / 256 / 256 / 256]);
      c := Steps(Xor(c, w), 32);
      i := i + 4;
    }
    while i < |buf|
      invariant i <= |buf| && c < Pow2(32) && e == Swap(c) && Register(c, buf[i..]) == Register(Xor(crc, ONES), buf)
    {
      OneStep(c, buf, i);
      BigByte(t.t0, s.t0, c, buf[i]);
      e := Xor(s.t0[Xor(e / 256 / 256 / 256, buf[i])], e * 256 % 0x1_0000_0000);
      c := Feed(c, buf[i]);
      i := i + 1;
    }
    RegisterNone(c, buf);
    SwapXor(c, ONES);
    XorFits(c, ONES, 32);
    SwapBytes(Xor(c, ONES));
    r := Swap(Xor(e, ONES));
  }

  method MakeAllSwapped(t: Slices) returns (s: Slices)
    ensures AllSwapped(s, t)
  {
    var s0 := MakeSwapped(t.t0);
    var s1 := MakeSwapped(t.t1);
    var s2 := MakeSwapped(t.t2);
    var s3 := MakeSwapped(t.t3);
    s := Slices(s0, s1, s2, s3);
  }

  datatype Machine = LittleEndian | BigEndian | Plain

  /** crc32_z, lines 202-234, with the tables of make_crc_table: the same checksum on every machine. head is
      the number of bytes before the first aligned word, and noBuf stands for buf == Z_NULL. */
  method Crc32Z(m: Machine, crc: nat, buf: seq<byte>, head: nat, noBuf: bool) returns (r: nat)
    requires crc < Pow2(32)
    ensures r == if noBuf then 0 else Crc(crc, buf)
  {
    hide Pow2, Crc, TableOk, Swapped;
    Bits32();
    if noBuf {
      return 0;
    }
    var t := MakeSliced();
    match m
    case LittleEndian =>
      r := CrcLittle(t, crc, buf, head);
    case BigEndian =>
      var s := MakeAllSwapped(t);
      r := CrcBig(s, crc, buf, head, t);
    case Plain =>
      r := CrcBytes(t.t0, crc, buf);
  }

  lemma OnesSwapped()
    ensures Swap(ONES) == ONES
  {
  }

  const GF2_DIM: nat := 32

  /** The matrix of n steps: column i is what they make of bit i. */
  ghost predicate StepsMatrix(mat: seq<nat>, n: nat)
  {
    |mat| == GF2_DIM && forall i :: 0 <= i < GF2_DIM ==> mat[i] == Steps(Pow2(i), n)
  }

  /** gf2_matrix_times, lines 344-358. */
  method MatrixTimes(mat: seq<nat>, vec: nat, ghost n: nat) returns (sum: nat)
    requires StepsMatrix(mat, n) && vec < Pow2(32)
    ensures sum == Steps(vec, n)
  {
    hide Xor, Steps, Pow2;
    sum := 0;
    var v: nat, i: nat := vec, 0;
    StepsZero(n);
    XorZero(Steps(vec, n));
    PowNone();
    while v != 0
      invariant i <= GF2_DIM && v < Pow2(GF2_DIM - i) && Xor(sum, Steps(Shl(v, i), n)) == Steps(vec, n)
    {
      SmallPow(v, GF2_DIM - i);
      LowBit(v, i, n);
      if v % 2 == 1 {
        XorAssoc(sum, mat[i], Steps(Shl(v / 2, i + 1), n));
        sum := Xor(sum, mat[i]);
      }
      v := v / 2;
      i := i + 1;
    }
    ShlZero(i);
    XorComm(sum, 0);
    XorZero(sum);
  }

  lemma {:induction false} ShlZero(i: nat)
    ensures Shl(0, i) == 0
  {
    if i > 0 {
      ShlZero(i - 1);
    }
  }

  lemma SmallPow(v: nat, k: nat)
    requires 0 < v < Pow2(k)
    ensures k >= 1 && v / 2 < Pow2(k - 1)
  {
  }

  /** The lowest bit of v, apart from the rest. */
  lemma LowBit(v: nat, i: nat, n: nat)
    ensures v % 2 == 0 ==> Steps(Shl(v, i), n) == Steps(Shl(v / 2, i + 1), n)
    ensures v % 2 == 1 ==> Steps(Shl(v, i), n) == Xor(Steps(Pow2(i), n), Steps(Shl(v / 2, i + 1), n))
  {
    hide Xor, Steps, Pow2;
    var h := v / 2;
    ShlOne(h, i);
    if v % 2 == 1 {
      XorZero(0);
      XorStep(1, 2 * h);
      XorZero(h);
      assert v == Xor(1, 2 * h);
      XorShift(1, 2 * h, i);
      ShlIs(1, i);
      StepsLinear(Pow2(i), Shl(2 * h, i), n);
    }
  }

  lemma {:induction false} ShlOne(h: nat, i: nat)
    ensures Shl(2 * h, i) == Shl(h, i + 1)
  {
    if i > 0 {
      ShlOne(h, i - 1);
    }
  }

  /** gf2_matrix_square, lines 361-369: twice the steps. */
  method MatrixSquare(mat: seq<nat>, ghost n: nat) returns (square: seq<nat>)
    requires StepsMatrix(mat, n)
    ensures StepsMatrix(square, 2 * n)
  {
    hide Steps, Pow2;
    square := [];
    for i := 0 to GF2_DIM
      invariant |square| == i && forall j :: 0 <= j < i ==> square[j] == Steps(Pow2(j), 2 * n)
    {
      PowBelow(i, 32);
      StepsBound(Pow2(i), n);
      var x := MatrixTimes(mat, mat[i], n);
      StepsAdd(Pow2(i), n, n);
      square := square + [x];
    }
  }

  lemma {:induction false} PowBelow(i: nat, n: nat)
    requires i < n
    ensures Pow2(i) < Pow2(n)
  {
    if i < n - 1 {
      PowBelow(i, n - 1);
    }
  }

  /** Lines 386-391: one zero bit. */
  method OneZeroBit() returns (odd: seq<nat>)
    ensures StepsMatrix(odd, 1)
  {
    hide Xor, Pow2, Steps;
    StepOfBit(0);
    PowNone();
    odd := [POLY];
    var row: nat := 1;
    for n := 1 to GF2_DIM
      invariant |odd| == n && row == Pow2(n - 1) && forall i :: 0 <= i < n ==> odd[i] == Steps(Pow2(i), 1)
    {
      StepOfBit(n);
      odd := odd + [row];
      row := 2 * row;
    }
  }

  lemma StepOfBit(i: nat)
    ensures Steps(Pow2(i), 1) == if i == 0 then POLY else Pow2(i - 1)
    ensures i > 0 ==> Pow2(i) == 2 * Pow2(i - 1)
  {
    hide Xor;
    assert Steps(BitStep(Pow2(i)), 0) == BitStep(Pow2(i));
    if i == 0 {
      XorComm(POLY, 0);
      XorZero(POLY);
    }
  }

  /** crc32_combine_, lines 372-425: 8 * len2 zero bits after crc1. */
  method Combine(crc1: nat, crc2: nat, len2: int) returns (crc: nat)
    requires crc1 < Pow2(32)
    ensures crc == if len2 <= 0 then crc1 else Xor(Steps(crc1, 8 * len2), crc2)
    ensures forall a, b :: crc1 == Crc(0, a) && crc2 == Crc(0, b) && len2 == |b| ==> crc == Crc(0, a + b)
  {
    hide Xor, Pow2, Steps, Crc;
    if len2 < 0 {
      return crc1;
    }
    Together(crc1, crc2, len2);
    if len2 == 0 {
      return crc1;
    }
    var odd: seq<nat> := OneZeroBit();
    var even: seq<nat> := MatrixSquare(odd, 1);
    odd := MatrixSquare(even, 2);
    var c: nat, len: nat := crc1, len2;
    ghost var n: nat := 4;
    while len != 0
      invariant StepsMatrix(odd, n) && c < Pow2(32) && n >= 4
      invariant Steps(c, Span(2 * n, len)) == Steps(crc1, 8 * len2)
    {
      even := MatrixSquare(odd, n);
      if len % 2 == 1 {
        c := ApplyBit(even, c, 2 * n, len);
      } else {
        HalfLength(n, len);
      }
      len := len / 2;
      if len == 0 {
        NoSpan(4 * n);
        NoSpan(2 * n);
        break;
      }
      odd := MatrixSquare(even, 2 * n);
      if len % 2 == 1 {
        c := ApplyBit(odd, c, 4 * n, len);
      } else {
        HalfLength(2 * n, len);
      }
      len := len / 2;
      n := 4 * n;
    }
    StepsNone(c);
    crc := Xor(c, crc2);
  }

  lemma NoSpan(n: nat)
    ensures Span(n, 0) == 0
  {
  }

  function Span(n: nat, len: nat): nat
  {
    n * len
  }

  /** One bit of the length: line 402. */
  method ApplyBit(mat: seq<nat>, c: nat, ghost n: nat, ghost len: nat) returns (r: nat)
    requires StepsMatrix(mat, n) && c < Pow2(32) && len % 2 == 1
    ensures r < Pow2(32) && Steps(r, Span(2 * n, len / 2)) == Steps(c, Span(n, len))
  {
    hide Xor, Pow2, Steps, Span;
    r := MatrixTimes(mat, c, n);
    StepsBound(c, n);
    OddLength(n, len);
    StepsAdd(c, n, Span(2 * n, len / 2));
  }

  lemma OddLength(n: nat, len: nat)
    requires len % 2 == 1
    ensures n + Span(2 * n, len / 2) == Span(n, len)
  {
    var h := len / 2;
    assert len == 2 * h + 1;
    assert n * (2 * h + 1) == 2 * n * h + n;
  }

  lemma HalfLength(n: nat, len: nat)
    requires len % 2 == 0
    ensures Span(4 * n, len / 2) == Span(2 * n, len)
  {
    var h := len / 2;
    assert len == 2 * h;
    assert 4 * n * h == 2 * n * (2 * h);
  }

  /** The register after data is that of zeros, and that of the data from nothing. */
  lemma {:induction false} RegisterAffine(c: nat, data: seq<byte>)
    ensures Register(c, data) == Xor(Steps(c, 8 * |data|), Register(0, data))
  {
    hide Xor, Steps, Register, Little;
    FeedMany(c, data);
    FeedMany(0, data);
    XorZero(Little(data));
    StepsLinear(c, Little(data), 8 * |data|);
  }

  /** A checksum has 32 bits. */
  lemma CrcFits(crc: nat, data: seq<byte>)
    requires crc < Pow2(32)
    ensures Crc(crc, data) < Pow2(32)
  {
    hide Xor, Register, Pow2;
    Bits32();
    XorFits(crc, ONES, 32);
    RegisterFits(Xor(crc, ONES), data);
    XorFits(Register(Xor(crc, ONES), data), ONES, 32);
  }

  lemma {:induction false} RegisterFits(c: nat, data: seq<byte>)
    requires c < Pow2(32)
    ensures Register(c, data) < Pow2(32)
    decreases |data|
  {
    hide Xor, Steps, Pow2;
    if data != [] {
      Bits32();
      XorFits(c, data[0], 32);
      StepsBound(Xor(c, data[0]), 8);
      RegisterFits(Feed(c, data[0]), data[1..]);
    }
  }

  /** crc32_combine gives the checksum of the two pieces together, and takes any checksum. */
  lemma CombineLaw(a: seq<byte>, b: seq<byte>)
    ensures Crc(0, a) < Pow2(32) && Crc(0, a + b) == Xor(Steps(Crc(0, a), 8 * |b|), Crc(0, b))
  {
    hide Xor, Steps, Register, Pow2;
    Bits32();
    CrcFits(0, a);
    XorZero(ONES);
    var n, f := 8 * |b|, ONES;
    var c1, r := Register(f, a), Register(0, b);
    RegisterConcat(f, a, b);
    RegisterAffine(c1, b);
    RegisterAffine(f, b);
    StepsLinear(c1, f, n);
    var s1, sf := Steps(c1, n), Steps(f, n);
    XorAssoc(sf, r, f);
    XorComm(s1, sf);
    XorAssoc(sf, s1, Xor(sf, Xor(r, f)));
    XorAssoc(s1, sf, Xor(r, f));
    Cancels(s1, sf, Xor(r, f));
    XorAssoc(s1, r, f);
  }

  /** The four bytes of a checksum, lowest first, as a gzip trailer has them. */
  function Trailer(crc: nat): (r: seq<byte>)
    requires crc < 0x1_0000_0000
    ensures |r| == 4 && Little(r) == crc
  {
    TrailerValue(crc);
    [crc % 256, crc / 256 % 256, crc / 256 / 256 % 256, crc / 256 / 256 / 256]
  }

  lemma TrailerValue(crc: nat)
    requires crc < 0x1_0000_0000
    ensures Little([crc % 256, crc / 256 % 256, crc / 256 / 256 % 256, crc / 256 / 256 / 256]) == crc
  {
    hide Little;
    LittleFour([crc % 256, crc / 256 % 256, crc / 256 / 256 % 256, crc / 256 / 256 / 256]);
    WordOf(crc);
  }

  /** Data followed by its own checksum has the same checksum whatever the data. */
  lemma Residue(data: seq<byte>)
    ensures Crc(0, data) < 0x1_0000_0000 && Crc(0, data + Trailer(Crc(0, data))) == 0x2144_DF1C
  {
    hide Xor, Steps, Register, Pow2, Trailer, Little;
    Bits32();
    CrcFits(0, data);
    XorZero(ONES);
    var c := Register(ONES, data);
    var t := Trailer(Crc(0, data));
    RegisterConcat(ONES, data, t);
    FeedMany(c, t);
    XorAssoc(c, c, ONES);
    XorSelf(c);
    AllOnes();
  }

  /** The register that starts with all ones, 32 steps on. */
  lemma AllOnes()
    ensures Steps(0xFFFF_FFFF, 32) == 0xDEBB_20E3 && Xor(0xDEBB_20E3, 0xFFFF_FFFF) == 0x2144_DF1C
  {
    hide Steps, Xor, Value;
    AllOnesValue();
    ResidueValue();
    EightSteps(0xFFFF_FFFF, 64);
    EightSteps(0x2DFD_1072, 56);
    EightSteps(0xBE26_ED00, 48);
    EightSteps(0x00BE_26ED, 40);
    StepsAdd(0xFFFF_FFFF, 8, 8);
    StepsAdd(0xFFFF_FFFF, 16, 8);
    StepsAdd(0xFFFF_FFFF, 24, 8);
    ValueXor(0xDEBB_20E3, 0xFFFF_FFFF, 32);
  }

  lemma AllOnesValue()
    ensures Value(0xFFFF_FFFF, 64) == Value(0xFFFF_FFFF, 32) == 0xFFFF_FFFF
  {
    hide Value;
    ValueIs(0xFFFF_FFFF, 64);
    ValueIs(0xFFFF_FFFF, 32);
  }

  lemma ResidueValue()
    ensures Value(0xDEBB_20E3, 32) == 0xDEBB_20E3 && Value(0x2144_DF1C, 32) == 0x2144_DF1C
  {
    hide Value;
    ValueIs(0xDEBB_20E3, 32);
    ValueIs(0x2144_DF1C, 32);
  }

  /** The number that the n low bits make. */
  function Value(x: bv32, n: nat): nat
    decreases n
  {
    if n == 0 then 0 else Bit(x) + 2 * Value(Half(x), n - 1)
  }

  function Bit(x: bv32): nat
  {
    if x & 1 == 1 then 1 else 0
  }

  function Half(x: bv32): bv32
  {
    x >> 1
  }

  lemma {:induction false} ValueXor(x: bv32, y: bv32, n: nat)
    ensures Value(Differ(x, y), n) == Xor(Value(x, n), Value(y, n))
    decreases n
  {
    hide Xor, Half, Bit, Differ;
    if n == 0 {
      XorZero(0);
    } else {
      ValueXor(Half(x), Half(y), n - 1);
      HalfXor(x, y);
      TwiceXor(Bit(x), Value(Half(x), n - 1), Bit(y), Value(Half(y), n - 1));
    }
  }

  function Differ(x: bv32, y: bv32): bv32
  {
    x ^ y
  }

  lemma HalfXor(x: bv32, y: bv32)
    ensures Half(Differ(x, y)) == Differ(Half(x), Half(y)) && Bit(x) <= 1 && Bit(y) <= 1
    ensures Bit(Differ(x, y)) == if Bit(x) != Bit(y) then 1 else 0
  {
  }

  lemma TwiceXor(a: nat, x: nat, b: nat, y: nat)
    requires a <= 1 && b <= 1
    ensures Xor(a + 2 * x, b + 2 * y) == (if a != b then 1 else 0) + 2 * Xor(x, y)
  {
    hide Xor;
    XorStep(a + 2 * x, b + 2 * y);
  }

  lemma {:induction false} ValueZero(n: nat)
    ensures Value(0, n) == 0
  {
    if n > 0 {
      ValueZero(n - 1);
    }
  }

  function FourBits(x: bv32): nat
  {
    Bit(x) + 2 * (Bit(Half(x)) + 2 * (Bit(Half(Half(x))) + 2 * Bit(Half(Half(Half(x))))))
  }

  function Fourth(x: bv32): bv32
  {
    Half(Half(Half(Half(x))))
  }

  lemma ValueFour(x: bv32, n: nat)
    requires n >= 4
    ensures Value(x, n) == FourBits(x) + 16 * Value(Fourth(x), n - 4)
  {
    hide Value, Half, Bit;
    ValueNext(x, n);
    ValueNext(Half(x), n - 1);
    ValueNext(Half(Half(x)), n - 2);
    ValueNext(Half(Half(Half(x))), n - 3);
  }

  lemma ValueNext(x: bv32, n: nat)
    requires n >= 1
    ensures Value(x, n) == Bit(x) + 2 * Value(Half(x), n - 1)
  {
  }

  function HalfWord(x: bv32): nat
  {
    FourBits(x) + 16 * (FourBits(Fourth(x)) + 16 * (FourBits(Fourth(Fourth(x)))
    + 16 * FourBits(Fourth(Fourth(Fourth(x))))))
  }

  function Sixteenth(x: bv32): bv32
  {
    Fourth(Fourth(Fourth(Fourth(x))))
  }

  lemma ValueHalf(x: bv32, n: nat)
    requires n >= 16
    ensures Value(x, n) == HalfWord(x) + 65536 * Value(Sixteenth(x), n - 16)
  {
    hide Value, FourBits, Fourth;
    ValueFour(x, n);
    ValueFour(Fourth(x), n - 4);
    ValueFour(Fourth(Fourth(x)), n - 8);
    ValueFour(Fourth(Fourth(Fourth(x))), n - 12);
  }

  lemma ValueIs(x: bv32, n: nat)
    requires n >= 32
    ensures Value(x, n) == HalfWord(x) + 65536 * HalfWord(Sixteenth(x))
  {
    hide Value, HalfWord, Sixteenth;
    ValueHalf(x, n);
    ValueHalf(Sixteenth(x), n - 16);
    AllGone(x);
    ValueZero(n - 32);
  }

  lemma AllGone(x: bv32)
    ensures Sixteenth(Sixteenth(x)) == 0
  {
  }

  /** The step on a machine word. */
  function WordShift(x: bv32): bv32
  {
    if x & 1 == 1 then Differ(0xEDB8_8320, Half(x)) else Half(x)
  }

  lemma StepValue(x: bv32, n: nat)
    requires n >= 33
    ensures BitStep(Value(x, n)) == Value(WordShift(x), n - 1)
  {
    hide Xor, Value;
    ValueNext(x, n);
    ValueIs(0xEDB8_8320, n - 1);
    ValueXor(0xEDB8_8320, Half(x), n - 1);
  }

  lemma EightSteps(x: bv32, n: nat)
    requires n >= 40
    ensures Steps(Value(x, n), 8)
         == Value(WordShift(WordShift(WordShift(WordShift(WordShift(WordShift(WordShift(WordShift(x)))))))), n - 8)
  {
    hide Steps, BitStep, Value, WordShift;
    var x1 := WordShift(x);
    var x2 := WordShift(x1);
    var x3 := WordShift(x2);
    var x4 := WordShift(x3);
    FourSteps(x, n);
    FourSteps(x4, n - 4);
    StepsAdd(Value(x, n), 4, 4);
  }

  lemma FourSteps(x: bv32, n: nat)
    requires n >= 36
    ensures Steps(Value(x, n), 4) == Value(WordShift(WordShift(WordShift(WordShift(x)))), n - 4)
  {
    hide BitStep, Value, WordShift;
    var x1 := WordShift(x);
    var x2 := WordShift(x1);
    var x3 := WordShift(x2);
    StepValue(x, n);
    StepValue(x1, n - 1);
    StepValue(x2, n - 2);
    StepValue(x3, n - 3);
    var c := Value(x, n);
    assert Steps(BitStep(BitStep(c)), 2) == BitStep(BitStep(BitStep(BitStep(c))));
  }

  lemma Together(crc1: nat, crc2: nat, len2: nat)
    ensures forall a, b :: crc1 == Crc(0, a) && crc2 == Crc(0, b) && len2 == |b| ==>
      Crc(0, a + b) == if len2 == 0 then crc1 else Xor(Steps(crc1, 8 * len2), crc2)
  {
    hide Xor, Steps, Crc;
    forall a, b | crc1 == Crc(0, a) && crc2 == Crc(0, b) && len2 == |b|
      ensures Crc(0, a + b) == if len2 == 0 then crc1 else Xor(Steps(crc1, 8 * len2), crc2)
    {
      CombineLaw(a, b);
      if len2 == 0 {
        assert a + b == a;
      }
    }
  }

  lemma Cancels(a: nat, b: nat, c: nat)
    ensures Xor(Xor(a, b), Xor(b, c)) == Xor(a, c)
  {
    hide Xor;
    XorAssoc(Xor(a, b), b, c);
    XorTwice(a, b);
  }
}
