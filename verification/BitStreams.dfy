/** Bit strings as DEFLATE packs them: the first bit is the lowest one. */
module BitStreams {
  import opened Powers
  import opened Bits

  type byte = x: nat | x < 256

  /** The n low bits of v, lowest first. */
  function BitsOf(v: nat, n: nat): (r: seq<bool>)
    ensures |r| == n
  {
    if n == 0 then [] else [v % 2 == 1] + BitsOf(v / 2, n - 1)
  }

  /** The number whose bits, lowest first, are b. */
  function ValueOf(b: seq<bool>): (r: nat)
    ensures r < Pow2(|b|)
  {
    if b == [] then 0 else (if b[0] then 1 else 0) + 2 * ValueOf(b[1..])
  }

  function BytesBits(s: seq<byte>): (r: seq<bool>)
    ensures |r| == 8 * |s|
  {
    if s == [] then [] else BytesBits(s[..|s| - 1]) + BitsOf(s[|s| - 1], 8)
  }

  lemma {:induction false} ValueOfBits(v: nat, n: nat)
    ensures ValueOf(BitsOf(v, n)) == Low(v, n)
  {
    if n > 0 {
      ValueOfBits(v / 2, n - 1);
      assert BitsOf(v, n)[1..] == BitsOf(v / 2, n - 1);
    }
  }

  lemma {:induction false} BitsOfValue(b: seq<bool>)
    ensures BitsOf(ValueOf(b), |b|) == b
  {
    if b != [] {
      BitsOfValue(b[1..]);
      assert b == [b[0]] + b[1..];
    }
  }

  lemma {:induction false} ValueConcat(a: seq<bool>, b: seq<bool>)
    ensures ValueOf(a + b) == ValueOf(a) + ValueOf(b) * Pow2(|a|)
  {
    if a == [] {
      assert a + b == b;
    } else {
      ValueConcat(a[1..], b);
      assert (a + b)[1..] == a[1..] + b;
      HalfPlus(ValueOf(a), ValueOf(b), Pow2(|a| - 1));
      DoubleMul(ValueOf(b), Pow2(|a| - 1));
    }
  }

  lemma DoubleMul(v: nat, p: nat)
    ensures v * (2 * p) == 2 * (v * p)
  {
  }

  lemma {:induction false} BitsConcat(v: nat, a: nat, b: nat)
    ensures BitsOf(v, a + b) == BitsOf(v, a) + BitsOf(High(v, a), b)
  {
    if a == 0 {
      assert BitsOf(v, 0) == [];
    } else {
      BitsConcat(v / 2, a - 1, b);
    }
  }

  /** Only the low bits of v show. */
  lemma {:induction false} BitsLow(v: nat, n: nat, m: nat)
    requires n <= m
    ensures BitsOf(Low(v, m), n) == BitsOf(v, n)
  {
    if n > 0 {
      BitsLow(v / 2, n - 1, m - 1);
    }
  }

  /** A number put above another one appends its bits. */
  lemma BitsPlus(a: nat, n: nat, v: nat, m: nat)
    requires a < Pow2(n)
    ensures BitsOf(a + v * Pow2(n), n + m) == BitsOf(a, n) + BitsOf(v, m)
  {
    hide Low, High, Pow2, BitsOf;
    var x := a + v * Pow2(n);
    BitsConcat(x, n, m);
    HighPlus(a, v, n);
    LowPlus(a, v, n, n);
    BitsLow(x, n, n);
    BitsLow(a, n, n);
  }

  lemma {:induction false} BytesConcat(s: seq<byte>, t: seq<byte>)
    ensures BytesBits(s + t) == BytesBits(s) + BytesBits(t)
  {
    if t == [] {
      assert s + t == s;
    } else {
      BytesConcat(s, t[..|t| - 1]);
      assert (s + t)[..|s + t| - 1] == s + t[..|t| - 1];
    }
  }

  lemma BytesOne(x: byte)
    ensures BytesBits([x]) == BitsOf(x, 8)
  {
    hide BitsOf;
    assert [x][..0] == [];
    assert BytesBits([x][..0]) == [];
  }

  /** The value of the first bits of a string is the low part of its value. */
  lemma ValuePrefix(b: seq<bool>, n: nat)
    requires n <= |b|
    ensures ValueOf(b[..n]) == Low(ValueOf(b), n) && ValueOf(b[n..]) == High(ValueOf(b), n)
  {
    hide Low, High, Pow2, ValueOf;
    assert b == b[..n] + b[n..];
    ValueConcat(b[..n], b[n..]);
    var x, y := ValueOf(b[..n]), ValueOf(b[n..]);
    LowPlus(x, y, n, n);
    LowSmall(x, n);
    HighPlus(x, y, n);
  }
}
