/** The rolling hash of deflate.c: UPDATE_HASH over three bytes. */
module Hashing {
  import opened Powers
  import opened Bits
  import opened BitStreams
  import opened Xors

  /** hash_shift and hash_bits: three shifts push a byte out of the hash. */
  predicate GoodHash(s: nat, hb: nat)
  {
    3 * s >= hb >= 8
  }

  /** UPDATE_HASH, line 163. */
  function Update(s: nat, hb: nat, h: nat, c: byte): nat
  {
    Low(Xor(Shl(h, s), c), hb)
  }

  /** The hash of three bytes. */
  function Hash3(s: nat, hb: nat, a: byte, b: byte, c: byte): nat
  {
    Update(s, hb, Update(s, hb, a, b), c)
  }

  /** The hash value h stands for the bytes a and b, as far as the next update goes. */
  predicate Primed(s: nat, hb: nat, h: nat, a: byte, b: byte)
  {
    Low(Shl(h, s), hb) == Low(Shl(Xor(Shl(a, s), b), s), hb)
  }

  /** Shifting after cutting is cutting after shifting. */
  lemma {:induction false} LowShift(x: nat, s: nat, n: nat)
    ensures Low(Shl(Low(x, n), s), n) == Low(Shl(x, s), n)
  {
    hide Low, Pow2, Shl;
    Split(x, n);
    var h, p, q := High(x, n), Pow2(s), Pow2(n);
    ShlIs(x, s);
    ShlIs(Low(x, n), s);
    ShiftParts(Low(x, n), h, p, q);
    LowPlus(Low(x, n) * p, h * p, n, n);
  }

  lemma ShiftParts(l: nat, h: nat, p: nat, q: nat)
    ensures (l + q * h) * p == l * p + (h * p) * q
  {
  }

  lemma UpdateXor(s: nat, hb: nat, h: nat, c: byte)
    ensures Update(s, hb, h, c) == Xor(Low(Shl(h, s), hb), Low(c, hb))
  {
    hide Low, Xor, Shl;
    XorLow(Shl(h, s), c, hb);
  }

  /** After two bytes the hash is primed for them: lines 1540-1541. */
  lemma TwoBytesPrime(s: nat, hb: nat, a: byte, b: byte)
    ensures Primed(s, hb, Update(s, hb, a, b), a, b)
  {
    hide Low, Shl, Xor;
    LowShift(Xor(Shl(a, s), b), s, hb);
  }

  /** The next update of a primed hash is the hash of the three bytes. */
  lemma PrimedUpdate(s: nat, hb: nat, h: nat, a: byte, b: byte, c: byte)
    requires Primed(s, hb, h, a, b)
    ensures Update(s, hb, h, c) == Hash3(s, hb, a, b, c)
  {
    hide Low, Shl, Xor, Update;
    TwoBytesPrime(s, hb, a, b);
    UpdateXor(s, hb, h, c);
    UpdateXor(s, hb, Update(s, hb, a, b), c);
  }

  /** The oldest byte drops out: the hash of three bytes is primed for the last two. */
  lemma HashPrimes(s: nat, hb: nat, a: byte, b: byte, c: byte)
    requires GoodHash(s, hb)
    ensures Primed(s, hb, Hash3(s, hb, a, b, c), b, c)
  {
    hide Low, Shl, Xor;
    var h := Update(s, hb, a, b);
    TwoBytesPrime(s, hb, a, b);
    var u := Xor(Shl(a, s), b);
    LowShift(Xor(Shl(h, s), c), s, hb);
    XorShift(Shl(h, s), c, s);
    XorLow(Shl(Shl(h, s), s), Shl(c, s), hb);
    LowShift(Shl(h, s), s, hb);
    LowShift(Shl(u, s), s, hb);
    OldByte(s, hb, a, b);
    XorShift(Shl(b, s), c, s);
    XorLow(Shl(Shl(b, s), s), Shl(c, s), hb);
  }

  /** Two more shifts leave nothing of the older byte. */
  lemma OldByte(s: nat, hb: nat, a: nat, b: nat)
    requires GoodHash(s, hb)
    ensures Low(Shl(Shl(Xor(Shl(a, s), b), s), s), hb) == Low(Shl(Shl(b, s), s), hb)
  {
    hide Low, Shl, Xor;
    XorShift(Shl(a, s), b, s);
    XorShift(Shl(Shl(a, s), s), Shl(b, s), s);
    XorLow(Shl(Shl(Shl(a, s), s), s), Shl(Shl(b, s), s), hb);
    ThreeShift(a, s, hb);
    XorZero(Low(Shl(Shl(b, s), s), hb));
  }

  lemma {:induction false} ShlShl(x: nat, s: nat, t: nat)
    ensures Shl(Shl(x, s), t) == Shl(x, s + t)
  {
    if t > 0 {
      ShlShl(x, s, t - 1);
    }
  }

  /** A byte shifted three times leaves no bit. */
  lemma ThreeShift(a: nat, s: nat, hb: nat)
    requires 3 * s >= hb
    ensures Low(Shl(Shl(Shl(a, s), s), s), hb) == 0
  {
    hide Low, Shl, Pow2;
    ShlShl(a, s, s);
    ShlShl(a, 2 * s, s);
    ShlIs(a, 3 * s);
    LowPlus(0, a, 3 * s, hb);
    LowOfZero(hb);
  }

  lemma {:induction false} LowOfZero(n: nat)
    ensures Low(0, n) == 0
  {
    if n > 0 {
      LowOfZero(n - 1);
    }
  }

  /** Equal hashes and equal first bytes leave the third no choice: why longest_match need not
      compare it. */
  lemma ThirdByte(s: nat, hb: nat, a: byte, b: byte, c: byte, d: byte)
    requires GoodHash(s, hb) && Hash3(s, hb, a, b, c) == Hash3(s, hb, a, b, d)
    ensures c == d
  {
    hide Low, Shl, Xor, Update;
    var h := Update(s, hb, a, b);
    UpdateXor(s, hb, h, c);
    UpdateXor(s, hb, h, d);
    XorCancel(Low(Shl(h, s), hb), Low(c, hb), Low(d, hb));
    ByteFits(hb);
    LowSmall(c, hb);
    LowSmall(d, hb);
  }

  lemma ByteFits(hb: nat)
    requires hb >= 8
    ensures Pow2(hb) >= 256
  {
    Pow2Mono(8, hb);
    assert Pow2(8) == 256;
  }
}
