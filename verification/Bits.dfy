/** Bit operations on natural numbers: Low(x, n) is x & ((1 << n) - 1), High(x, n)
    is x >> n, and Rev(v, n) is v's n low bits in reverse order. */
module Bits {
  import opened Powers

  function Low(x: nat, n: nat): (r: nat)
    ensures r < Pow2(n)
  {
    if n == 0 then 0 else x % 2 + 2 * Low(x / 2, n - 1)
  }

  function High(x: nat, n: nat): nat
  {
    if n == 0 then x else High(x / 2, n - 1)
  }

  function Rev(v: nat, n: nat): (r: nat)
    ensures r < Pow2(n)
  {
    if n == 0 then 0 else (if v % 2 == 1 then Pow2(n - 1) else 0) + Rev(v / 2, n - 1)
  }

  lemma {:induction false} Split(x: nat, n: nat)
    ensures x == Low(x, n) + Pow2(n) * High(x, n)
  {
    if n > 0 {
      Split(x / 2, n - 1);
      MulAssoc2(Pow2(n - 1), High(x / 2, n - 1));
    }
  }

  lemma MulAssoc2(p: nat, h: nat)
    ensures 2 * (p * h) == (2 * p) * h
  {
  }

  /** Low and High are remainder and quotient by a power of two. */
  lemma LowHighDivMod(x: nat, n: nat)
    ensures Low(x, n) == x % Pow2(n) && High(x, n) == x / Pow2(n)
  {
    Split(x, n);
    DivModUnique(x, Pow2(n), High(x, n), Low(x, n));
  }

  lemma DivModUnique(x: nat, p: nat, q: nat, r: nat)
    requires p >= 1 && r < p && x == r + p * q
    ensures x / p == q && x % p == r
  {
    var q', r' := x / p, x % p;
    assert x == r' + p * q';
    if q' > q {
      MulGap(p, q, q');
    } else if q' < q {
      MulGap(p, q', q);
    }
  }

  lemma MulGap(p: nat, a: nat, b: nat)
    requires a < b
    ensures p * b >= p * a + p
  {
    var d := b - a - 1;
    assert p * d >= 0;
    assert p * (a + 1 + d) == p * a + p + p * d;
  }

  lemma {:induction false} LowLow(x: nat, a: nat, b: nat)
    requires b <= a
    ensures Low(Low(x, a), b) == Low(x, b)
  {
    if b > 0 {
      LowLow(x / 2, a - 1, b - 1);
    }
  }

  lemma {:induction false} LowSmall(x: nat, n: nat)
    requires x < Pow2(n)
    ensures Low(x, n) == x
  {
    if n > 0 {
      LowSmall(x / 2, n - 1);
    }
  }

  lemma {:induction false} HighHigh(x: nat, a: nat, b: nat)
    ensures High(High(x, a), b) == High(x, a + b)
  {
    if a > 0 {
      HighHigh(x / 2, a - 1, b);
    }
  }

  /** The bits b .. a+b of x, taken in either order. */
  lemma {:induction false} HighLow(x: nat, a: nat, b: nat)
    ensures High(Low(x, a + b), b) == Low(High(x, b), a)
  {
    if b > 0 {
      HighLow(x / 2, a, b - 1);
    }
  }

  lemma {:induction false} LowSplit(x: nat, a: nat, b: nat)
    ensures Low(x, a + b) == Low(x, b) + Pow2(b) * Low(High(x, b), a)
  {
    if b > 0 {
      LowSplit(x / 2, a, b - 1);
      MulAssoc2(Pow2(b - 1), Low(High(x / 2, b - 1), a));
    }
  }

  /** Bits at or above position m do not show in the r low bits. */
  lemma {:induction false} LowPlus(y: nat, k: nat, m: nat, r: nat)
    requires r <= m
    ensures Low(y + k * Pow2(m), r) == Low(y, r)
  {
    if r > 0 {
      LowPlus(y / 2, k, m - 1, r - 1);
      HalfPlus(y, k, Pow2(m - 1));
    }
  }

  lemma HalfPlus(y: nat, k: nat, p: nat)
    ensures (y + k * (2 * p)) / 2 == y / 2 + k * p && (y + k * (2 * p)) % 2 == y % 2
  {
    assert k * (2 * p) == 2 * (k * p);
  }

  lemma {:induction false} HighPlus(y: nat, k: nat, m: nat)
    requires y < Pow2(m)
    ensures High(y + k * Pow2(m), m) == k
  {
    if m > 0 {
      HalfPlus(y, k, Pow2(m - 1));
      HighPlus(y / 2, k, m - 1);
    }
  }

  lemma {:induction false} HighBound(x: nat, a: nat, b: nat)
    requires x < Pow2(a + b)
    ensures High(x, b) < Pow2(a)
  {
    if b > 0 {
      HighBound(x / 2, a, b - 1);
    }
  }

  lemma {:induction false} HighMono(x: nat, y: nat, n: nat)
    requires x <= y
    ensures High(x, n) <= High(y, n)
  {
    if n > 0 {
      HighMono(x / 2, y / 2, n - 1);
    }
  }

  lemma HighStep(x: nat, n: nat)
    ensures n == 0 ==> High(x, n) == x
    ensures n > 0 ==> High(x, n) == High(x / 2, n - 1)
  {
  }

  lemma RevStep(v: nat, n: nat)
    requires n > 0
    ensures Rev(v, n) == (if v % 2 == 1 then Pow2(n - 1) else 0) + Rev(v / 2, n - 1)
  {
  }

  lemma RevNone(v: nat)
    ensures Rev(v, 0) == 0 && Pow2(0) == 1
  {
  }

  /** Reversing gives the high bits in the low places. */
  lemma {:induction false} RevLow(v: nat, n: nat, r: nat)
    requires r <= n
    ensures Low(Rev(v, n), r) == Rev(High(v, n - r), r)
  {
    hide Low, High, Rev, Pow2;
    HighStep(v, n - r);
    if r == n {
      LowSmall(Rev(v, n), n);
    } else {
      RevStep(v, n);
      RevLow(v / 2, n - 1, r);
      LowPlus(Rev(v / 2, n - 1), 1, n - 1, r);
    }
  }

  /** Zeros appended below do not change the reversal. */
  lemma {:induction false} RevShift(c: nat, n: nat, d: nat)
    ensures Rev(c * Pow2(d), n + d) == Rev(c, n)
  {
    if d > 0 {
      RevShift(c, n, d - 1);
      assert c * Pow2(d) == 2 * (c * Pow2(d - 1));
    }
  }

  /** The reversal read from its other end. */
  lemma {:induction false} RevTop(v: nat, n: nat)
    requires n >= 1 && v < Pow2(n)
    ensures Rev(v, n) == High(v, n - 1) + 2 * Rev(Low(v, n - 1), n - 1) && High(v, n - 1) < 2
  {
    if n == 1 {
      assert Pow2(1) == 2 && Pow2(0) == 1;
    } else {
      RevTop(v / 2, n - 1);
      var l := Low(v, n - 1);
      assert l % 2 == v % 2 && l / 2 == Low(v / 2, n - 2);
      assert Rev(l, n - 1) == (if v % 2 == 1 then Pow2(n - 2) else 0) + Rev(Low(v / 2, n - 2), n - 2);
    }
  }

  lemma {:induction false} RevRev(v: nat, n: nat)
    requires v < Pow2(n)
    ensures Rev(Rev(v, n), n) == v
    decreases n
  {
    hide Low, High, Pow2, Rev;
    if n > 0 {
      var l, b := Low(v, n - 1), High(v, n - 1);
      RevTop(v, n);
      RevRev(l, n - 1);
      Split(v, n - 1);
      RevStep(Rev(v, n), n);
      assert b == 0 || b == 1;
    } else {
      RevNone(v);
      RevNone(Rev(v, n));
    }
  }

  /** Adding one to a reversed number: line 240-248 of inftrees.c. */
  function RevNext(huff: nat, n: nat): nat
    decreases n
  {
    if n == 0 then 0
    else if High(huff, n - 1) % 2 == 0 then huff + Pow2(n - 1)
    else RevNext(Low(huff, n - 1), n - 1)
  }

  lemma RevNextStep(huff: nat, n: nat)
    requires n > 0
    ensures RevNext(huff, n)
         == if High(huff, n - 1) % 2 == 0 then huff + Pow2(n - 1) else RevNext(Low(huff, n - 1), n - 1)
    ensures Pow2(n) == 2 * Pow2(n - 1)
  {
  }

  lemma RevNextEven(k: nat, n: nat)
    requires n >= 1
    ensures RevNext(Rev(2 * k, n), n) == Rev(2 * k + 1, n)
  {
    hide Low, High, Rev, RevNext, Pow2;
    RevStep(2 * k, n);
    RevStep(2 * k + 1, n);
    RevNextStep(Rev(2 * k, n), n);
    HighPlus(Rev(k, n - 1), 0, n - 1);
  }

  lemma RevNextOdd(k: nat, n: nat)
    requires n >= 1
    ensures RevNext(Rev(2 * k + 1, n), n) == RevNext(Rev(k, n - 1), n - 1)
    ensures Rev(2 * (k + 1), n) == Rev(k + 1, n - 1)
  {
    hide Low, High, Rev, RevNext, Pow2;
    var y := Rev(k, n - 1);
    RevStep(2 * k + 1, n);
    RevStep(2 * (k + 1), n);
    RevNextStep(Rev(2 * k + 1, n), n);
    HighPlus(y, 1, n - 1);
    LowPlus(y, 1, n - 1, n - 1);
    LowSmall(y, n - 1);
  }

  lemma {:induction false} RevNextIsNext(c: nat, n: nat)
    requires c < Pow2(n)
    ensures RevNext(Rev(c, n), n) == if c + 1 == Pow2(n) then 0 else Rev(c + 1, n)
  {
    hide Rev, RevNext;
    var k := c / 2;
    if n == 0 {
      RevNextNone(Rev(c, 0));
    } else if c % 2 == 1 {
      assert c == 2 * k + 1;
      RevNextOdd(k, n);
      RevNextIsNext(k, n - 1);
    } else {
      assert c == 2 * k;
      RevNextEven(k, n);
    }
  }

  lemma RevNextNone(huff: nat)
    ensures RevNext(huff, 0) == 0 && Pow2(0) == 1
  {
  }
}
