/** Exclusive or on natural numbers. */
module Xors {
  import opened Powers
  import opened Bits

  function Xor(a: nat, b: nat): nat
    decreases a + b
  {
    if a == 0 && b == 0 then 0 else (if a % 2 != b % 2 then 1 else 0) + 2 * Xor(a / 2, b / 2)
  }

  lemma {:induction false} XorLow(a: nat, b: nat, n: nat)
    ensures Low(Xor(a, b), n) == Xor(Low(a, n), Low(b, n))
    decreases n
  {
    hide Xor;
    if n == 0 {
      XorZero(0);
    } else {
      XorLow(a / 2, b / 2, n - 1);
      var x, y := Low(a, n), Low(b, n);
      assert x % 2 == a % 2 && y % 2 == b % 2 && x / 2 == Low(a / 2, n - 1) && y / 2 == Low(b / 2, n - 1);
      XorStep(a, b);
      XorStep(x, y);
    }
  }

  lemma XorStep(a: nat, b: nat)
    ensures Xor(a, b) == (if a % 2 != b % 2 then 1 else 0) + 2 * Xor(a / 2, b / 2)
  {
  }

  lemma {:induction false} XorCancel(a: nat, x: nat, y: nat)
    requires Xor(a, x) == Xor(a, y)
    ensures x == y
    decreases a + x + y
  {
    XorStep(a, x);
    XorStep(a, y);
    if a + x + y > 0 {
      XorCancel(a / 2, x / 2, y / 2);
    }
  }

  /** x << s */
  function Shl(x: nat, s: nat): nat
  {
    if s == 0 then x else 2 * Shl(x, s - 1)
  }

  lemma {:induction false} ShlIs(x: nat, s: nat)
    ensures Shl(x, s) == x * Pow2(s)
  {
    if s > 0 {
      ShlIs(x, s - 1);
      TwiceMul(x, Pow2(s - 1));
    }
  }

  lemma TwiceMul(a: nat, p: nat)
    ensures a * (2 * p) == 2 * (a * p)
  {
  }

  lemma {:induction false} XorShift(a: nat, b: nat, s: nat)
    ensures Shl(Xor(a, b), s) == Xor(Shl(a, s), Shl(b, s))
    decreases s
  {
    hide Xor, Shl;
    ShlStep(a, s);
    ShlStep(b, s);
    ShlStep(Xor(a, b), s);
    if s > 0 {
      XorShift(a, b, s - 1);
      XorDouble(Shl(a, s - 1), Shl(b, s - 1));
    }
  }

  lemma ShlStep(x: nat, s: nat)
    ensures Shl(x, s) == if s == 0 then x else 2 * Shl(x, s - 1)
  {
  }

  lemma XorDouble(x: nat, y: nat)
    ensures Xor(2 * x, 2 * y) == 2 * Xor(x, y)
  {
    hide Xor;
    XorStep(2 * x, 2 * y);
  }

  lemma {:induction false} XorZero(b: nat)
    ensures Xor(0, b) == b
  {
    if b > 0 {
      XorZero(b / 2);
    }
  }

  lemma {:induction false} XorComm(a: nat, b: nat)
    ensures Xor(a, b) == Xor(b, a)
    decreases a + b
  {
    if a + b > 0 {
      XorComm(a / 2, b / 2);
    }
  }

  lemma {:induction false} XorAssoc(a: nat, b: nat, c: nat)
    ensures Xor(Xor(a, b), c) == Xor(a, Xor(b, c))
    decreases a + b + c
  {
    hide Xor;
    XorStep(a, b);
    XorStep(b, c);
    XorStep(Xor(a, b), c);
    XorStep(a, Xor(b, c));
    if a + b + c > 0 {
      XorAssoc(a / 2, b / 2, c / 2);
    } else {
      XorZero(0);
    }
  }

  lemma {:induction false} XorSelf(a: nat)
    ensures Xor(a, a) == 0
    decreases a
  {
    if a > 0 {
      XorSelf(a / 2);
    }
  }

  lemma {:induction false} XorFits(a: nat, b: nat, n: nat)
    requires a < Pow2(n) && b < Pow2(n)
    ensures Xor(a, b) < Pow2(n)
    decreases n
  {
    XorStep(a, b);
    if n > 0 {
      XorFits(a / 2, b / 2, n - 1);
    }
  }

  /** The middle two of four change places. */
  lemma XorSwap(a: nat, b: nat, c: nat, d: nat)
    ensures Xor(Xor(a, b), Xor(c, d)) == Xor(Xor(a, c), Xor(b, d))
  {
    hide Xor;
    XorAssoc(a, b, Xor(c, d));
    XorAssoc(b, c, d);
    XorComm(b, c);
    XorAssoc(c, b, d);
    XorAssoc(a, c, Xor(b, d));
  }

  /** A term that occurs twice drops out. */
  lemma XorTwice(a: nat, b: nat)
    ensures Xor(Xor(a, b), b) == a
  {
    hide Xor;
    XorAssoc(a, b, b);
    XorSelf(b);
    XorComm(a, 0);
    XorZero(a);
  }

  /** Numbers that share no bits. */
  lemma {:induction false} XorJoin(a: nat, b: nat, x: nat, y: nat, n: nat)
    requires a < Pow2(n) && b < Pow2(n)
    ensures Xor(a + x * Pow2(n), b + y * Pow2(n)) == Xor(a, b) + Xor(x, y) * Pow2(n)
    decreases n
  {
    hide Xor;
    if n == 0 {
      XorZero(0);
    } else {
      var p := Pow2(n - 1);
      HalfPlus(a, x, p);
      HalfPlus(b, y, p);
      XorStep(a, b);
      XorStep(a + x * Pow2(n), b + y * Pow2(n));
      XorJoin(a / 2, b / 2, x, y, n - 1);
      TwiceMul(Xor(x, y), p);
    }
  }
}
