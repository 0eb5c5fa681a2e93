/** The canonical Huffman code of section 3.2.2 of RFC 1951, for a sequence of code
    lengths in which 0 means that the symbol has no code. */
module Canonical {
  import opened Powers
  import opened Bits

  const MAXBITS: nat := 15

  /** How often length b occurs. */
  function Occ(lens: seq<nat>, b: nat): nat
  {
    if lens == [] then 0
    else Occ(lens[..|lens| - 1], b) + if lens[|lens| - 1] == b then 1 else 0
  }

  /** The part of the code space, in units of 2^-b, taken by the codes of at most b bits. */
  function Space(lens: seq<nat>, b: nat): nat
  {
    if b == 0 then 0 else 2 * Space(lens, b - 1) + Occ(lens, b)
  }

  /** The numerically smallest code of b bits. */
  function FirstCode(lens: seq<nat>, b: nat): nat
    requires b >= 1
  {
    2 * Space(lens, b - 1)
  }

  /** Symbol i's code: consecutive values, in symbol order, within one length. */
  function Code(lens: seq<nat>, i: nat): nat
    requires i < |lens| && lens[i] >= 1
  {
    FirstCode(lens, lens[i]) + Occ(lens[..i], lens[i])
  }

  predicate LengthsOk(lens: seq<nat>)
  {
    forall i :: 0 <= i < |lens| ==> lens[i] <= MAXBITS
  }

  /** The low bits of x, first bit lowest, are symbol i's code. */
  predicate Matches(lens: seq<nat>, i: nat, x: nat)
    requires i < |lens|
  {
    lens[i] >= 1 && Low(x, lens[i]) == Rev(Code(lens, i), lens[i])
  }

  lemma {:induction false} OccPrefix(lens: seq<nat>, b: nat, i: nat, j: nat)
    requires i <= j <= |lens|
    ensures Occ(lens[..i], b) <= Occ(lens[..j], b)
    ensures i < j && lens[i] == b ==> Occ(lens[..i], b) < Occ(lens[..j], b)
    decreases j
  {
    if i < j {
      OccPrefix(lens, b, i, j - 1);
      assert lens[..j][..j - 1] == lens[..j - 1];
    }
  }

  lemma CodeBounds(lens: seq<nat>, i: nat)
    requires i < |lens| && lens[i] >= 1
    ensures FirstCode(lens, lens[i]) <= Code(lens, i) < Space(lens, lens[i])
  {
    OccPrefix(lens, lens[i], i, |lens|);
    assert lens[..|lens|] == lens;
  }

  /** Within one length, codes follow symbol order. */
  lemma CodeOrder(lens: seq<nat>, i: nat, j: nat)
    requires i < j < |lens| && lens[i] == lens[j] && lens[i] >= 1
    ensures Code(lens, i) < Code(lens, j)
  {
    OccPrefix(lens, lens[i], i, j);
  }

  /** The space only grows from one length to the next. */
  lemma {:induction false} SpaceGrows(lens: seq<nat>, b: nat, d: nat)
    ensures Space(lens, b) * Pow2(d) <= Space(lens, b + d)
  {
    if d > 0 {
      SpaceGrows(lens, b, d - 1);
      ScaleStep(Space(lens, b), d);
    }
  }

  lemma ScaleStep(a: nat, d: nat)
    requires d >= 1
    ensures a * Pow2(d) == 2 * (a * Pow2(d - 1))
  {
    var p := Pow2(d - 1);
    assert a * (2 * p) == 2 * (a * p);
  }

  /** Not over-subscribed up to n bits means not over-subscribed at any shorter length. */
  lemma {:induction false} SpaceFits(lens: seq<nat>, b: nat, n: nat)
    requires b <= n && Space(lens, n) <= Pow2(n)
    ensures Space(lens, b) <= Pow2(b)
  {
    if b < n {
      SpaceFits(lens, b, n - 1);
    }
  }

  /** A shorter code is never the beginning of a longer one. */
  lemma CodesPrefixFree(lens: seq<nat>, i: nat, j: nat)
    requires i < |lens| && j < |lens| && 1 <= lens[i] <= lens[j] && i != j
    ensures High(Code(lens, j), lens[j] - lens[i]) != Code(lens, i)
  {
    hide Occ, Space, Pow2;
    var d := lens[j] - lens[i];
    CodeBounds(lens, i);
    CodeBounds(lens, j);
    if d == 0 {
      if i < j {
        CodeOrder(lens, i, j);
      } else {
        CodeOrder(lens, j, i);
      }
      HighStep(Code(lens, j), 0);
    } else {
      FirstAfter(lens, lens[i], d);
      HighScaled(Space(lens, lens[i]), Code(lens, j), d);
    }
  }

  lemma FirstAfter(lens: seq<nat>, b: nat, d: nat)
    requires d >= 1
    ensures Space(lens, b) * Pow2(d) <= FirstCode(lens, b + d)
  {
    hide Space, Pow2;
    SpaceGrows(lens, b, d - 1);
    ScaleStep(Space(lens, b), d);
  }

  lemma HighScaled(a: nat, c: nat, d: nat)
    requires a * Pow2(d) <= c
    ensures High(c, d) >= a
  {
    HighPlus(0, a, d);
    HighMono(a * Pow2(d), c, d);
  }

  /** Codes fit their lengths when the lengths are not over-subscribed. */
  lemma CodeFits(lens: seq<nat>, i: nat, n: nat)
    requires i < |lens| && 1 <= lens[i] <= n && Space(lens, n) <= Pow2(n)
    ensures Code(lens, i) < Pow2(lens[i])
  {
    CodeBounds(lens, i);
    SpaceFits(lens, lens[i], n);
  }

  /** At most one symbol's code begins any bit string. */
  lemma MatchUnique(lens: seq<nat>, i: nat, j: nat, x: nat, n: nat)
    requires i < |lens| && j < |lens| && lens[i] <= lens[j] <= n && Space(lens, n) <= Pow2(n)
    requires Matches(lens, i, x) && Matches(lens, j, x)
    ensures i == j
  {
    hide Occ, Space, Pow2, Low, High, Rev, Code;
    var a, b := lens[i], lens[j];
    var ci, cj := Code(lens, i), Code(lens, j);
    CodeFits(lens, i, n);
    CodeFits(lens, j, n);
    LowLow(x, b, a);
    RevLow(cj, b, a);
    RevRev(ci, a);
    HighFits(cj, a, b);
    RevRev(High(cj, b - a), a);
    if i != j {
      CodesPrefixFree(lens, i, j);
    }
  }

  lemma HighFits(c: nat, a: nat, b: nat)
    requires a <= b && c < Pow2(b)
    ensures High(c, b - a) < Pow2(a)
  {
    HighBound(c, a, b - a);
  }

  /** The r-th symbol of length b. */
  lemma {:induction false} NthOcc(lens: seq<nat>, b: nat, r: nat) returns (i: nat)
    requires r < Occ(lens, b)
    ensures i < |lens| && lens[i] == b && Occ(lens[..i], b) == r
  {
    var n := |lens| - 1;
    if lens[n] == b && Occ(lens[..n], b) == r {
      i := n;
    } else {
      i := NthOcc(lens[..n], b, r);
      assert lens[..n][..i] == lens[..i];
    }
  }

  /** The length at which the value v of n bits leaves the used space. */
  lemma {:induction false} FindLength(lens: seq<nat>, v: nat, n: nat, b: nat) returns (a: nat)
    requires b <= n && High(v, n - b) < Space(lens, b)
    ensures 1 <= a <= b && FirstCode(lens, a) <= High(v, n - a) < Space(lens, a)
    decreases b
  {
    hide High;
    if b == 0 {
    } else if High(v, n - b) >= FirstCode(lens, b) {
      a := b;
    } else {
      HighHigh(v, n - b, 1);
      HighStep(High(v, n - b), 1);
      HighStep(High(v, n - b) / 2, 0);
      a := FindLength(lens, v, n, b - 1);
    }
  }

  /** When the code is complete at n bits, every bit string begins with some symbol's code. */
  lemma MatchExists(lens: seq<nat>, x: nat, n: nat) returns (i: nat)
    requires Space(lens, n) == Pow2(n)
    ensures i < |lens| && lens[i] <= n && Matches(lens, i, x)
  {
    hide Occ, Pow2, Low, High, Rev;
    var v := Rev(Low(x, n), n);
    HighStep(v, 0);
    var a := FindLength(lens, v, n, n);
    var c := High(v, n - a);
    i := NthOcc(lens, a, c - FirstCode(lens, a));
    RevLow(v, n, a);
    RevRev(Low(x, n), n);
    LowLow(x, n, a);
  }

  /** The number of codes shorter than b bits. */
  function Before(lens: seq<nat>, b: nat): nat
  {
    if b <= 1 then 0 else Before(lens, b - 1) + Occ(lens, b - 1)
  }

  /** Symbol i's place when the symbols are sorted by length, then by number. */
  function Place(lens: seq<nat>, i: nat): nat
    requires i < |lens|
  {
    Before(lens, lens[i]) + Occ(lens[..i], lens[i])
  }

  lemma {:induction false} BeforeMono(lens: seq<nat>, a: nat, b: nat)
    requires 1 <= a <= b
    ensures Before(lens, a) <= Before(lens, b)
    ensures a < b ==> Before(lens, a) + Occ(lens, a) <= Before(lens, b)
    decreases b
  {
    if a < b {
      BeforeMono(lens, a, b - 1);
    }
  }

  lemma PlaceDiffers(lens: seq<nat>, i: nat, j: nat)
    requires i < |lens| && j < |lens| && i != j && lens[i] >= 1 && lens[j] >= 1
    ensures Place(lens, i) != Place(lens, j)
  {
    hide Before, Occ;
    PlaceRange(lens, i);
    PlaceRange(lens, j);
    if lens[i] == lens[j] {
      OccPrefix(lens, lens[i], if i < j then i else j, if i < j then j else i);
    } else if lens[i] < lens[j] {
      BeforeMono(lens, lens[i], lens[j]);
    } else {
      BeforeMono(lens, lens[j], lens[i]);
    }
  }

  lemma PlaceRange(lens: seq<nat>, i: nat)
    requires i < |lens| && lens[i] >= 1
    ensures Before(lens, lens[i]) <= Place(lens, i) < Before(lens, lens[i]) + Occ(lens, lens[i])
  {
    OccPrefix(lens, lens[i], i, |lens|);
    assert lens[..|lens|] == lens;
  }

  /** All codes together are no more than the symbols. */
  lemma {:induction false} BeforeBound(lens: seq<nat>, b: nat)
    ensures Before(lens, b) <= |lens|
  {
    BeforeIsUpTo(lens, b);
    UpToBound(lens, b);
  }

  function UpTo(lens: seq<nat>, b: nat): nat
  {
    if lens == [] then 0
    else UpTo(lens[..|lens| - 1], b) + if 1 <= lens[|lens| - 1] < b then 1 else 0
  }

  lemma {:induction false} UpToBound(lens: seq<nat>, b: nat)
    ensures UpTo(lens, b) <= |lens|
  {
    if lens != [] {
      UpToBound(lens[..|lens| - 1], b);
    }
  }

  lemma {:induction false} UpToStep(lens: seq<nat>, b: nat)
    requires b >= 2
    ensures UpTo(lens, b) == UpTo(lens, b - 1) + Occ(lens, b - 1)
  {
    if lens != [] {
      UpToStep(lens[..|lens| - 1], b);
    }
  }

  lemma {:induction false} UpToNone(lens: seq<nat>, b: nat)
    requires b <= 1
    ensures UpTo(lens, b) == 0
  {
    if lens != [] {
      UpToNone(lens[..|lens| - 1], b);
    }
  }

  lemma {:induction false} BeforeIsUpTo(lens: seq<nat>, b: nat)
    ensures Before(lens, b) == UpTo(lens, b)
  {
    if b <= 1 {
      UpToNone(lens, b);
    } else {
      BeforeIsUpTo(lens, b - 1);
      UpToStep(lens, b);
    }
  }

  lemma OccEmpty(lens: seq<nat>)
    ensures forall b :: Occ(lens[..0], b) == 0
  {
  }

  lemma OccNext(lens: seq<nat>, n: nat)
    requires n < |lens|
    ensures forall b :: Occ(lens[..n + 1], b) == Occ(lens[..n], b) + if lens[n] == b then 1 else 0
  {
    assert lens[..n + 1][..n] == lens[..n];
  }

  lemma {:induction false} OccNone(lens: seq<nat>, b: nat)
    ensures Occ(lens, b) == 0 <==> forall i :: 0 <= i < |lens| ==> lens[i] != b
  {
    if lens != [] {
      var n := |lens| - 1;
      OccNone(lens[..n], b);
      assert forall i :: 0 <= i < n ==> lens[..n][i] == lens[i];
      if Occ(lens[..n], b) != 0 {
        var i :| 0 <= i < n && lens[..n][i] == b;
        assert lens[i] == b;
      }
    }
  }

  /** Beyond the longest length the space only doubles. */
  lemma {:induction false} SpaceBeyond(lens: seq<nat>, max: nat, n: nat)
    requires max <= n && forall i :: 0 <= i < |lens| ==> lens[i] <= max
    ensures Space(lens, n) == Space(lens, max) * Pow2(n - max)
    decreases n
  {
    if max < n {
      SpaceBeyond(lens, max, n - 1);
      ScaleStep(Space(lens, max), n - max);
      OccNone(lens, n);
    }
  }

  lemma SpaceAtMax(lens: seq<nat>, max: nat)
    requires max <= MAXBITS && forall i :: 0 <= i < |lens| ==> lens[i] <= max
    ensures Space(lens, MAXBITS) <= Pow2(MAXBITS) <==> Space(lens, max) <= Pow2(max)
    ensures Space(lens, MAXBITS) == Pow2(MAXBITS) <==> Space(lens, max) == Pow2(max)
  {
    hide Space, Pow2;
    SpaceBeyond(lens, max, MAXBITS);
    Pow2Add(max, MAXBITS - max);
    MulOrder(Space(lens, max), Pow2(max), Pow2(MAXBITS - max));
  }

  lemma MulOrder(a: nat, b: nat, p: nat)
    requires p >= 1
    ensures a * p <= b * p <==> a <= b
    ensures a * p == b * p <==> a == b
  {
    if a < b {
      MulGap(p, a, b);
    } else if b < a {
      MulGap(p, b, a);
    }
  }
}
