/** gen_codes and bi_reverse of trees.c: the code values of given lengths. */
module CodeGen {
  import opened Powers
  import opened Bits
  import opened Canonical
  import opened PrefixCodes
  import opened LengthCounts

  lemma {:induction false} RevGrow(v: nat, j: nat)
    ensures Rev(v, j + 1) == 2 * Rev(v, j) + High(v, j) % 2
  {
    if j > 0 {
      RevGrow(v / 2, j - 1);
    } else {
      assert Rev(v / 2, 0) == 0 && Pow2(0) == 1;
    }
  }

  /** Lines 1158-1168. */
  method BiReverse(code: nat, len: nat) returns (r: nat)
    requires len >= 1
    ensures r == Rev(code, len)
  {
    hide Rev, High, Pow2;
    var res: nat, rest: nat, left: nat := 0, code, len;
    RevNone(code);
    HighStep(code, 0);
    while left > 0
      invariant left <= len && rest == High(code, len - left) && res == 2 * Rev(code, len - left)
    {
      RevGrow(code, len - left);
      HighHigh(code, len - left, 1);
      HighStep(rest, 1);
      HighStep(rest / 2, 0);
      res := 2 * (res + rest % 2);
      rest := rest / 2;
      left := left - 1;
    }
    r := res / 2;
  }

  /** bl holds the bit length statistics of lens. */
  ghost predicate Statistics(bl: seq<nat>, lens: seq<nat>)
  {
    |bl| == MAXBITS + 1 && bl[0] == 0 && forall b :: 1 <= b <= MAXBITS ==> bl[b] == Occ(lens, b)
  }

  /** The codes of the symbols below n are in place, and the other fields are as before. */
  ghost predicate Coded(fc: seq<nat>, fc': seq<nat>, lens: seq<nat>, n: nat)
    requires n <= |lens| <= |fc|
  {
    && |fc'| == |fc|
    && (forall i :: 0 <= i < n && lens[i] >= 1 ==> fc'[i] == Rev(Code(lens, i), lens[i]))
    && (forall i :: 0 <= i < |fc| && (i >= n || lens[i] == 0) ==> fc'[i] == fc[i])
  }

  ghost predicate NextCodes(next: seq<nat>, lens: seq<nat>, n: nat)
    requires n <= |lens|
  {
    |next| == MAXBITS + 1 && forall b :: 1 <= b <= MAXBITS ==> next[b] == FirstCode(lens, b) + Occ(lens[..n], b)
  }

  /** Lines 572-605, on the Len fields dl and the union fields fc of a tree. The codes are the
      canonical ones, bits reversed. */
  method GenCodes(fc: seq<nat>, dl: seq<nat>, codes: nat, bl: seq<nat>) returns (fc': seq<nat>)
    requires codes <= |fc| && codes <= |dl| && LengthsOk(dl[..codes]) && Statistics(bl, dl[..codes])
    ensures Coded(fc, fc', dl[..codes], codes)
  {
    hide Occ, Rev;
    ghost var lens: seq<nat> := dl[..codes];
    var next: seq<nat>, code: nat := seq(MAXBITS + 1, _ => 0), 0;
    for bits := 1 to MAXBITS + 1
      invariant |next| == MAXBITS + 1
      invariant bits > 1 ==> code == FirstCode(lens, bits - 1)
      invariant bits == 1 ==> code == 0
      invariant forall b :: 1 <= b < bits ==> next[b] == FirstCode(lens, b)
    {
      code := 2 * (code + bl[bits - 1]);
      next := next[bits := code];
    }
    OccEmpty(lens);
    fc' := fc;
    for n := 0 to codes
      invariant Coded(fc, fc', lens, n) && NextCodes(next, lens, n)
    {
      var len: nat := dl[n];
      OccNext(lens, n);
      if len != 0 {
        CodeIs(lens, n);
        var c := BiReverse(next[len], len);
        fc' := fc'[n := c];
        next := next[len := next[len] + 1];
      }
    }
  }

  lemma CodeIs(lens: seq<nat>, i: nat)
    requires i < |lens| && lens[i] >= 1
    ensures Code(lens, i) == FirstCode(lens, lens[i]) + Occ(lens[..i], lens[i])
  {
  }

  /** The symbols below codes that have a length are exactly the leaves. */
  ghost predicate LeafLens(leaves: set<nat>, dl: seq<nat>, codes: nat)
  {
    && codes <= |dl| && (forall x :: x in leaves ==> x < codes && 1 <= dl[x] <= MAXBITS)
    && (forall x :: 0 <= x < codes && x !in leaves ==> dl[x] == 0)
  }

  lemma {:induction false} CountIsOcc(leaves: set<nat>, dl: seq<nat>, codes: nat, b: nat, n: nat)
    requires LeafLens(leaves, dl, codes) && b >= 1 && n <= |dl|
    ensures CountLen(leaves, dl[..n], b) == Occ(dl[..if n < codes then n else codes], b)
  {
    if n > 0 {
      CountIsOcc(leaves, dl, codes, b, n - 1);
      assert dl[..n][..n - 1] == dl[..n - 1];
    }
  }

  lemma {:induction false} NoZeroLength(leaves: set<nat>, dl: seq<nat>)
    requires forall x :: x in leaves && x < |dl| ==> dl[x] >= 1
    ensures CountLen(leaves, dl, 0) == 0
  {
    if dl != [] {
      NoZeroLength(leaves, dl[..|dl| - 1]);
    }
  }

  lemma {:induction false} SpaceIsUsed(bl: seq<nat>, lens: seq<nat>, b: nat)
    requires Statistics(bl, lens) && b <= MAXBITS
    ensures Space(lens, b) == Used(bl, b)
  {
    if b > 0 {
      SpaceIsUsed(bl, lens, b - 1);
    }
  }

  /** The counts kept while the lengths were made are the statistics of the lengths, and a
      complete set of lengths takes the whole code space. */
  lemma LeafStatistics(leaves: set<nat>, dl: seq<nat>, codes: nat, bl: seq<nat>, max: nat)
    requires LeafLens(leaves, dl, codes) && |bl| == MAXBITS + 1 && CountsOf(bl, leaves, dl)
    requires max <= MAXBITS && Kraft(leaves, dl, max) == Pow2(max) && forall x :: x in leaves ==> dl[x] <= max
    ensures Statistics(bl, dl[..codes]) && LengthsOk(dl[..codes]) && Space(dl[..codes], MAXBITS) == Pow2(MAXBITS)
  {
    hide Occ, CountLen, Space, Used, Kraft, Pow2;
    assert dl[..|dl|] == dl;
    forall b | 1 <= b <= MAXBITS ensures bl[b] == Occ(dl[..codes], b) {
      CountIsOcc(leaves, dl, codes, b, |dl|);
    }
    NoZeroLength(leaves, dl);
    SpaceIsUsed(bl, dl[..codes], max);
    UsedIsKraft(bl, leaves, dl, max);
    SpaceAtMax(dl[..codes], max);
  }

  /** Symbols without a code at the end change nothing. */
  lemma {:induction false} TrailingOcc(lens: seq<nat>, k: nat, b: nat)
    requires k <= |lens| && b >= 1 && forall i :: k <= i < |lens| ==> lens[i] == 0
    ensures Occ(lens, b) == Occ(lens[..k], b)
    decreases |lens|
  {
    if k == |lens| {
      assert lens[..k] == lens;
    } else {
      var n := |lens| - 1;
      TrailingOcc(lens[..n], k, b);
      assert lens[..n][..k] == lens[..k];
    }
  }

  lemma {:induction false} TrailingSpace(lens: seq<nat>, k: nat, b: nat)
    requires k <= |lens| && forall i :: k <= i < |lens| ==> lens[i] == 0
    ensures Space(lens, b) == Space(lens[..k], b)
  {
    if b > 0 {
      TrailingSpace(lens, k, b - 1);
      TrailingOcc(lens, k, b);
    }
  }

  lemma TrailingCode(lens: seq<nat>, k: nat, i: nat)
    requires i < k <= |lens| && lens[i] >= 1 && forall j :: k <= j < |lens| ==> lens[j] == 0
    ensures Code(lens, i) == Code(lens[..k], i)
  {
    TrailingSpace(lens, k, lens[i] - 1);
    assert lens[..k][..i] == lens[..i];
  }
}
