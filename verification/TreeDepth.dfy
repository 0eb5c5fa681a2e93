/** How deep a tree of least merges can get: a leaf n levels down needs a total weight of at least the
    Fibonacci number of n + 2. */
module TreeDepth {
  import opened PrefixCodes
  import opened HuffmanTrees
  import opened TreeSteps

  function Fib(n: nat): nat
  {
    if n < 2 then n else Fib(n - 1) + Fib(n - 2)
  }

  lemma {:induction false} FibMono(a: nat, b: nat)
    requires a <= b
    ensures Fib(a) <= Fib(b)
  {
    if a < b {
      FibMono(a, b - 1);
    }
  }

  function Max(a: nat, b: nat): nat
  {
    if a < b then b else a
  }

  /** How far the leaves below node x are from it. */
  ghost function Height(t: Merges, x: nat): nat
    requires Proper(t)
    decreases x
  {
    if t.elems <= x < t.elems + |t.left| then
      RootsBack(t, x - t.elems);
      1 + Max(Height(t, t.left[x - t.elems]), Height(t, t.right[x - t.elems]))
    else 0
  }

  /** No root is lighter than a node that was merged before. */
  lemma {:induction false} Heavier(t: Merges, w: seq<nat>, j: nat, k: nat, x: nat)
    requires Summed(t, w) && Greedy(t, w) && j < k <= |t.left| && x in Roots(t, k)
    ensures SonsRange(t, j) && x < |w| && t.elems + j < |w|
    ensures w[t.left[j]] <= w[x] && w[t.right[j]] <= w[x]
  {
    hide Proper, Roots;
    SummedParts(t, w);
    assert GreedyAt(t, w, j) && SonsRange(t, j);
    RootsBack(t, k - 1);
    RootsRange(t, k);
    if j < k - 1 {
      if x in Roots(t, k - 1) {
        Heavier(t, w, j, k - 1, x);
      } else {
        Heavier(t, w, j, k - 1, t.left[k - 1]);
        assert SonsRange(t, k - 1);
      }
    }
  }

  ghost predicate Node(t: Merges, x: nat)
  {
    x in t.leaves || t.elems <= x < t.elems + |t.left|
  }

  ghost predicate Positive(nodes: set<nat>, w: seq<nat>)
  {
    forall x :: x in nodes && x < |w| ==> w[x] >= 1
  }

  lemma Sons(t: Merges, k: nat)
    requires Proper(t) && k < |t.left|
    ensures SonsRange(t, k) && Node(t, t.left[k]) && Node(t, t.right[k])
    ensures t.left[k] in Roots(t, k) && t.right[k] in Roots(t, k)
    ensures Height(t, t.elems + k) == 1 + Max(Height(t, t.left[k]), Height(t, t.right[k]))
  {
    RootsBack(t, k);
    RootsRange(t, k);
    assert MergeAt(t, k);
  }

  lemma NodeRange(t: Merges, w: seq<nat>, x: nat)
    requires Summed(t, w) && Node(t, x)
    ensures x < |w|
  {
  }

  /** A tall node is a heavy one. */
  lemma {:induction false} Tall(t: Merges, w: seq<nat>, x: nat)
    requires Summed(t, w) && Greedy(t, w) && Node(t, x) && Positive(t.leaves, w)
    ensures x < |w| && w[x] >= Fib(Height(t, x) + 2)
    decreases x
  {
    hide Proper, Roots, Height, Greedy, Fib;
    SummedParts(t, w);
    NodeRange(t, w, x);
    if x in t.leaves {
      ProperSizes(t);
      LeafHeight(t, x);
    } else {
      var k := x - t.elems;
      Sons(t, k);
      var a, b := t.left[k], t.right[k];
      Tall(t, w, a);
      Tall(t, w, b);
      if Height(t, a) < Height(t, b) {
        TallStep(t, w, k, b, a);
      } else {
        TallStep(t, w, k, a, b);
      }
    }
  }

  lemma LeafHeight(t: Merges, x: nat)
    requires Proper(t) && x < t.elems
    ensures Height(t, x) == 0 && Fib(2) == 1
  {
  }

  /** The son a is the taller one. */
  lemma TallStep(t: Merges, w: seq<nat>, k: nat, a: nat, b: nat)
    requires Summed(t, w) && Greedy(t, w) && Positive(t.leaves, w) && k < |t.left| && t.elems + k < |w|
    requires SonsRange(t, k)
    requires (a == t.left[k] && b == t.right[k]) || (a == t.right[k] && b == t.left[k])
    requires w[a] >= Fib(Height(t, a) + 2) && w[b] >= Fib(Height(t, b) + 2) && Height(t, b) <= Height(t, a)
    requires Height(t, t.elems + k) == 1 + Height(t, a)
    ensures w[t.elems + k] >= Fib(Height(t, t.elems + k) + 2)
    decreases t.elems + k, 0
  {
    hide Proper, Roots, Height, Greedy, Fib;
    SummedParts(t, w);
    Sons(t, k);
    FibIs(Height(t, a));
    assert w[t.elems + k] == w[a] + w[b];
    if a < t.elems {
      LeafHeight(t, a);
      FibMono(2, Height(t, b) + 2);
    } else {
      var j := a - t.elems;
      Sons(t, j);
      Heavier(t, w, j, k, b);
      var g := if Height(t, t.left[j]) < Height(t, t.right[j]) then t.right[j] else t.left[j];
      Tall(t, w, g);
    }
  }

  lemma FibIs(h: nat)
    ensures Fib(h + 3) == Fib(h + 2) + Fib(h + 1) && Fib(2) == 1 && Fib(1) == 1
  {
  }

  /** Depths for the nodes merged from merge k on. */
  ghost predicate DepthsFrom(t: Merges, d: seq<nat>, k: nat)
    requires Proper(t)
  {
    && |t.left| >= 1 && |d| == t.elems + |t.left| && d[t.elems + |t.left| - 1] == 0
    && (forall j :: k <= j < |t.left| ==> DepthAt(t, d, j))
  }

  lemma {:induction false} MakeDepths(t: Merges, k: nat) returns (d: seq<nat>)
    requires Complete(t) && k <= |t.left|
    ensures Proper(t) && DepthsFrom(t, d, k) && k <= |t.right|
    ensures forall x :: x in Roots(t, k) ==> x < |d| && d[x] + Height(t, x) <= Height(t, t.elems + |t.left| - 1)
    decreases |t.left| - k
  {
    hide Height, Roots, Proper;
    CompleteSize(t);
    if k == |t.left| {
      d := seq(t.elems + |t.left|, _ => 0);
      OneRoot(t);
    } else {
      var d1 := MakeDepths(t, k + 1);
      RootsBack(t, k);
      Sons(t, k);
      var n, m, node := t.left[k], t.right[k], t.elems + k;
      d := d1[n := d1[node] + 1][m := d1[node] + 1];
      forall j | k <= j < |t.left| ensures DepthAt(t, d, j) {
        if j > k {
          SonsDistinct(t, j, k);
          assert DepthAt(t, d1, j);
        }
      }
      forall x | x in Roots(t, k)
        ensures x < |d| && d[x] + Height(t, x) <= Height(t, t.elems + |t.left| - 1)
      {
        assert x == n || x == m || x in Roots(t, k + 1);
      }
    }
  }

  lemma OneRoot(t: Merges)
    requires Complete(t)
    ensures Proper(t) && Roots(t, |t.left|) == {t.elems + |t.left| - 1}
  {
  }

  lemma LowFits(t: Merges, max: nat)
    requires Complete(t) && Height(t, t.elems + |t.left| - 1) <= max
    ensures Fits(t, max)
  {
    hide Height, Proper;
    CompleteSize(t);
    var d := MakeDepths(t, 0);
    assert Roots(t, 0) == t.leaves;
    assert DepthsOf(t, d);
  }

  /** A tree whose total weight is below the Fibonacci number of max + 3 has no leaf deeper than max. */
  lemma LightFits(t: Merges, w: seq<nat>, max: nat)
    requires Complete(t) && Summed(t, w) && Greedy(t, w) && Positive(t.leaves, w)
    requires w[t.elems + |t.left| - 1] < Fib(max + 3)
    ensures Fits(t, max)
  {
    hide Proper, Roots, Height, Greedy, Fib, Summed, Fits;
    CompleteSize(t);
    var root := t.elems + |t.left| - 1;
    Tall(t, w, root);
    if Height(t, root) > max {
      FibMono(max + 3, Height(t, root) + 2);
    }
    LowFits(t, max);
  }

  /** The sum of the frequencies. */
  function Total(f: seq<nat>): nat
  {
    if f == [] then 0 else Total(f[..|f| - 1]) + f[|f| - 1]
  }

  lemma {:induction false} TotalIsCost(f: seq<nat>, ones: seq<nat>, n: nat)
    requires |ones| == |f| && (forall i :: 0 <= i < |ones| ==> ones[i] == 1)
    ensures Cost(LeavesTo(f, n), f, ones) == Total(f[..if n < |f| then n else |f|])
  {
    CostPrefix(f, ones, n, |f|);
    assert f[..|f|] == f && ones[..|f|] == ones;
  }

  lemma {:induction false} CostPrefix(f: seq<nat>, ones: seq<nat>, n: nat, m: nat)
    requires |ones| == |f| && m <= |f| && (forall i :: 0 <= i < |ones| ==> ones[i] == 1)
    ensures Cost(LeavesTo(f, n), f[..m], ones[..m]) == Total(f[..if n < m then n else m])
  {
    if m > 0 {
      CostPrefix(f, ones, n, m - 1);
      assert f[..m][..m - 1] == f[..m - 1] && ones[..m][..m - 1] == ones[..m - 1];
    }
  }

  /** The frequencies that were forced come on top. */
  lemma {:induction false} ForcedTotal(f0: seq<nat>, f: seq<nat>, forced: set<nat>, n: nat)
    requires Forced(f0, f, forced) && n <= |f|
    ensures Total(f[..n]) == Total(f0[..n]) + |set x | x in forced && x < n|
  {
    if n > 0 {
      ForcedTotal(f0, f, forced, n - 1);
      assert f[..n][..n - 1] == f[..n - 1] && f0[..n][..n - 1] == f0[..n - 1];
      var a, b := set x | x in forced && x < n - 1, set x | x in forced && x < n;
      if n - 1 in forced {
        assert b == a + {n - 1};
      } else {
        assert b == a;
      }
    } else {
      assert (set x | x in forced && x < 0) == {};
    }
  }

  lemma ForcedSum(f0: seq<nat>, f: seq<nat>, forced: set<nat>)
    requires Forced(f0, f, forced)
    ensures Total(f) == Total(f0) + |forced|
  {
    ForcedTotal(f0, f, forced, |f|);
    assert f[..|f|] == f && f0[..|f|] == f0;
    assert (set x | x in forced && x < |f|) == forced;
  }

  /** The root weighs as much as all leaves, and no node weighs more. */
  lemma RootTotal(t: Merges, w: seq<nat>, n: nat)
    requires Complete(t) && Summed(t, w) && t.leaves == LeavesTo(w, n) && n <= |w|
    ensures w[t.elems + |t.left| - 1] == Total(w[..n])
    ensures forall x :: t.elems <= x < t.elems + |t.left| ==> w[x] <= Total(w[..n])
  {
    hide Proper, Roots, Cost, Total;
    CompleteSize(t);
    var ones := seq(|w|, _ => 1);
    var root := t.elems + |t.left| - 1;
    TotalIsCost(w, ones, n);
    WeightKept(t, w, ones, |t.left|);
    OneRoot(t);
    CostChange({}, w, ones, {root}, ones, root);
    CostNone(w, ones);
    forall x | t.elems <= x < t.elems + |t.left| ensures w[x] <= Total(w[..n]) {
      FreqFits(t, w, ones, x - t.elems);
    }
  }

  lemma PositiveLeaves(f: seq<nat>, n: nat)
    ensures Positive(LeavesTo(f, n), f)
  {
  }

  /** The leaves are the symbols that occur or were forced, and the condition is one on the frequencies
      before the call. */
  lemma TotalFits(t: Merges, f0: seq<nat>, f: seq<nat>, forced: set<nat>, elems: nat, max: nat)
    requires Complete(t) && Summed(t, f) && Greedy(t, f) && elems <= |f| == |f0|
    requires Forced(f0[..elems], f[..elems], forced)
    requires t.leaves == LeavesTo(f0, elems) + forced && (|forced| > 0 ==> |t.left| == 1) && max >= 1
    ensures Total(f0[..elems]) < Fib(max + 3) ==> Fits(t, max)
    ensures forall x :: t.elems <= x < t.elems + |t.left| ==> f[x] <= Total(f0[..elems]) + |forced|
  {
    hide Proper, Roots, Height, Greedy, Fib, Summed, Fits, Total, Forced, Complete;
    ForcedLeaves(t.leaves, f0, f, forced, elems);
    ForcedSum(f0[..elems], f[..elems], forced);
    RootTotal(t, f, elems);
    PositiveLeaves(f, elems);
    if Total(f0[..elems]) < Fib(max + 3) {
      if |forced| == 0 {
        LightFits(t, f, max);
      } else {
        TwoLow(t);
        LowFits(t, max);
      }
    }
  }

  lemma ForcedLeaves(leaves: set<nat>, f0: seq<nat>, f: seq<nat>, forced: set<nat>, elems: nat)
    requires elems <= |f| == |f0| && Forced(f0[..elems], f[..elems], forced) && leaves == LeavesTo(f0, elems) + forced
    ensures leaves == LeavesTo(f, elems)
  {
    forall x: nat | x < elems ensures x in leaves <==> f[x] != 0 {
      assert f[..elems][x] == f[x] && f0[..elems][x] == f0[x];
    }
  }

  /** A tree of two leaves has height one. */
  lemma TwoLow(t: Merges)
    requires Complete(t) && |t.left| == 1
    ensures Proper(t) && Height(t, t.elems + |t.left| - 1) == 1
  {
    CompleteSize(t);
    Sons(t, 0);
  }
}
