/** The tree that repeated merging builds, as the list of its merges, and the
    code lengths that walking it from the root assigns, clipped at a maximum.
    Merge number k joins nodes left[k] and right[k] under the new node elems + k. */
module HuffmanTrees {
  import opened Powers
  import opened PrefixCodes

  datatype Merges = Merges(elems: nat, leaves: set<nat>, left: seq<nat>, right: seq<nat>)

  /** The roots of the forest after the first k merges. */
  ghost function Roots(t: Merges, k: nat): set<nat>
    requires k <= |t.left| && k <= |t.right|
  {
    if k == 0 then t.leaves
    else Merged(Roots(t, k - 1), t.left[k - 1], t.right[k - 1], t.elems + k - 1)
  }

  ghost predicate Proper(t: Merges)
  {
    && |t.left| == |t.right|
    && InRange(t.leaves, t.elems)
    && forall k :: 0 <= k < |t.left| ==> MergeAt(t, k)
  }

  /** Merge k joins two different roots. */
  ghost predicate MergeAt(t: Merges, k: nat)
    requires k < |t.left| && k < |t.right|
  {
    t.left[k] != t.right[k] && t.left[k] in Roots(t, k) && t.right[k] in Roots(t, k)
  }

  lemma ProperSizes(t: Merges)
    requires Proper(t)
    ensures |t.left| == |t.right| && InRange(t.leaves, t.elems)
  {
  }

  lemma {:induction false} RootsRange(t: Merges, k: nat)
    requires Proper(t) && k <= |t.left|
    ensures InRange(Roots(t, k), t.elems + k)
    ensures forall x :: x in Roots(t, k) && x < t.elems ==> x in t.leaves
  {
    if k > 0 {
      RootsRange(t, k - 1);
    }
  }

  /** Undoing merge k. */
  lemma RootsBack(t: Merges, k: nat)
    requires Proper(t) && k < |t.left|
    ensures Roots(t, k) == Roots(t, k + 1) - {t.elems + k} + {t.left[k], t.right[k]}
    ensures t.elems + k in Roots(t, k + 1) && t.elems + k !in Roots(t, k)
    ensures t.left[k] !in Roots(t, k + 1) && t.right[k] !in Roots(t, k + 1)
    ensures SonsRange(t, k) && t.left[k] != t.right[k]
  {
    assert MergeAt(t, k);
    RootsRange(t, k);
  }

  /** A node that has been merged never becomes a root again. */
  lemma {:induction false} Gone(t: Merges, j: nat, k: nat)
    requires Proper(t) && j < k <= |t.left|
    ensures t.left[j] !in Roots(t, k) && t.right[j] !in Roots(t, k)
    ensures t.left[j] < t.elems + j && t.right[j] < t.elems + j
  {
    hide Proper;
    RootsBack(t, j);
    if j < k - 1 {
      Gone(t, j, k - 1);
      RootsBack(t, k - 1);
    }
  }

  /** No node is merged twice. */
  lemma SonsDistinct(t: Merges, j: nat, k: nat)
    requires Proper(t) && j < |t.left| && k < |t.left| && j != k
    ensures t.left[j] != t.left[k] && t.left[j] != t.right[k]
    ensures t.right[j] != t.left[k] && t.right[j] != t.right[k]
  {
    assert MergeAt(t, j) && MergeAt(t, k);
    if j < k {
      Gone(t, j, k);
    } else {
      Gone(t, k, j);
    }
  }

  /** A leaf that is no longer a root has been merged. */
  lemma {:induction false} Consumed(t: Merges, x: nat, k: nat) returns (j: nat)
    requires Proper(t) && k <= |t.left| && x in t.leaves && x !in Roots(t, k)
    ensures j < k && (x == t.left[j] || x == t.right[j])
  {
    hide Proper;
    RootsBack(t, k - 1);
    if x in Roots(t, k - 1) {
      j := k - 1;
    } else {
      j := Consumed(t, x, k - 1);
    }
  }

  /** One tree is left. */
  ghost predicate Complete(t: Merges)
  {
    && Proper(t) && |t.left| >= 1
    && Roots(t, |t.left|) == {t.elems + |t.left| - 1}
  }

  lemma CompleteSize(t: Merges)
    requires Complete(t)
    ensures Proper(t) && |t.left| == |t.right| && |t.left| >= 1
  {
  }

  ghost predicate Summed(t: Merges, w: seq<nat>)
  {
    && Proper(t) && t.elems + |t.left| <= |w|
    && forall k :: 0 <= k < |t.left| ==> SonsRange(t, k) && w[t.elems + k] == w[t.left[k]] + w[t.right[k]]
  }

  ghost predicate SonsRange(t: Merges, k: nat)
  {
    && k < |t.left| && k < |t.right|
    && t.left[k] < t.elems + k && t.right[k] < t.elems + k
  }

  function Clip(len: nat, max: nat): nat
  {
    if len + 1 > max then max else len + 1
  }

  /** `lens` are the depths in the tree, clipped at `max`. */
  ghost predicate Clipped(t: Merges, lens: seq<nat>, max: nat)
  {
    && Complete(t) && t.elems + |t.left| <= |lens| && max >= 1
    && lens[t.elems + |t.left| - 1] == 0
    && forall k :: 0 <= k < |t.left| ==>
        && SonsRange(t, k)
        && lens[t.left[k]] == Clip(lens[t.elems + k], max)
        && lens[t.right[k]] == Clip(lens[t.elems + k], max)
  }

  /** Pairs of sons, from merge k on, whose length had to be clipped. */
  ghost function Over(t: Merges, lens: seq<nat>, max: nat, k: nat): nat
    requires k <= |t.left| && t.elems + |t.left| <= |lens|
    decreases |t.left| - k
  {
    if k == |t.left| then 0
    else Over(t, lens, max, k + 1) + if lens[t.elems + k] + 1 > max then 1 else 0
  }

  lemma {:induction false} ClippedRoots(t: Merges, lens: seq<nat>, max: nat, k: nat)
    requires Clipped(t, lens, max) && k <= |t.left|
    ensures forall i :: i in Roots(t, k) ==> 0 <= i < |lens| && lens[i] <= max
    decreases |t.left| - k
  {
    hide Proper;
    RootsRange(t, k);
    if k < |t.left| {
      ClippedRoots(t, lens, max, k + 1);
      RootsBack(t, k);
    }
  }

  /** Splitting a node into two sons with equal lengths changes the sums of any set of nodes. */
  lemma SplitKraft(nodes: set<nat>, lens: seq<nat>, L: nat, node: nat, n: nat, m: nat)
    requires node < |lens| && n < |lens| && m < |lens| && n != m
    requires node in nodes && n !in nodes && m !in nodes
    requires lens[node] <= L && lens[n] == lens[m] == Clip(lens[node], L)
    ensures Kraft(nodes - {node} + {n, m}, lens, L)
         == Kraft(nodes, lens, L) + if lens[node] + 1 > L then 1 else 0
  {
    var s1 := nodes - {node};
    KraftChange(nodes, lens, s1, lens, L, node);
    KraftChange(s1, lens, s1 + {n}, lens, L, n);
    KraftChange(s1 + {n}, lens, s1 + {n} + {m}, lens, L, m);
    assert s1 + {n} + {m} == nodes - {node} + {n, m};
    assert lens[node] < L ==> Pow2(L - lens[node]) == 2 * Pow2(L - lens[node] - 1);
  }

  lemma SplitCount(nodes: set<nat>, lens: seq<nat>, b: nat, node: nat, n: nat, m: nat)
    requires node < |lens| && n < |lens| && m < |lens| && n != m
    requires node in nodes && n !in nodes && m !in nodes
    ensures CountLen(nodes - {node} + {n, m}, lens, b)
         == CountLen(nodes, lens, b) - (if lens[node] == b then 1 else 0)
          + (if lens[n] == b then 1 else 0) + (if lens[m] == b then 1 else 0)
  {
    var s1 := nodes - {node};
    CountChange(nodes, lens, s1, lens, b, node);
    CountChange(s1, lens, s1 + {n}, lens, b, n);
    CountChange(s1 + {n}, lens, s1 + {n} + {m}, lens, b, m);
    assert s1 + {n} + {m} == nodes - {node} + {n, m};
  }

  lemma SingletonSums(lens: seq<nat>, x: nat, L: nat)
    requires x < |lens| && lens[x] == 0
    ensures Kraft({x}, lens, L) == Pow2(L)
    ensures L >= 1 ==> CountLen({x}, lens, L) == 0
  {
    KraftChange({}, lens, {x}, lens, L, x);
    KraftEmpty(lens, L);
    if L >= 1 {
      CountNone({x}, lens, L);
    }
  }

  /** Each clipped pair of sons adds one unit to an otherwise exact Kraft sum. */
  lemma {:induction false} ClippedKraft(t: Merges, lens: seq<nat>, max: nat, k: nat)
    requires Clipped(t, lens, max) && k <= |t.left|
    ensures Kraft(Roots(t, k), lens, max) == Pow2(max) + Over(t, lens, max, k)
    decreases |t.left| - k
  {
    hide Proper;
    if k == |t.left| {
      SingletonSums(lens, t.elems + k - 1, max);
    } else {
      ClippedKraft(t, lens, max, k + 1);
      ClippedRoots(t, lens, max, k + 1);
      RootsBack(t, k);
      SplitKraft(Roots(t, k + 1), lens, max, t.elems + k, t.left[k], t.right[k]);
    }
  }

  /** There are more leaves at the maximum than clipped pairs of sons. */
  lemma {:induction false} ClippedDeepest(t: Merges, lens: seq<nat>, max: nat, k: nat)
    requires Clipped(t, lens, max) && k <= |t.left|
    ensures Over(t, lens, max, k) > 0 ==> CountLen(Roots(t, k), lens, max) > Over(t, lens, max, k)
    decreases |t.left| - k
  {
    hide Proper;
    if k == |t.left| {
    } else {
      var node := t.elems + k;
      ClippedDeepest(t, lens, max, k + 1);
      ClippedRoots(t, lens, max, k + 1);
      RootsBack(t, k);
      SplitCount(Roots(t, k + 1), lens, max, node, t.left[k], t.right[k]);
      if lens[node] == max {
        CountChange(Roots(t, k + 1), lens, Roots(t, k + 1) - {node}, lens, max, node);
      }
    }
  }

  /** The weight of the nodes made by the first k merges. */
  ghost function WeightTo(elems: nat, w: seq<nat>, k: nat): nat
    requires elems + k <= |w|
  {
    if k == 0 then 0 else WeightTo(elems, w, k - 1) + w[elems + k - 1]
  }

  lemma SplitCost(nodes: set<nat>, w: seq<nat>, lens: seq<nat>, node: nat, n: nat, m: nat)
    requires |w| == |lens| && node < |lens| && n < |lens| && m < |lens| && n != m
    requires node in nodes && n !in nodes && m !in nodes
    requires lens[n] == lens[m] == lens[node] + 1 && w[node] == w[n] + w[m]
    ensures Cost(nodes - {node} + {n, m}, w, lens) == Cost(nodes, w, lens) + w[node]
  {
    var s1 := nodes - {node};
    CostChange(nodes, w, lens, s1, lens, node);
    CostChange(s1, w, lens, s1 + {n}, lens, n);
    CostChange(s1 + {n}, w, lens, s1 + {n} + {m}, lens, m);
    assert s1 + {n} + {m} == nodes - {node} + {n, m};
    MergeProducts(w[n], w[m], lens[n]);
  }

  lemma {:induction false} CostNone(w: seq<nat>, lens: seq<nat>)
    requires |w| == |lens|
    ensures Cost({}, w, lens) == 0
  {
    if lens != [] {
      CostNone(w[..|w| - 1], lens[..|lens| - 1]);
    }
  }

  /** Without clipping, the cost of the leaves is the total weight of the inner nodes. */
  lemma {:induction false} TreeCost(t: Merges, w: seq<nat>, lens: seq<nat>, max: nat, k: nat)
    requires Clipped(t, lens, max) && Summed(t, w) && |w| == |lens| && k <= |t.left|
    requires Over(t, lens, max, k) == 0
    ensures Cost(Roots(t, k), w, lens) + WeightTo(t.elems, w, k) == WeightTo(t.elems, w, |t.left|)
    decreases |t.left| - k
  {
    hide Proper;
    if k == |t.left| {
      CostChange({}, w, lens, {t.elems + k - 1}, lens, t.elems + k - 1);
      CostNone(w, lens);
    } else {
      TreeCost(t, w, lens, max, k + 1);
      RootsBack(t, k);
      SplitCost(Roots(t, k + 1), w, lens, t.elems + k, t.left[k], t.right[k]);
    }
  }

  /** Every merge joined the two lightest roots of its time. */
  ghost predicate Greedy(t: Merges, w: seq<nat>)
  {
    && |t.left| == |t.right|
    && forall k :: 0 <= k < |t.left| ==> GreedyAt(t, w, k)
  }

  ghost predicate GreedyAt(t: Merges, w: seq<nat>, k: nat)
    requires k < |t.left| && k < |t.right|
  {
    TwoLightest(Roots(t, k), w, t.left[k], t.right[k])
  }

  /** Greedy merging keeps the lower bound on every feasible cost. */
  lemma {:induction false} GreedyReduces(t: Merges, w: seq<nat>, k: nat)
    requires Summed(t, w) && Greedy(t, w) && k <= |t.left|
    ensures Reduces(t.leaves, w, Roots(t, k), w, WeightTo(t.elems, w, k))
  {
    hide Proper, Reduces, TwoLightest, Merged;
    if k == 0 {
      ReducesRefl(t.leaves, w);
    } else {
      GreedyReduces(t, w, k - 1);
      var n, m, node := t.left[k - 1], t.right[k - 1], t.elems + k - 1;
      assert GreedyAt(t, w, k - 1);
      RootsBack(t, k - 1);
      assert w == w[node := w[n] + w[m]];
      ReducesMerge(t.leaves, w, Roots(t, k - 1), w, WeightTo(t.elems, w, k - 1), n, m, node, w);
    }
  }

  /** Huffman's theorem: unclipped depths in a tree made by merging the two lightest
      nodes cost no more than any feasible assignment of code lengths. */
  lemma HuffmanOptimal(t: Merges, w: seq<nat>, lens: seq<nat>, max: nat, alt: seq<nat>, L: nat)
    requires Clipped(t, lens, max) && Summed(t, w) && Greedy(t, w) && |w| == |lens| == |alt|
    requires Over(t, lens, max, 0) == 0
    requires Feasible(t.leaves, alt, L)
    ensures Cost(t.leaves, w, lens) <= Cost(t.leaves, w, alt)
  {
    TreeCost(t, w, lens, max, 0);
    GreedyReduces(t, w, |t.left|);
    assert BoundedBy(Cost(t.leaves, w, alt), Roots(t, |t.left|), w, WeightTo(t.elems, w, |t.left|));
  }

  /** The merges with one more, of n and m. */
  function Extend(t: Merges, n: nat, m: nat): Merges
  {
    t.(left := t.left + [n], right := t.right + [m])
  }

  lemma {:induction false} RootsExtend(t: Merges, n: nat, m: nat, k: nat)
    requires k <= |t.left| == |t.right|
    ensures Roots(Extend(t, n, m), k) == Roots(t, k)
  {
    if k > 0 {
      RootsExtend(t, n, m, k - 1);
    }
  }

  lemma ExtendRoots(t: Merges, n: nat, m: nat)
    requires |t.left| == |t.right|
    ensures Roots(Extend(t, n, m), |t.left| + 1) == Merged(Roots(t, |t.left|), n, m, t.elems + |t.left|)
  {
    hide Merged;
    RootsExtend(t, n, m, |t.left|);
    var t' := Extend(t, n, m);
    assert t'.left[|t.left|] == n && t'.right[|t.left|] == m;
  }

  lemma ExtendProper(t: Merges, n: nat, m: nat)
    requires Proper(t) && n != m && n in Roots(t, |t.left|) && m in Roots(t, |t.left|)
    ensures Proper(Extend(t, n, m))
    ensures Roots(Extend(t, n, m), |t.left| + 1) == Merged(Roots(t, |t.left|), n, m, t.elems + |t.left|)
  {
    hide Roots;
    ExtendRoots(t, n, m);
    var t' := Extend(t, n, m);
    forall k | 0 <= k < |t'.left|
      ensures MergeAt(t', k)
    {
      RootsExtend(t, n, m, k);
      if k < |t.left| {
        assert MergeAt(t, k);
      }
    }
  }

  lemma {:induction false} WeightFrame(elems: nat, w: seq<nat>, w': seq<nat>, k: nat)
    requires elems + k <= |w| && elems + k <= |w'|
    requires forall i :: elems <= i < elems + k ==> w[i] == w'[i]
    ensures WeightTo(elems, w, k) == WeightTo(elems, w', k)
  {
    if k > 0 {
      WeightFrame(elems, w, w', k - 1);
    }
  }

  lemma ExtendSummed(t: Merges, w: seq<nat>, n: nat, m: nat)
    requires Summed(t, w) && t.elems + |t.left| < |w|
    requires n != m && n in Roots(t, |t.left|) && m in Roots(t, |t.left|)
    ensures n < t.elems + |t.left| && m < t.elems + |t.left|
    ensures Summed(Extend(t, n, m), w[t.elems + |t.left| := w[n] + w[m]])
    ensures WeightTo(t.elems, w[t.elems + |t.left| := w[n] + w[m]], |t.left| + 1)
         == WeightTo(t.elems, w, |t.left|) + w[n] + w[m]
  {
    hide Proper, Roots;
    ProperSizes(t);
    var node, t' := t.elems + |t.left|, Extend(t, n, m);
    RootsRange(t, |t.left|);
    ExtendProper(t, n, m);
    var w' := w[node := w[n] + w[m]];
    WeightFrame(t.elems, w, w', |t.left|);
    forall k | 0 <= k < |t'.left|
      ensures SonsRange(t', k) && w'[t'.elems + k] == w'[t'.left[k]] + w'[t'.right[k]]
    {
      if k < |t.left| {
        assert SonsRange(t, k) && w[t.elems + k] == w[t.left[k]] + w[t.right[k]];
        assert t'.left[k] == t.left[k] && t'.right[k] == t.right[k];
      }
    }
  }

  /** `dl` names every merged node's father. */
  ghost predicate Dads(t: Merges, dl: seq<nat>)
  {
    && |t.left| == |t.right|
    && forall k :: 0 <= k < |t.left| ==> DadOf(t, dl, k, t.left[k]) && DadOf(t, dl, k, t.right[k])
  }

  ghost predicate DadOf(t: Merges, dl: seq<nat>, k: nat, n: nat)
  {
    n < |dl| && dl[n] == t.elems + k
  }

  lemma ExtendDads(t: Merges, dl: seq<nat>, n: nat, m: nat)
    requires Proper(t) && Dads(t, dl) && n < |dl| && m < |dl|
    requires n in Roots(t, |t.left|) && m in Roots(t, |t.left|)
    ensures Dads(Extend(t, n, m), dl[n := t.elems + |t.left|][m := t.elems + |t.left|])
  {
    hide Roots, Proper;
    var t', dl' := Extend(t, n, m), dl[n := t.elems + |t.left|][m := t.elems + |t.left|];
    forall k | 0 <= k < |t'.left|
      ensures DadOf(t', dl', k, t'.left[k]) && DadOf(t', dl', k, t'.right[k])
    {
      if k < |t.left| {
        Gone(t, k, |t.left|);
        assert DadOf(t, dl, k, t.left[k]) && DadOf(t, dl, k, t.right[k]);
      }
    }
  }

  /** The merged nodes fill the array from its end, each pair before its father. */
  ghost predicate Layout(t: Merges, h: seq<nat>)
  {
    && |t.left| == |t.right| && 2 * |t.left| <= |h|
    && forall k :: 0 <= k < |t.left| ==> h[|h| - 1 - 2 * k] == t.left[k] && h[|h| - 2 - 2 * k] == t.right[k]
  }

  lemma ExtendLayout(t: Merges, h: seq<nat>, h': seq<nat>, n: nat, m: nat)
    requires Layout(t, h) && |h'| == |h| && 2 * |t.left| + 2 <= |h|
    requires forall i :: |h| - 2 * |t.left| <= i < |h| ==> h'[i] == h[i]
    requires h'[|h| - 1 - 2 * |t.left|] == n && h'[|h| - 2 - 2 * |t.left|] == m
    ensures Layout(Extend(t, n, m), h')
  {
  }

  /** The merged nodes in the order in which they left the heap. */
  function NodeAt(t: Merges, q: nat): nat
    requires q < 2 * |t.left| && |t.left| == |t.right|
  {
    if q % 2 == 0 then t.left[q / 2] else t.right[q / 2]
  }

  lemma ExtendGreedy(t: Merges, w: seq<nat>, n: nat, m: nat, v: nat)
    requires Proper(t) && Greedy(t, w) && TwoLightest(Roots(t, |t.left|), w, n, m) && t.elems + |t.left| < |w|
    ensures Greedy(Extend(t, n, m), w[t.elems + |t.left| := v])
  {
    hide Proper, Roots;
    var t', w' := Extend(t, n, m), w[t.elems + |t.left| := v];
    forall k | 0 <= k < |t'.left|
      ensures GreedyAt(t', w', k)
    {
      RootsExtend(t, n, m, k);
      RootsRange(t, k);
      if k < |t.left| {
        assert GreedyAt(t, w, k);
      }
    }
  }

  /** The first k merges. */
  function Prefix(t: Merges, k: nat): Merges
    requires k <= |t.left| && k <= |t.right|
  {
    t.(left := t.left[..k], right := t.right[..k])
  }

  lemma {:induction false} RootsPrefix(t: Merges, k: nat, j: nat)
    requires j <= k <= |t.left| == |t.right|
    ensures Roots(Prefix(t, k), j) == Roots(t, j)
  {
    if j > 0 {
      RootsPrefix(t, k, j - 1);
    }
  }

  /** Greedy merging takes the nodes off the heap in order of weight. */
  lemma {:induction false} GreedyByWeight(t: Merges, w: seq<nat>, k: nat)
    requires Summed(t, w) && Greedy(t, w) && k <= |t.left|
    ensures ByWeight(Prefix(t, k), w)
  {
    hide Proper, Roots, ByWeight, TwoLightest;
    SummedParts(t, w);
    ProperSizes(t);
    if k == 0 {
      ByWeightNone(Prefix(t, 0), w);
    } else {
      GreedyByWeight(t, w, k - 1);
      RootsPrefix(t, k - 1, k - 1);
      var n, m := t.left[k - 1], t.right[k - 1];
      assert GreedyAt(t, w, k - 1);
      assert w == w[t.elems + k - 1 := w[n] + w[m]];
      assert Extend(Prefix(t, k - 1), n, m) == Prefix(t, k);
      ExtendByWeight(Prefix(t, k - 1), w, n, m, w);
    }
  }

  lemma SummedParts(t: Merges, w: seq<nat>)
    requires Summed(t, w)
    ensures Proper(t) && t.elems + |t.left| <= |w|
  {
  }

  lemma ByWeightNone(t: Merges, w: seq<nat>)
    requires t.left == [] && t.right == [] && InRange(t.leaves, t.elems) && t.elems <= |w|
    ensures ByWeight(t, w)
  {
  }

  /** Nodes leave the heap in order of weight, and no root is lighter than a merged node. */
  ghost predicate ByWeight(t: Merges, w: seq<nat>)
  {
    && Proper(t) && t.elems + |t.left| <= |w|
    && (forall q :: 0 <= q < 2 * |t.left| ==> NodeAt(t, q) < t.elems + |t.left|)
    && (forall q, r :: 0 <= q < r < 2 * |t.left| ==> w[NodeAt(t, q)] <= w[NodeAt(t, r)])
    && (forall q, x :: 0 <= q < 2 * |t.left| && x in Roots(t, |t.left|) && x < |w| ==> w[NodeAt(t, q)] <= w[x])
  }

  lemma NodeAtExtend(t: Merges, n: nat, m: nat, q: nat)
    requires |t.left| == |t.right| && q < 2 * |t.left| + 2
    ensures |Extend(t, n, m).left| == |t.left| + 1 == |Extend(t, n, m).right|
    ensures NodeAt(Extend(t, n, m), q)
         == if q < 2 * |t.left| then NodeAt(t, q) else if q == 2 * |t.left| then n else m
  {
  }

  lemma ExtendByWeight(t: Merges, w: seq<nat>, n: nat, m: nat, w': seq<nat>)
    requires ByWeight(t, w) && TwoLightest(Roots(t, |t.left|), w, n, m) && t.elems + |t.left| < |w|
    requires w' == w[t.elems + |t.left| := w[n] + w[m]]
    ensures ByWeight(Extend(t, n, m), w')
  {
    hide Proper, Roots;
    ProperSizes(t);
    var t', T := Extend(t, n, m), |t.left|;
    RootsRange(t, T);
    ExtendProper(t, n, m);
    ProperSizes(t');
    forall q | 0 <= q < 2 * T + 2
      ensures NodeAt(t', q) < t.elems + T
      ensures q < 2 * T ==> NodeAt(t', q) == NodeAt(t, q)
      ensures q == 2 * T ==> NodeAt(t', q) == n
      ensures q == 2 * T + 1 ==> NodeAt(t', q) == m
    {
      NodeAtExtend(t, n, m, q);
    }
    forall q, x | 0 <= q < 2 * T + 2 && x in Roots(t', T + 1) && x < |w'|
      ensures w'[NodeAt(t', q)] <= w'[x]
    {
      if q < 2 * T {
        assert w[NodeAt(t, q)] <= w[n];
      }
    }
    forall q, r | 0 <= q < r < 2 * T + 2
      ensures w'[NodeAt(t', q)] <= w'[NodeAt(t', r)]
    {
      assert q < 2 * T ==> w[NodeAt(t, q)] <= w[n] && w[NodeAt(t, q)] <= w[m];
    }
  }

  /** `d` gives every node its depth in the tree. */
  ghost predicate DepthsOf(t: Merges, d: seq<nat>)
  {
    && Complete(t) && t.elems + |t.left| <= |d|
    && d[t.elems + |t.left| - 1] == 0
    && forall k :: 0 <= k < |t.left| ==> DepthAt(t, d, k)
  }

  ghost predicate DepthAt(t: Merges, d: seq<nat>, k: nat)
    requires k < |t.left| && t.elems + |t.left| <= |d|
  {
    SonsRange(t, k) && d[t.left[k]] == d[t.elems + k] + 1 && d[t.right[k]] == d[t.elems + k] + 1
  }

  /** The tree is no deeper than `max`. */
  ghost predicate Fits(t: Merges, max: nat)
  {
    exists d :: DepthsOf(t, d) && forall x :: x in t.leaves && x < |d| ==> d[x] <= max
  }

  lemma {:induction false} FitsRoots(t: Merges, d: seq<nat>, max: nat, k: nat)
    requires DepthsOf(t, d) && k <= |t.left| && forall x :: x in t.leaves && x < |d| ==> d[x] <= max
    ensures forall x :: x in Roots(t, k) ==> x < |d| && d[x] <= max
  {
    hide Proper;
    RootsRange(t, k);
    if k > 0 {
      FitsRoots(t, d, max, k - 1);
      RootsBack(t, k - 1);
      assert DepthAt(t, d, k - 1);
    }
  }

  /** In a tree that fits, nothing is clipped. */
  lemma {:induction false} FitsClipped(t: Merges, d: seq<nat>, lens: seq<nat>, max: nat, k: nat)
    requires DepthsOf(t, d) && Clipped(t, lens, max) && k <= |t.left|
    requires forall x :: x in t.leaves && x < |d| ==> d[x] <= max
    ensures forall x :: x in Roots(t, k) ==> x < |d| && x < |lens| && lens[x] == d[x]
    ensures Over(t, lens, max, k) == 0
    decreases |t.left| - k
  {
    hide Proper;
    RootsRange(t, k);
    if k < |t.left| {
      FitsClipped(t, d, lens, max, k + 1);
      RootsBack(t, k);
      FitsRoots(t, d, max, k);
      assert DepthAt(t, d, k);
    }
  }

  lemma FitsOver(t: Merges, lens: seq<nat>, max: nat)
    requires Fits(t, max) && Clipped(t, lens, max)
    ensures Over(t, lens, max, 0) == 0
  {
    var d :| DepthsOf(t, d) && forall x :: x in t.leaves && x < |d| ==> d[x] <= max;
    FitsClipped(t, d, lens, max, 0);
  }

  /** A tree of two leaves gives both one bit. */
  lemma TwoLeaves(t: Merges, lens: seq<nat>, max: nat)
    requires Clipped(t, lens, max) && |t.left| == 1
    ensures Over(t, lens, max, 0) == 0
    ensures forall x :: x in t.leaves ==> x < |lens| && lens[x] == 1
  {
    hide Proper;
    RootsBack(t, 0);
    assert Over(t, lens, max, 1) == 0;
    assert SonsRange(t, 0);
  }

  /** Merging keeps the total weight of the roots; `ones` is a sequence of ones. */
  lemma {:induction false} WeightKept(t: Merges, w: seq<nat>, ones: seq<nat>, k: nat)
    requires Summed(t, w) && |ones| == |w| && k <= |t.left| && forall i :: 0 <= i < |ones| ==> ones[i] == 1
    ensures Cost(Roots(t, k), w, ones) == Cost(t.leaves, w, ones)
  {
    hide Proper, Cost;
    if k > 0 {
      WeightKept(t, w, ones, k - 1);
      SummedParts(t, w);
      RootsBack(t, k - 1);
      var r, n, m, node := Roots(t, k - 1), t.left[k - 1], t.right[k - 1], t.elems + k - 1;
      CostChange(r, w, ones, r - {n}, ones, n);
      CostChange(r - {n}, w, ones, r - {n, m}, ones, m);
      CostChange(r - {n, m}, w, ones, Merged(r, n, m, node), ones, node);
      assert w[node] == w[n] + w[m];
    }
  }

  /** No node of the tree is heavier than all leaves together, so that frequencies whose
      total fits 16 bits are never cut short by the 16-bit Freq fields. */
  lemma FreqFits(t: Merges, w: seq<nat>, ones: seq<nat>, k: nat)
    requires Summed(t, w) && |ones| == |w| && k < |t.left| && forall i :: 0 <= i < |ones| ==> ones[i] == 1
    ensures w[t.elems + k] <= Cost(t.leaves, w, ones)
  {
    hide Proper, Cost, Roots;
    SummedParts(t, w);
    WeightKept(t, w, ones, k + 1);
    RootsBack(t, k);
    var r, node := Roots(t, k + 1), t.elems + k;
    CostChange(r, w, ones, r - {node}, ones, node);
  }
}
