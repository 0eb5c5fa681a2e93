/** Why build_tree breaks ties by depth: of all optimal codes, the one it makes has the least greatest length. */
module Shallow {
  import opened Powers
  import opened PrefixCodes
  import opened HuffmanTrees
  import opened HeapOrder

  /** Every node, with the tree of height h below it, ends at M or above. */
  ghost predicate Within(nodes: set<nat>, lens: seq<nat>, h: seq<nat>, M: nat)
  {
    forall x :: x in nodes ==> x < |lens| && x < |h| && lens[x] + h[x] <= M
  }

  /** Lightest by weight, and by height among those of equal weight. */
  ghost predicate TwoSmallest(nodes: set<nat>, w: seq<nat>, h: seq<nat>, n: nat, m: nat)
  {
    && InRange(nodes, |w|) && |w| <= |h| && n in nodes && m in nodes && n != m
    && (forall i :: i in nodes ==> Smaller(Keys(w, h), n, i))
    && (forall i :: i in nodes && i != n ==> Smaller(Keys(w, h), m, i))
  }

  /** Exchanging lengths with a node that is strictly heavier saves something. */
  lemma SwapStrict(nodes: set<nat>, w: seq<nat>, lens: seq<nat>, light: nat, heavy: nat)
    requires |w| == |lens| && light in nodes && heavy in nodes && light != heavy && light < |w| && heavy < |w|
    requires w[light] < w[heavy] && lens[light] < lens[heavy]
    ensures Cost(nodes, w, lens[light := lens[heavy]][heavy := lens[light]]) < Cost(nodes, w, lens)
  {
    hide Cost;
    var a, b := lens[light], lens[heavy];
    CostUpdate(nodes, w, lens, light, b);
    CostUpdate(nodes, w, lens[light := b], heavy, a);
    ProductsStrict(w[light], w[heavy], a, b);
  }

  lemma ProductsStrict(x: nat, y: nat, a: nat, b: nat)
    requires x < y && a < b
    ensures x * b + y * a < x * a + y * b
  {
    assert (y - x) * (b - a) > 0;
    assert (y - x) * (b - a) == y * b - y * a - x * b + x * a;
  }

  /** Giving a smaller node the longer of two lengths costs no more, and if it costs as much it leads no deeper. */
  lemma SwapWithin(nodes: set<nat>, w: seq<nat>, h: seq<nat>, lens: seq<nat>, L: nat, light: nat, heavy: nat, M: nat)
      returns (lens': seq<nat>)
    requires |w| == |lens| <= |h| && Feasible(nodes, lens, L)
    requires light in nodes && heavy in nodes && light != heavy && light < |w| && heavy < |w|
    requires Smaller(Keys(w, h), light, heavy) && lens[light] <= lens[heavy]
    ensures lens' == lens[light := lens[heavy]][heavy := lens[light]]
    ensures Feasible(nodes, lens', L) && Cost(nodes, w, lens') <= Cost(nodes, w, lens)
    ensures Within(nodes, lens, h, M) && Cost(nodes, w, lens') == Cost(nodes, w, lens) ==> Within(nodes, lens', h, M)
  {
    hide Cost, Feasible, Kraft;
    lens' := SwapLengths(nodes, w, lens, L, light, heavy);
    if w[light] < w[heavy] && lens[light] < lens[heavy] {
      SwapStrict(nodes, w, lens, light, heavy);
    }
  }

  /** The two smallest nodes can be made siblings at the deepest level. */
  lemma SmallestDeepest(nodes: set<nat>, w: seq<nat>, h: seq<nat>, lens: seq<nat>, L: nat, n: nat, m: nat, M: nat)
      returns (lens': seq<nat>, L': nat)
    requires |w| == |lens| && Feasible(nodes, lens, L) && TwoSmallest(nodes, w, h, n, m)
    ensures |lens'| == |lens| && Feasible(nodes, lens', L') && L' >= 1 && lens'[n] == L' && lens'[m] == L'
    ensures Cost(nodes, w, lens') <= Cost(nodes, w, lens)
    ensures Within(nodes, lens, h, M) && Cost(nodes, w, lens') == Cost(nodes, w, lens) ==> Within(nodes, lens', h, M)
  {
    hide Cost, Kraft;
    var i, j;
    lens', L', i, j := Tighten(nodes, w, lens, L, n, m);
    var k := if i == n then j else i;
    if lens'[n] != L' {
      lens' := SwapWithin(nodes, w, h, lens', L', n, i, M);
      k := j;
    }
    if m != k {
      lens' := SwapWithin(nodes, w, h, lens', L', m, k, M);
    }
    KraftTwoNodes(nodes, lens', L', n, m);
  }

  /** Some feasible lengths of the nodes cost no more than cost - paid, and if they cost as much they end by M. */
  ghost predicate BoundedTall(cost: nat, M: nat, nodes: set<nat>, w: seq<nat>, h: seq<nat>, paid: nat)
  {
    exists lens: seq<nat>, L: nat ::
      && |lens| == |w| && Feasible(nodes, lens, L) && cost >= paid + Cost(nodes, w, lens)
      && (cost == paid + Cost(nodes, w, lens) ==> Within(nodes, lens, h, M))
  }

  lemma MakeBounded(cost: nat, M: nat, nodes: set<nat>, w: seq<nat>, h: seq<nat>, paid: nat, lens: seq<nat>, L: nat)
    requires |lens| == |w| && Feasible(nodes, lens, L) && cost >= paid + Cost(nodes, w, lens)
    requires cost == paid + Cost(nodes, w, lens) ==> Within(nodes, lens, h, M)
    ensures BoundedTall(cost, M, nodes, w, h, paid)
  {
  }

  /** One merge of the two smallest nodes. */
  lemma TallMerge(cost: nat, M: nat, nodes: set<nat>, w: seq<nat>, h: seq<nat>, paid: nat, n: nat, m: nat, node: nat)
    requires BoundedTall(cost, M, nodes, w, h, paid) && TwoSmallest(nodes, w, h, n, m)
    requires node < |w| && node !in nodes && w[node] == w[n] + w[m]
    requires h[node] == 1 + if h[n] >= h[m] then h[n] else h[m]
    ensures BoundedTall(cost, M, Merged(nodes, n, m, node), w, h, paid + w[n] + w[m])
  {
    hide Cost, Kraft, Feasible;
    var lens: seq<nat>, L: nat :|
      && |lens| == |w| && Feasible(nodes, lens, L) && cost >= paid + Cost(nodes, w, lens)
      && (cost == paid + Cost(nodes, w, lens) ==> Within(nodes, lens, h, M));
    var lens1, L1 := SmallestDeepest(nodes, w, h, lens, L, n, m, M);
    MergeKraft(nodes, lens1, L1, n, m, node);
    MergeCost(nodes, w, lens1, L1, n, m, node);
    MakeBounded(cost, M, Merged(nodes, n, m, node), w, h, paid + w[n] + w[m], lens1[node := L1 - 1], L1);
  }

  /** h gives every node the height of the tree below it. */
  ghost predicate Heights(t: Merges, h: seq<nat>)
  {
    && Proper(t) && t.elems + |t.left| <= |h| && (forall x :: x in t.leaves && x < |h| ==> h[x] == 0)
    && forall k :: 0 <= k < |t.left| ==> HeightAt(t, h, k)
  }

  ghost predicate HeightAt(t: Merges, h: seq<nat>, k: nat)
    requires k < |t.left| && t.elems + |t.left| <= |h|
  {
    SonsRange(t, k) && h[t.elems + k] == 1 + if h[t.left[k]] >= h[t.right[k]] then h[t.left[k]] else h[t.right[k]]
  }

  /** Every merge joined the two smallest roots of its time. */
  ghost predicate TiedAt(t: Merges, w: seq<nat>, h: seq<nat>, k: nat)
    requires k < |t.left| && k < |t.right|
  {
    TwoSmallest(Roots(t, k), w, h, t.left[k], t.right[k])
  }

  lemma {:induction false} TallReduces(t: Merges, w: seq<nat>, h: seq<nat>, alt: seq<nat>, L: nat, M: nat, k: nat)
    requires Summed(t, w) && Heights(t, h) && |alt| == |w| && Feasible(t.leaves, alt, L) && k <= |t.left| == |t.right|
    requires forall j :: 0 <= j < |t.left| ==> TiedAt(t, w, h, j)
    requires forall x :: x in t.leaves ==> x < |alt| && alt[x] <= M
    ensures BoundedTall(Cost(t.leaves, w, alt), M, Roots(t, k), w, h, WeightTo(t.elems, w, k))
  {
    hide Cost, Kraft, Feasible, Proper, Merged, BoundedTall, TwoSmallest;
    var cost := Cost(t.leaves, w, alt);
    if k == 0 {
      LeavesWithin(t, alt, h, M);
      MakeBounded(cost, M, t.leaves, w, h, 0, alt, L);
    } else {
      TallReduces(t, w, h, alt, L, M, k - 1);
      var n, m, node := t.left[k - 1], t.right[k - 1], t.elems + k - 1;
      assert TiedAt(t, w, h, k - 1);
      assert HeightAt(t, h, k - 1);
      RootsBack(t, k - 1);
      TallMerge(cost, M, Roots(t, k - 1), w, h, WeightTo(t.elems, w, k - 1), n, m, node);
    }
  }

  lemma LeavesWithin(t: Merges, alt: seq<nat>, h: seq<nat>, M: nat)
    requires Heights(t, h) && forall x :: x in t.leaves ==> x < |alt| && alt[x] <= M
    ensures Within(t.leaves, alt, h, M)
  {
    hide Roots;
  }

  /** No leaf is deeper than the tree is high. */
  lemma {:induction false} DepthHeight(t: Merges, h: seq<nat>, lens: seq<nat>, max: nat, k: nat)
    requires Clipped(t, lens, max) && Heights(t, h) && k <= |t.left|
    ensures forall x :: x in Roots(t, k) ==>
      x < |lens| && x < |h| && lens[x] + h[x] <= h[t.elems + |t.left| - 1]
    decreases |t.left| - k
  {
    hide Proper;
    CompleteSize(t);
    RootsRange(t, k);
    if k < |t.left| {
      DepthHeight(t, h, lens, max, k + 1);
      RootsBack(t, k);
      assert HeightAt(t, h, k);
      var node := t.elems + k;
      assert lens[t.left[k]] <= lens[node] + 1 && lens[t.right[k]] <= lens[node] + 1;
    }
  }

  /** Other lengths that cost no more and do not exceed M. */
  ghost predicate Rival(leaves: set<nat>, w: seq<nat>, lens: seq<nat>, alt: seq<nat>, L: nat, M: nat)
    requires |w| == |lens|
  {
    && |alt| == |w| && Feasible(leaves, alt, L) && AllBelow(leaves, alt, M)
    && Cost(leaves, w, alt) <= Cost(leaves, w, lens)
  }

  ghost predicate AllBelow(leaves: set<nat>, lens: seq<nat>, M: nat)
  {
    forall x :: x in leaves && x < |lens| ==> lens[x] <= M
  }

  /** Of all lengths that cost as little, none have a smaller greatest length. */
  ghost predicate ShallowLens(leaves: set<nat>, w: seq<nat>, lens: seq<nat>)
  {
    |w| == |lens| && forall alt, L, M: nat :: Rival(leaves, w, lens, alt, L, M) ==> AllBelow(leaves, lens, M)
  }

  lemma TreeShallow(t: Merges, w: seq<nat>, h: seq<nat>, lens: seq<nat>, max: nat)
    requires Clipped(t, lens, max) && Over(t, lens, max, 0) == 0 && Summed(t, w) && Heights(t, h) && |w| == |lens|
    requires |t.left| == |t.right| && forall j :: 0 <= j < |t.left| ==> TiedAt(t, w, h, j)
    ensures ShallowLens(t.leaves, w, lens)
  {
    hide Cost, Kraft, Feasible, Proper, TiedAt, Clipped, Summed, Heights;
    forall alt, L, M: nat | Rival(t.leaves, w, lens, alt, L, M) ensures AllBelow(t.leaves, lens, M) {
      forall x | x in t.leaves && x < |lens| ensures lens[x] <= M {
        NoDeeper(t, w, h, lens, max, alt, L, M, x);
      }
    }
  }

  lemma NoDeeper(t: Merges, w: seq<nat>, h: seq<nat>, lens: seq<nat>, max: nat, alt: seq<nat>, L: nat, M: nat, x: nat)
    requires Clipped(t, lens, max) && Over(t, lens, max, 0) == 0 && Summed(t, w) && Heights(t, h) && |w| == |lens|
    requires |t.left| == |t.right| && forall j :: 0 <= j < |t.left| ==> TiedAt(t, w, h, j)
    requires Rival(t.leaves, w, lens, alt, L, M) && x in t.leaves && x < |lens|
    ensures lens[x] <= M
  {
    hide Cost, Kraft, Proper, TiedAt, Clipped, Summed, Heights;
    TreeCost(t, w, lens, max, 0);
    var n := |t.left|;
    TallReduces(t, w, h, alt, L, M, n);
    RootIs(t, lens, max);
    DepthHeight(t, h, lens, max, 0);
    var root := t.elems + n - 1;
    var lens': seq<nat>, L': nat :|
      && |lens'| == |w| && Feasible({root}, lens', L')
      && Cost(t.leaves, w, alt) >= WeightTo(t.elems, w, n) + Cost({root}, w, lens')
      && (Cost(t.leaves, w, alt) == WeightTo(t.elems, w, n) + Cost({root}, w, lens') ==> Within({root}, lens', h, M));
    assert root in {root};
  }

  lemma RootIs(t: Merges, lens: seq<nat>, max: nat)
    requires Clipped(t, lens, max)
    ensures |t.left| >= 1 && Roots(t, |t.left|) == {t.elems + |t.left| - 1} && Roots(t, 0) == t.leaves
  {
    hide Proper;
  }

  /** What the merge loop keeps: ties were broken by the depth fields, which hold the heights modulo 256. */
  ghost predicate Tied(t: Merges, w: seq<nat>, dp: seq<nat>)
  {
    && Proper(t) && t.elems + |t.left| <= |dp| && (forall x :: x in t.leaves && x < |dp| ==> dp[x] == 0)
    && forall k :: 0 <= k < |t.left| ==> TiedAt(t, w, dp, k) && FieldAt(t, dp, k)
  }

  ghost predicate FieldAt(t: Merges, dp: seq<nat>, k: nat)
    requires k < |t.left| && t.elems + |t.left| <= |dp|
  {
    SonsRange(t, k) && dp[t.elems + k] == DepthField(dp[t.left[k]], dp[t.right[k]])
  }

  /** trees.c, lines 674-675: the depth of a father, in a byte. */
  function DepthField(a: nat, b: nat): nat
  {
    ((if a >= b then a else b) + 1) % 256
  }

  lemma TiedStart(t: Merges, w: seq<nat>, dp: seq<nat>)
    requires t.left == [] && t.right == [] && InRange(t.leaves, t.elems) && t.elems <= |dp|
    requires forall x :: x in t.leaves && x < |dp| ==> dp[x] == 0
    ensures Tied(t, w, dp)
  {
  }

  lemma ExtendTied(t: Merges, w: seq<nat>, dp: seq<nat>, n: nat, m: nat, v: nat)
    requires Tied(t, w, dp) && t.elems + |t.left| < |w| <= |dp| && TwoSmallest(Roots(t, |t.left|), w, dp, n, m)
    ensures n < |dp| && m < |dp|
    ensures var node := t.elems + |t.left|;
      Tied(Extend(t, n, m), w[node := v], dp[node := DepthField(dp[n], dp[m])])
  {
    hide Proper, Roots, DepthField;
    ProperSizes(t);
    var node, t' := t.elems + |t.left|, Extend(t, n, m);
    var w', dp' := w[node := v], dp[node := DepthField(dp[n], dp[m])];
    ExtendProper(t, n, m);
    RootsRange(t, |t.left|);
    forall k | 0 <= k < |t'.left| ensures TiedAt(t', w', dp', k) && FieldAt(t', dp', k) {
      RootsExtend(t, n, m, k);
      RootsRange(t, k);
      if k < |t.left| {
        assert TiedAt(t, w, dp, k) && FieldAt(t, dp, k);
        assert t'.left[k] == t.left[k] && t'.right[k] == t.right[k];
      }
      SmallestFrame(Roots(t, k), w, dp, w', dp', t'.left[k], t'.right[k], node);
    }
  }

  lemma SmallestFrame(nodes: set<nat>, w: seq<nat>, h: seq<nat>, w': seq<nat>, h': seq<nat>, n: nat, m: nat, node: nat)
    requires TwoSmallest(nodes, w, h, n, m) && node !in nodes && |w'| == |w| && |h'| == |h|
    requires forall i :: 0 <= i < |w| && i != node ==> w'[i] == w[i] && h'[i] == h[i]
    ensures TwoSmallest(nodes, w', h', n, m)
  {
    forall i | i in nodes ensures Smaller(Keys(w', h'), n, i) {
      assert Smaller(Keys(w, h), n, i);
    }
    forall i | i in nodes && i != n ensures Smaller(Keys(w', h'), m, i) {
      assert Smaller(Keys(w, h), m, i);
    }
  }

  /** In a tree that fits, the depth fields hold the heights themselves. */
  lemma {:induction false} FieldHeights(t: Merges, w: seq<nat>, dp: seq<nat>, d: seq<nat>, max: nat, k: nat)
    requires Tied(t, w, dp) && DepthsOf(t, d) && max < 255 && k <= |t.left|
    requires forall x :: x in t.leaves && x < |d| ==> d[x] <= max
    ensures forall x :: x in Roots(t, k) ==> x < |d| && x < |dp| && dp[x] + d[x] <= max
    ensures forall j :: 0 <= j < k ==> HeightAt(t, dp, j)
  {
    hide Proper, TiedAt;
    RootsRange(t, k);
    if k > 0 {
      FieldHeights(t, w, dp, d, max, k - 1);
      RootsBack(t, k - 1);
      assert DepthAt(t, d, k - 1) && FieldAt(t, dp, k - 1);
    }
  }

  /** A tree that fits has the least greatest length among all optimal codes. */
  lemma FitsShallow(t: Merges, w: seq<nat>, dp: seq<nat>, lens: seq<nat>, max: nat)
    requires Fits(t, max) && max < 255 && Clipped(t, lens, max) && Summed(t, w) && Tied(t, w, dp) && |w| == |lens|
    ensures ShallowLens(t.leaves, w, lens)
  {
    hide Proper, Clipped, Summed, ShallowLens, TiedAt;
    FitsOver(t, lens, max);
    var d :| DepthsOf(t, d) && forall x :: x in t.leaves && x < |d| ==> d[x] <= max;
    FieldHeights(t, w, dp, d, max, |t.left|);
    ProperSizes(t);
    TreeShallow(t, w, dp, lens, max);
  }
}
