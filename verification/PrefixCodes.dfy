/** Length assignments that satisfy the Kraft inequality, their cost, and the
    exchange argument that makes merging the two lightest nodes optimal.
    Nodes are numbered; a set `nodes` says which numbers are present, `w` gives
    each node's weight and `lens` its code length. */
module PrefixCodes {
  import opened Powers

  ghost function KraftTerm(nodes: set<nat>, i: nat, len: nat, L: nat): nat
  {
    if i in nodes && len <= L then Pow2(L - len) else 0
  }

  /** The Kraft sum of the nodes, in units of 2^-L. */
  ghost function Kraft(nodes: set<nat>, lens: seq<nat>, L: nat): nat
  {
    if lens == [] then 0
    else Kraft(nodes, lens[..|lens| - 1], L) + KraftTerm(nodes, |lens| - 1, lens[|lens| - 1], L)
  }

  ghost predicate InRange(nodes: set<nat>, n: nat)
  {
    forall i :: i in nodes ==> 0 <= i < n
  }

  /** `lens` gives the nodes code lengths of at most L that some prefix code can have. */
  ghost predicate Feasible(nodes: set<nat>, lens: seq<nat>, L: nat)
  {
    && InRange(nodes, |lens|)
    && (forall i :: i in nodes ==> lens[i] <= L)
    && Kraft(nodes, lens, L) <= Pow2(L)
  }

  /** The weighted total code length. */
  ghost function Cost(nodes: set<nat>, w: seq<nat>, lens: seq<nat>): nat
    requires |w| == |lens|
  {
    if lens == [] then 0
    else
      var n := |lens| - 1;
      Cost(nodes, w[..n], lens[..n]) + if n in nodes then w[n] * lens[n] else 0
  }

  /** Changing the length, or the membership, of node i alone changes one term. */
  lemma {:induction false} KraftChange(nodes: set<nat>, lens: seq<nat>, nodes': set<nat>, lens': seq<nat>, L: nat,
                                       i: nat)
    requires |lens| == |lens'| && i < |lens|
    requires forall j :: 0 <= j < |lens| && j != i ==> lens[j] == lens'[j] && (j in nodes <==> j in nodes')
    ensures Kraft(nodes', lens', L)
         == Kraft(nodes, lens, L) - KraftTerm(nodes, i, lens[i], L) + KraftTerm(nodes', i, lens'[i], L)
  {
    var n := |lens| - 1;
    if i < n {
      KraftChange(nodes, lens[..n], nodes', lens'[..n], L, i);
    } else {
      KraftSame(nodes, lens[..n], nodes', lens'[..n], L);
    }
  }

  lemma {:induction false} KraftSame(nodes: set<nat>, lens: seq<nat>, nodes': set<nat>, lens': seq<nat>, L: nat)
    requires |lens| == |lens'|
    requires forall j :: 0 <= j < |lens| && (j in nodes || j in nodes') ==>
      lens[j] == lens'[j] && j in nodes && j in nodes'
    ensures Kraft(nodes', lens', L) == Kraft(nodes, lens, L)
  {
    if lens != [] {
      KraftSame(nodes, lens[..|lens| - 1], nodes', lens'[..|lens| - 1], L);
    }
  }

  ghost function CostTerm(nodes: set<nat>, i: nat, w: nat, len: nat): nat
  {
    if i in nodes then w * len else 0
  }

  lemma {:induction false} CostChange(nodes: set<nat>, w: seq<nat>, lens: seq<nat>, nodes': set<nat>, lens': seq<nat>,
                                      i: nat)
    requires |w| == |lens| == |lens'| && i < |lens|
    requires forall j :: 0 <= j < |lens| && j != i ==> lens[j] == lens'[j] && (j in nodes <==> j in nodes')
    ensures Cost(nodes', w, lens')
         == Cost(nodes, w, lens) - CostTerm(nodes, i, w[i], lens[i]) + CostTerm(nodes', i, w[i], lens'[i])
  {
    var n := |lens| - 1;
    if i < n {
      CostChange(nodes, w[..n], lens[..n], nodes', lens'[..n], i);
    } else {
      CostSame(nodes, w[..n], lens[..n], nodes', w[..n], lens'[..n]);
    }
  }

  lemma {:induction false} CostSame(nodes: set<nat>, w: seq<nat>, lens: seq<nat>,
                                    nodes': set<nat>, w': seq<nat>, lens': seq<nat>)
    requires |w| == |w'| == |lens| == |lens'|
    requires forall j :: 0 <= j < |lens| && (j in nodes || j in nodes') ==>
      lens[j] == lens'[j] && w[j] == w'[j] && j in nodes && j in nodes'
    ensures Cost(nodes', w', lens') == Cost(nodes, w, lens)
  {
    var n := |lens| - 1;
    if lens != [] {
      CostSame(nodes, w[..n], lens[..n], nodes', w'[..n], lens'[..n]);
    }
  }

  lemma KraftUpdate(nodes: set<nat>, lens: seq<nat>, L: nat, i: nat, v: nat)
    requires i < |lens| && i in nodes && lens[i] <= L && v <= L
    ensures Kraft(nodes, lens[i := v], L) == Kraft(nodes, lens, L) - Pow2(L - lens[i]) + Pow2(L - v)
  {
    KraftChange(nodes, lens, nodes, lens[i := v], L, i);
  }

  lemma CostUpdate(nodes: set<nat>, w: seq<nat>, lens: seq<nat>, i: nat, v: nat)
    requires |w| == |lens| && i < |lens| && i in nodes
    ensures Cost(nodes, w, lens[i := v]) == Cost(nodes, w, lens) - w[i] * lens[i] + w[i] * v
  {
    CostChange(nodes, w, lens, nodes, lens[i := v], i);
  }

  /** How many nodes have length b. */
  ghost function CountLen(nodes: set<nat>, lens: seq<nat>, b: nat): nat
  {
    if lens == [] then 0
    else
      var n := |lens| - 1;
      CountLen(nodes, lens[..n], b) + CountTerm(nodes, n, lens[n], b)
  }

  ghost function CountTerm(nodes: set<nat>, i: nat, len: nat, b: nat): nat
  {
    if i in nodes && len == b then 1 else 0
  }

  lemma {:induction false} CountChange(nodes: set<nat>, lens: seq<nat>, nodes': set<nat>, lens': seq<nat>, b: nat,
                                       i: nat)
    requires |lens| == |lens'| && i < |lens|
    requires forall j :: 0 <= j < |lens| && j != i ==> lens[j] == lens'[j] && (j in nodes <==> j in nodes')
    ensures CountLen(nodes', lens', b)
         == CountLen(nodes, lens, b) - CountTerm(nodes, i, lens[i], b) + CountTerm(nodes', i, lens'[i], b)
  {
    var n := |lens| - 1;
    if i < n {
      CountChange(nodes, lens[..n], nodes', lens'[..n], b, i);
    } else {
      CountSame(nodes, lens[..n], nodes', lens'[..n], b);
    }
  }

  lemma {:induction false} CountSame(nodes: set<nat>, lens: seq<nat>, nodes': set<nat>, lens': seq<nat>, b: nat)
    requires |lens| == |lens'|
    requires forall j :: 0 <= j < |lens| && (j in nodes || j in nodes') ==>
      lens[j] == lens'[j] && j in nodes && j in nodes'
    ensures CountLen(nodes', lens', b) == CountLen(nodes, lens, b)
  {
    if lens != [] {
      CountSame(nodes, lens[..|lens| - 1], nodes', lens'[..|lens| - 1], b);
    }
  }

  /** Doubling the unit doubles the sum and lets the nodes of length L in. */
  lemma {:induction false} KraftStep(nodes: set<nat>, lens: seq<nat>, L: nat)
    requires L >= 1
    ensures Kraft(nodes, lens, L) == 2 * Kraft(nodes, lens, L - 1) + CountLen(nodes, lens, L)
  {
    if lens != [] {
      KraftStep(nodes, lens[..|lens| - 1], L);
    }
  }

  lemma {:induction false} CountNone(nodes: set<nat>, lens: seq<nat>, b: nat)
    requires forall i :: i in nodes && 0 <= i < |lens| ==> lens[i] != b
    ensures CountLen(nodes, lens, b) == 0
  {
    if lens != [] {
      CountNone(nodes, lens[..|lens| - 1], b);
    }
  }

  /** With every length below L, halving the unit halves the sum. */
  lemma KraftHalve(nodes: set<nat>, lens: seq<nat>, L: nat)
    requires L >= 1
    requires forall i :: i in nodes && 0 <= i < |lens| ==> lens[i] <= L - 1
    ensures Kraft(nodes, lens, L) == 2 * Kraft(nodes, lens, L - 1)
  {
    KraftStep(nodes, lens, L);
    CountNone(nodes, lens, L);
  }

  /** Dropping node i from the set leaves its term out of the sum. */
  lemma KraftWithout(nodes: set<nat>, lens: seq<nat>, L: nat, i: nat)
    requires i < |lens| && i in nodes && lens[i] <= L
    ensures Kraft(nodes, lens, L) == Kraft(nodes - {i}, lens, L) + Pow2(L - lens[i])
  {
    KraftChange(nodes, lens, nodes - {i}, lens, L, i);
  }

  lemma KraftTwoNodes(nodes: set<nat>, lens: seq<nat>, L: nat, i: nat, j: nat)
    requires Feasible(nodes, lens, L) && i in nodes && j in nodes && i != j
    ensures L >= 1
  {
    KraftWithout(nodes, lens, L, i);
    KraftWithout(nodes - {i}, lens, L, j);
  }

  /** A single node at the deepest level can move up one level: the Kraft sum is then odd. */
  lemma LoneDeepest(nodes: set<nat>, lens: seq<nat>, L: nat, i: nat)
    requires L >= 1 && Feasible(nodes, lens, L) && i in nodes && lens[i] == L
    requires forall j :: j in nodes && j != i ==> lens[j] <= L - 1
    ensures Feasible(nodes, lens[i := L - 1], L - 1)
  {
    var lens' := lens[i := L - 1];
    KraftWithout(nodes, lens, L, i);
    KraftHalve(nodes - {i}, lens, L);
    KraftWithout(nodes, lens', L - 1, i);
    KraftChange(nodes - {i}, lens, nodes - {i}, lens', L - 1, i);
  }

  /** Any feasible assignment can be shortened until two nodes share the deepest level. */
  lemma {:induction false} Tighten(nodes: set<nat>, w: seq<nat>, lens: seq<nat>, L: nat, a: nat, b: nat)
      returns (lens': seq<nat>, L': nat, i: nat, j: nat)
    requires |w| == |lens| && Feasible(nodes, lens, L)
    requires a in nodes && b in nodes && a != b
    ensures |lens'| == |lens| && Feasible(nodes, lens', L')
    ensures i in nodes && j in nodes && i != j && lens'[i] == L' && lens'[j] == L'
    ensures Cost(nodes, w, lens') <= Cost(nodes, w, lens) && forall x :: x in nodes ==> lens'[x] <= lens[x]
    decreases L
  {
    KraftTwoNodes(nodes, lens, L, a, b);
    if k :| k in nodes && lens[k] == L {
      if m :| m in nodes && m != k && lens[m] == L {
        lens', L', i, j := lens, L, k, m;
      } else {
        LoneDeepest(nodes, lens, L, k);
        CostUpdate(nodes, w, lens, k, L - 1);
        assert w[k] * L == w[k] * (L - 1) + w[k];
        lens', L', i, j := Tighten(nodes, w, lens[k := L - 1], L - 1, a, b);
      }
    } else {
      KraftHalve(nodes, lens, L);
      lens', L', i, j := Tighten(nodes, w, lens, L - 1, a, b);
    }
  }

  /** Giving a lighter node the longer of two lengths keeps feasibility and does not raise the cost. */
  lemma SwapLengths(nodes: set<nat>, w: seq<nat>, lens: seq<nat>, L: nat, light: nat, heavy: nat)
      returns (lens': seq<nat>)
    requires |w| == |lens| && Feasible(nodes, lens, L)
    requires light in nodes && heavy in nodes && light != heavy
    requires w[light] <= w[heavy] && lens[light] <= lens[heavy]
    ensures lens' == lens[light := lens[heavy]][heavy := lens[light]]
    ensures Feasible(nodes, lens', L)
    ensures Cost(nodes, w, lens') <= Cost(nodes, w, lens)
  {
    var a, b := lens[light], lens[heavy];
    var mid := lens[light := b];
    lens' := mid[heavy := a];
    KraftUpdate(nodes, lens, L, light, b);
    KraftUpdate(nodes, mid, L, heavy, a);
    CostUpdate(nodes, w, lens, light, b);
    CostUpdate(nodes, w, mid, heavy, a);
    Products(w[light], w[heavy], a, b);
  }

  lemma Products(x: nat, y: nat, a: nat, b: nat)
    requires x <= y && a <= b
    ensures x * b + y * a <= x * a + y * b
  {
    assert (y - x) * (b - a) >= 0;
    assert (y - x) * (b - a) == y * b - y * a - x * b + x * a;
  }

  ghost predicate TwoLightest(nodes: set<nat>, w: seq<nat>, n: nat, m: nat)
  {
    && InRange(nodes, |w|) && n in nodes && m in nodes && n != m
    && (forall i :: i in nodes ==> w[n] <= w[i])
    && (forall i :: i in nodes && i != n ==> w[m] <= w[i])
  }

  /** The two lightest nodes can be made siblings at the deepest level. */
  lemma LightestDeepest(nodes: set<nat>, w: seq<nat>, lens: seq<nat>, L: nat, n: nat, m: nat)
      returns (lens': seq<nat>, L': nat)
    requires |w| == |lens| && Feasible(nodes, lens, L) && TwoLightest(nodes, w, n, m)
    ensures |lens'| == |lens| && Feasible(nodes, lens', L') && L' >= 1
    ensures lens'[n] == L' && lens'[m] == L'
    ensures Cost(nodes, w, lens') <= Cost(nodes, w, lens)
  {
    var i, j;
    lens', L', i, j := Tighten(nodes, w, lens, L, n, m);
    var k := if i == n then j else i;
    if lens'[n] != L' {
      lens' := SwapLengths(nodes, w, lens', L', n, i);
      k := j;
    }
    if m != k {
      lens' := SwapLengths(nodes, w, lens', L', m, k);
    }
    KraftTwoNodes(nodes, lens', L', n, m);
  }

  ghost function Merged(nodes: set<nat>, n: nat, m: nat, node: nat): set<nat>
  {
    nodes - {n, m} + {node}
  }

  lemma MergeKraft(nodes: set<nat>, lens: seq<nat>, L: nat, n: nat, m: nat, node: nat)
    requires Feasible(nodes, lens, L) && L >= 1
    requires n in nodes && m in nodes && n != m && node < |lens| && node !in nodes
    requires lens[n] == L && lens[m] == L
    ensures Feasible(Merged(nodes, n, m, node), lens[node := L - 1], L)
  {
    KraftChange(nodes, lens, nodes - {n}, lens, L, n);
    KraftChange(nodes - {n}, lens, nodes - {n, m}, lens, L, m);
    KraftChange(nodes - {n, m}, lens, Merged(nodes, n, m, node), lens[node := L - 1], L, node);
    assert Pow2(1) == 2 && Pow2(0) == 1;
  }

  lemma MergeCost(nodes: set<nat>, w: seq<nat>, lens: seq<nat>, L: nat, n: nat, m: nat, node: nat)
    requires |w| == |lens| && L >= 1
    requires n in nodes && m in nodes && n != m && n < |lens| && m < |lens| && node < |lens| && node !in nodes
    requires lens[n] == L && lens[m] == L && w[node] == w[n] + w[m]
    ensures Cost(nodes, w, lens)
         == w[n] + w[m] + Cost(Merged(nodes, n, m, node), w, lens[node := L - 1])
  {
    CostChange(nodes, w, lens, nodes - {n}, lens, n);
    CostChange(nodes - {n}, w, lens, nodes - {n, m}, lens, m);
    CostChange(nodes - {n, m}, w, lens, Merged(nodes, n, m, node), lens[node := L - 1], node);
    MergeProducts(w[n], w[m], L);
  }

  lemma MergeProducts(x: nat, y: nat, L: nat)
    requires L >= 1
    ensures x * L + y * L == (x + y) * (L - 1) + x + y
  {
  }

  /** `cost` is at least `paid` plus the cost of some feasible assignment of the nodes. */
  ghost predicate BoundedBy(cost: nat, nodes: set<nat>, w: seq<nat>, paid: nat)
  {
    exists lens: seq<nat>, L: nat ::
      |lens| == |w| && Feasible(nodes, lens, L) && cost >= paid + Cost(nodes, w, lens)
  }

  /** Every feasible assignment of the old nodes costs at least `paid` more than
      some feasible assignment of the new nodes. */
  ghost predicate Reduces(nodes0: set<nat>, w0: seq<nat>, nodes: set<nat>, w: seq<nat>, paid: nat)
    requires |w0| == |w|
  {
    forall lens0: seq<nat>, L0: nat :: |lens0| == |w0| && Feasible(nodes0, lens0, L0) ==>
      BoundedBy(Cost(nodes0, w0, lens0), nodes, w, paid)
  }

  lemma ReducesRefl(nodes: set<nat>, w: seq<nat>)
    ensures Reduces(nodes, w, nodes, w, 0)
  {
  }

  lemma MergeBelow(nodes: set<nat>, w: seq<nat>, lens: seq<nat>, L: nat, n: nat, m: nat, node: nat, w': seq<nat>)
    requires |w| == |lens| && Feasible(nodes, lens, L)
    requires TwoLightest(nodes, w, n, m) && node < |w| && node !in nodes
    requires w' == w[node := w[n] + w[m]]
    ensures BoundedBy(Cost(nodes, w, lens), Merged(nodes, n, m, node), w', w[n] + w[m])
  {
    CostSame(nodes, w, lens, nodes, w', lens);
    var lens1, L1 := LightestDeepest(nodes, w', lens, L, n, m);
    MergeKraft(nodes, lens1, L1, n, m, node);
    MergeCost(nodes, w', lens1, L1, n, m, node);
  }

  /** One merge of the two lightest nodes keeps the lower bound. */
  lemma ReducesMerge(nodes0: set<nat>, w0: seq<nat>, nodes: set<nat>, w: seq<nat>, paid: nat,
                     n: nat, m: nat, node: nat, w': seq<nat>)
    requires |w0| == |w| && Reduces(nodes0, w0, nodes, w, paid)
    requires TwoLightest(nodes, w, n, m) && node < |w| && node !in nodes
    requires w' == w[node := w[n] + w[m]]
    ensures Reduces(nodes0, w0, Merged(nodes, n, m, node), w', paid + w[n] + w[m])
  {
    forall lens0: seq<nat>, L0: nat | |lens0| == |w0| && Feasible(nodes0, lens0, L0)
      ensures BoundedBy(Cost(nodes0, w0, lens0), Merged(nodes, n, m, node), w', paid + w[n] + w[m])
    {
      var lens: seq<nat>, L: nat :| |lens| == |w| && Feasible(nodes, lens, L)
        && Cost(nodes0, w0, lens0) >= paid + Cost(nodes, w, lens);
      MergeBelow(nodes, w, lens, L, n, m, node, w');
    }
  }

  /** The nodes' code words: none is a prefix of another, and lens gives their lengths. */
  ghost predicate PrefixFree(nodes: set<nat>, words: seq<seq<bool>>, lens: seq<nat>)
  {
    && |words| == |lens| && InRange(nodes, |words|)
    && (forall i :: 0 <= i < |words| ==> lens[i] == |words[i]|)
    && forall i, j :: i in nodes && j in nodes && i != j ==> !(words[i] <= words[j])
  }

  ghost function StartingWith(nodes: set<nat>, words: seq<seq<bool>>, b: bool): set<nat>
  {
    set i | i in nodes && i < |words| && words[i] != [] && words[i][0] == b
  }

  ghost function Tails(words: seq<seq<bool>>): (t: seq<seq<bool>>)
    ensures |t| == |words|
    ensures forall i :: 0 <= i < |words| ==> t[i] == if words[i] == [] then [] else words[i][1..]
  {
    if words == [] then [] else
    var n := |words| - 1;
    Tails(words[..n]) + [if words[n] == [] then [] else words[n][1..]]
  }

  ghost function LensOf(words: seq<seq<bool>>): (l: seq<nat>)
    ensures |l| == |words| && forall i :: 0 <= i < |words| ==> l[i] == |words[i]|
  {
    if words == [] then [] else LensOf(words[..|words| - 1]) + [|words[|words| - 1]|]
  }

  lemma {:induction false} KraftSplit(nodes: set<nat>, a: set<nat>, b: set<nat>, lens: seq<nat>, tails: seq<nat>,
                                      L: nat)
    requires nodes == a + b && a !! b && |tails| == |lens| && L >= 1
    requires forall i :: i in nodes && i < |lens| ==> lens[i] >= 1 && tails[i] == lens[i] - 1
    ensures Kraft(nodes, lens, L) == Kraft(a, tails, L - 1) + Kraft(b, tails, L - 1)
  {
    if lens != [] {
      var n := |lens| - 1;
      KraftSplit(nodes, a, b, lens[..n], tails[..n], L);
    }
  }

  lemma KraftOne(nodes: set<nat>, lens: seq<nat>, L: nat, i: nat)
    requires nodes == {i} && i < |lens| && lens[i] <= L
    ensures Kraft(nodes, lens, L) == Pow2(L - lens[i])
  {
    KraftChange({}, lens, nodes, lens, L, i);
    KraftEmpty(lens, L);
  }

  lemma {:induction false} KraftEmpty(lens: seq<nat>, L: nat)
    ensures Kraft({}, lens, L) == 0
  {
    if lens != [] {
      KraftEmpty(lens[..|lens| - 1], L);
    }
  }

  /** The Kraft inequality: the lengths of every prefix code are feasible. */
  lemma {:induction false} KraftInequality(nodes: set<nat>, words: seq<seq<bool>>, lens: seq<nat>, L: nat)
    requires PrefixFree(nodes, words, lens) && forall i :: i in nodes ==> lens[i] <= L
    ensures Feasible(nodes, lens, L)
    decreases L
  {
    hide Kraft;
    if i :| i in nodes && words[i] == [] {
      assert nodes == {i} by {
        forall j | j in nodes ensures j == i {
          assert words[i] <= words[j];
        }
      }
      KraftOne(nodes, lens, L, i);
    } else if nodes == {} {
      KraftEmpty(lens, L);
    } else {
      var i :| i in nodes;
      assert L >= 1 && lens[i] >= 1;
      var a, b := StartingWith(nodes, words, false), StartingWith(nodes, words, true);
      var t := Tails(words);
      SplitHalf(nodes, words, lens, L, false);
      SplitHalf(nodes, words, lens, L, true);
      assert nodes == a + b;
      KraftSplit(nodes, a, b, lens, LensOf(t), L);
    }
  }

  lemma {:induction false} SplitHalf(nodes: set<nat>, words: seq<seq<bool>>, lens: seq<nat>, L: nat, bit: bool)
    requires PrefixFree(nodes, words, lens) && L >= 1 && forall i :: i in nodes ==> lens[i] <= L
    ensures Kraft(StartingWith(nodes, words, bit), LensOf(Tails(words)), L - 1) <= Pow2(L - 1)
    decreases L, 0
  {
    hide Kraft, StartingWith, Tails, LensOf, PrefixFree;
    var t := Tails(words);
    TailsFree(nodes, words, lens, L, bit);
    KraftInequality(StartingWith(nodes, words, bit), t, LensOf(t), L - 1);
    FeasibleKraft(StartingWith(nodes, words, bit), LensOf(t), L - 1);
  }

  lemma FeasibleKraft(nodes: set<nat>, lens: seq<nat>, L: nat)
    requires Feasible(nodes, lens, L)
    ensures Kraft(nodes, lens, L) <= Pow2(L)
  {
    hide Kraft;
  }

  /** What follows the first bit is again a prefix code. */
  lemma TailsFree(nodes: set<nat>, words: seq<seq<bool>>, lens: seq<nat>, L: nat, bit: bool)
    requires PrefixFree(nodes, words, lens) && L >= 1 && forall i :: i in nodes ==> lens[i] <= L
    ensures var a, t := StartingWith(nodes, words, bit), Tails(words);
      PrefixFree(a, t, LensOf(t)) && forall i :: i in a ==> LensOf(t)[i] <= L - 1
  {
    hide Tails, LensOf;
    var a, t := StartingWith(nodes, words, bit), Tails(words);
    forall i, j | i in a && j in a && i != j
      ensures !(t[i] <= t[j])
    {
      TailsApart(words[i], words[j]);
    }
  }

  lemma TailsApart(v: seq<bool>, w: seq<bool>)
    requires v != [] && w != [] && v[0] == w[0] && !(v <= w)
    ensures !(v[1..] <= w[1..])
  {
    assert v == [v[0]] + v[1..] && w == [w[0]] + w[1..];
  }
}
