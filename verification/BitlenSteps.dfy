/** The steps of gen_bitlen on values: walking the tree from the root, tallying the
    leaves, and giving the leaves their final lengths after an overflow. */
module BitlenSteps {
  import opened Powers
  import opened PrefixCodes
  import opened HuffmanTrees
  import opened LengthCounts

  /** The nodes NodeAt(q..) have their length in dl, the others still their father. */
  ghost predicate Walking(t: Merges, dl: seq<nat>, max: nat, q: nat)
  {
    && Complete(t) && |t.left| == |t.right| && q <= 2 * |t.left| && t.elems + |t.left| <= |dl| && max >= 1
    && dl[t.elems + |t.left| - 1] == 0
    && (forall r :: 0 <= r < 2 * |t.left| ==> NodeAt(t, r) < t.elems + r / 2)
    && (forall r :: 0 <= r < q ==> dl[NodeAt(t, r)] == t.elems + r / 2)
    && (forall r :: q <= r < 2 * |t.left| ==> dl[NodeAt(t, r)] == Clip(dl[t.elems + r / 2], max))
  }

  lemma NodeBelow(t: Merges, r: nat)
    requires Proper(t) && |t.left| == |t.right| && r < 2 * |t.left|
    ensures NodeAt(t, r) < t.elems + r / 2
  {
    Gone(t, r / 2, |t.left|);
  }

  lemma NodesDiffer(t: Merges, q: nat, r: nat)
    requires Proper(t) && |t.left| == |t.right| && q < 2 * |t.left| && r < 2 * |t.left| && q != r
    ensures NodeAt(t, q) != NodeAt(t, r)
  {
    if q / 2 != r / 2 {
      SonsDistinct(t, q / 2, r / 2);
    } else {
      assert MergeAt(t, q / 2);
    }
  }

  lemma WalkStart(t: Merges, dl: seq<nat>, max: nat)
    requires Complete(t) && Dads(t, dl) && t.elems + |t.left| <= |dl| && max >= 1
    ensures |t.left| == |t.right|
    ensures Walking(t, dl[t.elems + |t.left| - 1 := 0], max, 2 * |t.left|)
  {
    hide Proper, Roots;
    ProperSizes(t);
    forall r | 0 <= r < 2 * |t.left|
      ensures NodeAt(t, r) < t.elems + r / 2 && dl[NodeAt(t, r)] == t.elems + r / 2
    {
      NodeBelow(t, r);
      assert DadOf(t, dl, r / 2, t.left[r / 2]) && DadOf(t, dl, r / 2, t.right[r / 2]);
    }
  }

  /** Lines 511-514: the next node's length is its father's plus one, clipped. */
  lemma WalkStep(t: Merges, dl: seq<nat>, max: nat, q: nat)
    requires Walking(t, dl, max, q) && q >= 1
    ensures NodeAt(t, q - 1) < t.elems + (q - 1) / 2 < |dl|
    ensures dl[NodeAt(t, q - 1)] == t.elems + (q - 1) / 2
    ensures Walking(t, dl[NodeAt(t, q - 1) := Clip(dl[t.elems + (q - 1) / 2], max)], max, q - 1)
  {
    hide Proper, Roots;
    var n := NodeAt(t, q - 1);
    forall r | 0 <= r < 2 * |t.left| && r != q - 1
      ensures NodeAt(t, r) != n
    {
      NodesDiffer(t, r, q - 1);
    }
  }

  lemma WalkEnd(t: Merges, dl: seq<nat>, max: nat)
    requires Walking(t, dl, max, 0)
    ensures Clipped(t, dl, max)
  {
    hide Proper, Roots, Complete;
    forall k | 0 <= k < |t.left|
      ensures SonsRange(t, k) && dl[t.left[k]] == Clip(dl[t.elems + k], max)
      ensures dl[t.right[k]] == Clip(dl[t.elems + k], max)
    {
      assert NodeAt(t, 2 * k) == t.left[k] && NodeAt(t, 2 * k + 1) == t.right[k];
    }
  }

  /** How many of the nodes NodeAt(q..) were clipped. */
  ghost function OverFrom(t: Merges, lens: seq<nat>, max: nat, q: nat): nat
    requires q <= 2 * |t.left| && t.elems + |t.left| <= |lens|
    decreases 2 * |t.left| - q
  {
    if q == 2 * |t.left| then 0
    else OverFrom(t, lens, max, q + 1) + if lens[t.elems + q / 2] + 1 > max then 1 else 0
  }

  lemma {:induction false} OverFrame(t: Merges, lens: seq<nat>, n: nat, v: nat, max: nat, q: nat)
    requires q <= 2 * |t.left| && t.elems + |t.left| <= |lens| && n < |lens| && n < t.elems + q / 2
    ensures OverFrom(t, lens[n := v], max, q) == OverFrom(t, lens, max, q)
    decreases 2 * |t.left| - q
  {
    if q < 2 * |t.left| {
      OverFrame(t, lens, n, v, max, q + 1);
    }
  }

  /** Clipped nodes come in pairs of brothers. */
  lemma {:induction false} OverPairs(t: Merges, lens: seq<nat>, max: nat, k: nat)
    requires k <= |t.left| && t.elems + |t.left| <= |lens|
    ensures OverFrom(t, lens, max, 2 * k) == 2 * Over(t, lens, max, k)
    decreases |t.left| - k
  {
    if k < |t.left| {
      OverPairs(t, lens, max, k + 1);
    }
  }

  /** `done` are the leaves among the nodes NodeAt(q..). */
  ghost predicate Tallied(t: Merges, done: set<nat>, q: nat)
  {
    && |t.left| == |t.right| && q <= 2 * |t.left| && done <= t.leaves
    && (forall r :: q <= r < 2 * |t.left| && NodeAt(t, r) in t.leaves ==> NodeAt(t, r) in done)
    && (forall r :: 0 <= r < q ==> NodeAt(t, r) !in done)
  }

  lemma TallyStep(t: Merges, done: set<nat>, q: nat)
    requires Proper(t) && Tallied(t, done, q) && q >= 1
    ensures NodeAt(t, q - 1) !in done
    ensures NodeAt(t, q - 1) in t.leaves ==> Tallied(t, done + {NodeAt(t, q - 1)}, q - 1)
    ensures NodeAt(t, q - 1) !in t.leaves ==> Tallied(t, done, q - 1)
  {
    hide Proper, Roots;
    forall r | 0 <= r < q - 1
      ensures NodeAt(t, r) != NodeAt(t, q - 1)
    {
      NodesDiffer(t, r, q - 1);
    }
  }

  lemma TallyEnd(t: Merges, done: set<nat>)
    requires Complete(t) && Tallied(t, done, 0)
    ensures done == t.leaves
  {
    hide Proper, Roots;
    forall x | x in t.leaves
      ensures x in done
    {
      var q := LeafPlace(t, x);
    }
  }

  /** Every leaf is among the merged nodes. */
  lemma LeafPlace(t: Merges, x: nat) returns (q: nat)
    requires Complete(t) && |t.left| == |t.right| && x in t.leaves
    ensures q < 2 * |t.left| && NodeAt(t, q) == x
  {
    hide Roots;
    var j := Consumed(t, x, |t.left|);
    q := if x == t.left[j] then 2 * j else 2 * j + 1;
  }

  /** The bit cost of the nodes: code length plus extra bits, times the frequency. */
  ghost function BitCost(nodes: set<nat>, w: seq<nat>, lens: seq<nat>, extra: seq<nat>): nat
    requires |w| == |lens| == |extra|
  {
    Cost(nodes, w, lens) + Cost(nodes, w, extra)
  }

  /** Lines 519-523: counting one more leaf. */
  lemma TallyLeaf(done: set<nat>, w: seq<nat>, dl: seq<nat>, extra: seq<nat>, n: nat, bits: nat)
    requires |w| == |dl| == |extra| && n < |w| && n !in done
    ensures BitCost(done + {n}, w, dl[n := bits], extra) == BitCost(done, w, dl, extra) + w[n] * (bits + extra[n])
  {
    hide Cost;
    CostChange(done, w, dl, done + {n}, dl[n := bits], n);
    CostChange(done, w, extra, done + {n}, extra, n);
    Distribute(w[n], bits, extra[n]);
  }

  lemma Distribute(x: nat, a: nat, b: nat)
    ensures x * (a + b) == x * a + x * b
  {
  }

  lemma TallyCounts(bl: seq<nat>, done: set<nat>, dl: seq<nat>, n: nat, bits: nat)
    requires CountsOf(bl, done, dl) && n < |dl| && n !in done && bits < |bl|
    ensures CountsOf(bl[bits := bl[bits] + 1], done + {n}, dl[n := bits])
  {
    hide CountLen;
    forall b | 0 <= b < |bl|
      ensures CountLen(done + {n}, dl[n := bits], b) == CountLen(done, dl, b) + if b == bits then 1 else 0
    {
      CountChange(done, dl, done + {n}, dl[n := bits], b, n);
    }
  }

  lemma TallyInner(bl: seq<nat>, done: set<nat>, w: seq<nat>, dl: seq<nat>, extra: seq<nat>, n: nat, bits: nat)
    requires |w| == |dl| == |extra| && n < |w| && n !in done && CountsOf(bl, done, dl)
    ensures BitCost(done, w, dl[n := bits], extra) == BitCost(done, w, dl, extra)
    ensures CountsOf(bl, done, dl[n := bits])
  {
    hide Cost, CountLen;
    CostSame(done, w, dl, done, w, dl[n := bits]);
    forall b | 0 <= b < |bl|
      ensures CountLen(done, dl[n := bits], b) == CountLen(done, dl, b)
    {
      CountSame(done, dl, done, dl[n := bits], b);
    }
  }

  lemma TallyNothing(w: seq<nat>, dl: seq<nat>, extra: seq<nat>, bl: seq<nat>)
    requires |w| == |dl| == |extra| && forall b :: 0 <= b < |bl| ==> bl[b] == 0
    ensures BitCost({}, w, dl, extra) == 0 && CountsOf(bl, {}, dl)
  {
    hide Cost, CountLen;
    CostNone(w, dl);
    CostNone(w, extra);
    forall b | 0 <= b < |bl|
      ensures CountLen({}, dl, b) == 0
    {
      CountNone({}, dl, b);
    }
  }

  /** `vis` are the leaves among the first q merged nodes, the lightest ones. */
  ghost predicate Visited(t: Merges, vis: set<nat>, q: nat)
  {
    && Complete(t) && |t.left| == |t.right| && q <= 2 * |t.left| && vis <= t.leaves
    && (forall r :: 0 <= r < q && NodeAt(t, r) in t.leaves ==> NodeAt(t, r) in vis)
    && (forall r :: q <= r < 2 * |t.left| ==> NodeAt(t, r) !in vis)
  }

  /** The visited leaves have lengths from max down to bits; n leaves are still to get `bits`. */
  ghost predicate Assigned(t: Merges, vis: set<nat>, q: nat, dl: seq<nat>, bl: seq<nat>, max: nat, bits: nat, n: nat)
  {
    && Visited(t, vis, q) && bits <= max < |bl| && InRange(t.leaves, |dl|)
    && |vis| + n + (if bits == 0 then 0 else TotalCount(bl, bits - 1)) == |t.leaves|
    && (forall b :: 0 <= b < |bl| ==>
        CountLen(vis, dl, b) + (if b == bits then n else 0) == if b >= bits then bl[b] else 0)
    && (forall x :: x in vis ==> bits <= dl[x] <= max)
    && Descending(t, q, dl)
  }

  /** Among the first q merged nodes, a lighter leaf has no shorter code. */
  ghost predicate Descending(t: Merges, q: nat, dl: seq<nat>)
    requires |t.left| == |t.right| && q <= 2 * |t.left| && InRange(t.leaves, |dl|)
  {
    forall r, u :: 0 <= r < u < q && NodeAt(t, r) in t.leaves && NodeAt(t, u) in t.leaves ==>
      dl[NodeAt(t, r)] >= dl[NodeAt(t, u)]
  }

  lemma AssignStart(t: Merges, dl: seq<nat>, bl: seq<nat>, max: nat)
    requires Complete(t) && |t.left| == |t.right| && 1 <= max < |bl| && InRange(t.leaves, |dl|)
    requires TotalCount(bl, max) == |t.leaves| && forall b :: max < b < |bl| ==> bl[b] == 0
    ensures Assigned(t, {}, 0, dl, bl, max, max, bl[max])
  {
    hide Complete, CountLen;
    forall b | 0 <= b < |bl|
      ensures CountLen({}, dl, b) == 0
    {
      CountNone({}, dl, b);
    }
  }

  /** Line 549: on to the next shorter length. */
  lemma AssignNext(t: Merges, vis: set<nat>, q: nat, dl: seq<nat>, bl: seq<nat>, max: nat, bits: nat)
    requires Assigned(t, vis, q, dl, bl, max, bits, 0) && bits >= 1
    ensures Assigned(t, vis, q, dl, bl, max, bits - 1, bl[bits - 1])
  {
    hide Visited, CountLen, Descending;
  }

  /** While a leaf is owed the length `bits`, an unvisited node remains. */
  lemma AssignMore(t: Merges, vis: set<nat>, q: nat, dl: seq<nat>, bl: seq<nat>, max: nat, bits: nat, n: nat)
    requires Assigned(t, vis, q, dl, bl, max, bits, n) && n > 0
    ensures |t.left| == |t.right| && q < 2 * |t.left|
  {
    hide CountLen, Descending, Complete, Visited;
    VisitedSizes(t, vis, q);
    if q == 2 * |t.left| {
      AllVisited(t, vis);
    }
  }

  lemma VisitedSizes(t: Merges, vis: set<nat>, q: nat)
    requires Visited(t, vis, q)
    ensures |t.left| == |t.right| && q <= 2 * |t.left|
  {
  }

  lemma AllVisited(t: Merges, vis: set<nat>)
    requires Visited(t, vis, 2 * |t.left|)
    ensures vis == t.leaves
  {
    hide Complete;
    forall x | x in t.leaves
      ensures x in vis
    {
      var r := LeafPlace(t, x);
    }
  }

  lemma VisitStep(t: Merges, vis: set<nat>, q: nat)
    requires Visited(t, vis, q) && q < 2 * |t.left|
    ensures NodeAt(t, q) !in vis
    ensures NodeAt(t, q) in t.leaves ==> Visited(t, vis + {NodeAt(t, q)}, q + 1)
    ensures NodeAt(t, q) !in t.leaves ==> Visited(t, vis, q + 1)
  {
    hide Proper, Roots;
    forall r | q < r < 2 * |t.left|
      ensures NodeAt(t, r) != NodeAt(t, q)
    {
      NodesDiffer(t, r, q);
    }
  }

  /** Line 553: an inner node is passed over. */
  lemma AssignSkip(t: Merges, vis: set<nat>, q: nat, dl: seq<nat>, bl: seq<nat>, max: nat, bits: nat, n: nat)
    requires Assigned(t, vis, q, dl, bl, max, bits, n) && q < 2 * |t.left| && |t.left| == |t.right|
    requires NodeAt(t, q) !in t.leaves
    ensures Assigned(t, vis, q + 1, dl, bl, max, bits, n)
  {
    hide Visited, CountLen;
    VisitStep(t, vis, q);
  }

  /** Lines 554-559: the next leaf gets the length `bits`. */
  lemma AssignLeaf(t: Merges, vis: set<nat>, q: nat, dl: seq<nat>, bl: seq<nat>, max: nat, bits: nat, n: nat)
    requires Assigned(t, vis, q, dl, bl, max, bits, n) && q < 2 * |t.left| && |t.left| == |t.right| && n > 0
    requires NodeAt(t, q) in t.leaves
    ensures NodeAt(t, q) < |dl|
    ensures Assigned(t, vis + {NodeAt(t, q)}, q + 1, dl[NodeAt(t, q) := bits], bl, max, bits, n - 1)
  {
    hide CountLen, Complete, Descending;
    var m := NodeAt(t, q);
    var dl' := dl[m := bits];
    VisitStep(t, vis, q);
    forall b | 0 <= b < |bl|
      ensures CountLen(vis + {m}, dl', b) == CountLen(vis, dl, b) + if b == bits then 1 else 0
    {
      CountChange(vis, dl, vis + {m}, dl', b, m);
    }
    DescendStep(t, vis, q, dl, bits);
  }

  lemma DescendStep(t: Merges, vis: set<nat>, q: nat, dl: seq<nat>, bits: nat)
    requires Visited(t, vis, q) && q < 2 * |t.left| && InRange(t.leaves, |dl|) && Descending(t, q, dl)
    requires NodeAt(t, q) in t.leaves && forall x :: x in vis ==> bits <= dl[x]
    ensures Descending(t, q + 1, dl[NodeAt(t, q) := bits])
  {
    hide Complete;
    forall r | 0 <= r < q && NodeAt(t, r) in t.leaves
      ensures NodeAt(t, r) in vis && NodeAt(t, r) != NodeAt(t, q)
    {
    }
  }

  /** Lines 549-561 are over: every leaf has its length. */
  lemma AssignEnd(t: Merges, vis: set<nat>, q: nat, dl: seq<nat>, bl: seq<nat>, max: nat)
    requires Assigned(t, vis, q, dl, bl, max, 1, 0) && |bl| > 0 && bl[0] == 0
    ensures vis == t.leaves && CountsOf(bl, t.leaves, dl)
    ensures forall x :: x in t.leaves ==> 1 <= dl[x] <= max
  {
    hide CountLen, Complete, Descending;
    assert vis == t.leaves by {
      SubsetEqual(vis, t.leaves);
    }
  }

  lemma SubsetEqual(a: set<nat>, b: set<nat>)
    requires a <= b && |a| == |b|
    ensures a == b
  {
    assert b == a + (b - a);
  }

  /** A leaf that occurs less often has no shorter code. */
  ghost predicate Monotone(leaves: set<nat>, w: seq<nat>, lens: seq<nat>)
  {
    forall a, b :: a in leaves && b in leaves && a < |w| && b < |w| && a < |lens| && b < |lens| && w[a] < w[b] ==>
      lens[a] >= lens[b]
  }

  lemma AssignMonotone(t: Merges, w: seq<nat>, vis: set<nat>, q: nat, dl: seq<nat>, bl: seq<nat>, max: nat)
    requires Assigned(t, vis, q, dl, bl, max, 1, 0) && vis == t.leaves && ByWeight(t, w)
    ensures Monotone(t.leaves, w, dl)
  {
    hide CountLen, Complete, TotalCount, Proper, Roots;
    forall a, b | a in t.leaves && b in t.leaves && a < |w| && b < |w| && a < |dl| && b < |dl| && w[a] < w[b]
      ensures dl[a] >= dl[b]
    {
      var r := LeafPlace(t, a);
      var u := LeafPlace(t, b);
      assert r < q && u < q;
    }
  }

  /** A merged node below `elems` is a leaf. */
  lemma LeafTest(t: Merges, q: nat, maxCode: int)
    requires Proper(t) && |t.left| == |t.right| && q < 2 * |t.left| && maxCode < t.elems
    requires forall x :: x in t.leaves ==> x <= maxCode
    ensures NodeAt(t, q) > maxCode <==> NodeAt(t, q) !in t.leaves
    ensures NodeAt(t, q) < t.elems ==> NodeAt(t, q) in t.leaves
  {
    assert MergeAt(t, q / 2);
    RootsRange(t, q / 2);
  }

  /** Everything the walk of lines 510-525 keeps, after the nodes NodeAt(q..). The ghost
      arguments opt and stat are what it has added to opt_len and static_len. */
  ghost predicate WalkState(t: Merges, done: set<nat>, q: nat, w: seq<nat>, dl: seq<nat>, max: nat, over: nat,
                            bl: seq<nat>, extra: seq<nat>, stat: seq<nat>, opt: int, st: int)
  {
    && |w| == |dl| == |extra| == |stat| && max < |bl|
    && Walking(t, dl, max, q) && Tallied(t, done, q) && over == OverFrom(t, dl, max, q)
    && CountsOf(bl, done, dl) && opt == BitCost(done, w, dl, extra) && st == BitCost(done, w, stat, extra)
  }

  lemma WalkStateStart(t: Merges, w: seq<nat>, dl: seq<nat>, max: nat, bl: seq<nat>, extra: seq<nat>, stat: seq<nat>)
    requires |w| == |dl| == |extra| == |stat| && max < |bl| && (forall b :: 0 <= b < |bl| ==> bl[b] == 0)
    requires Complete(t) && Dads(t, dl) && t.elems + |t.left| <= |dl| && max >= 1
    ensures |t.left| == |t.right|
    ensures WalkState(t, {}, 2 * |t.left|, w, dl[t.elems + |t.left| - 1 := 0], max, 0, bl, extra, stat, 0, 0)
  {
    hide Walking, CountsOf, BitCost, Proper, Roots, Dads;
    var dl' := dl[t.elems + |t.left| - 1 := 0];
    WalkStart(t, dl, max);
    TallyNothing(w, dl', extra, bl);
    TallyNothing(w, stat, extra, bl);
  }

  lemma WalkNext(t: Merges, done: set<nat>, q: nat, w: seq<nat>, dl: seq<nat>, max: nat, over: nat, bl: seq<nat>,
                 extra: seq<nat>, stat: seq<nat>, opt: int, st: int)
    requires WalkState(t, done, q, w, dl, max, over, bl, extra, stat, opt, st) && q >= 1
    ensures Proper(t) && |t.left| == |t.right| && q <= 2 * |t.left|
    ensures NodeAt(t, q - 1) < |dl| && dl[NodeAt(t, q - 1)] < |dl|
  {
    hide Proper, Roots, CountsOf, BitCost, Tallied;
    WalkStep(t, dl, max, q);
  }

  lemma WalkStateStep(t: Merges, done: set<nat>, q: nat, w: seq<nat>, dl: seq<nat>, max: nat, over: nat, bl: seq<nat>,
                      extra: seq<nat>, stat: seq<nat>, opt: int, st: int, n: nat, bits: nat, over': nat)
    requires WalkState(t, done, q, w, dl, max, over, bl, extra, stat, opt, st) && q >= 1
    requires |t.left| == |t.right| && q <= 2 * |t.left| && n == NodeAt(t, q - 1)
    requires n < |dl| && dl[n] < |dl| && bits == Clip(dl[dl[n]], max)
    requires over' == over + if dl[dl[n]] + 1 > max then 1 else 0
    ensures bits <= max && bits < |bl|
    ensures n !in t.leaves ==>
      WalkState(t, done, q - 1, w, dl[n := bits], max, over', bl, extra, stat, opt, st)
    ensures n in t.leaves ==>
      WalkState(t, done + {n}, q - 1, w, dl[n := bits], max, over', bl[bits := bl[bits] + 1], extra, stat,
                opt + w[n] * (bits + extra[n]), st + w[n] * (stat[n] + extra[n]))
  {
    hide Walking, CountsOf, BitCost, Tallied, Complete;
    WalkProper(t, dl, max, q);
    WalkStep(t, dl, max, q);
    TallyStep(t, done, q);
    WalkOver(t, dl, max, q, n, bits);
    if n in t.leaves {
      TallyLeaf(done, w, dl, extra, n, bits);
      assert stat[n := stat[n]] == stat;
      TallyLeaf(done, w, stat, extra, n, stat[n]);
      TallyCounts(bl, done, dl, n, bits);
    } else {
      TallyInner(bl, done, w, dl, extra, n, bits);
    }
  }

  lemma WalkProper(t: Merges, dl: seq<nat>, max: nat, q: nat)
    requires Walking(t, dl, max, q)
    ensures Proper(t) && |t.left| == |t.right| && t.elems + |t.left| <= |dl|
  {
  }

  lemma WalkOver(t: Merges, dl: seq<nat>, max: nat, q: nat, n: nat, bits: nat)
    requires 1 <= q <= 2 * |t.left| && t.elems + |t.left| <= |dl| && n < t.elems + (q - 1) / 2
    ensures OverFrom(t, dl[n := bits], max, q - 1)
         == OverFrom(t, dl, max, q) + if dl[t.elems + (q - 1) / 2] + 1 > max then 1 else 0
  {
    OverFrame(t, dl, n, bits, max, q);
  }

  lemma WalkStateEnd(t: Merges, done: set<nat>, w: seq<nat>, dl: seq<nat>, max: nat, over: nat, bl: seq<nat>,
                     extra: seq<nat>, stat: seq<nat>, opt: int, st: int)
    requires WalkState(t, done, 0, w, dl, max, over, bl, extra, stat, opt, st)
    ensures done == t.leaves && Clipped(t, dl, max) && over == 2 * Over(t, dl, max, 0)
  {
    hide Walking, CountsOf, BitCost, Tallied, Complete;
    WalkProper(t, dl, max, 0);
    WalkComplete(t, dl, max, 0);
    WalkEnd(t, dl, max);
    TallyEnd(t, done);
    OverPairs(t, dl, max, 0);
  }

  lemma WalkComplete(t: Merges, dl: seq<nat>, max: nat, q: nat)
    requires Walking(t, dl, max, q)
    ensures Complete(t)
  {
  }

  lemma WalkStateSums(t: Merges, done: set<nat>, w: seq<nat>, dl: seq<nat>, max: nat, over: nat, bl: seq<nat>,
                      extra: seq<nat>, stat: seq<nat>, opt: int, st: int)
    requires WalkState(t, done, 0, w, dl, max, over, bl, extra, stat, opt, st)
    ensures |w| == |dl| == |extra| == |stat|
    ensures CountsOf(bl, done, dl) && opt == BitCost(done, w, dl, extra) && st == BitCost(done, w, stat, extra)
  {
  }

  lemma AssignProper(t: Merges, vis: set<nat>, q: nat, dl: seq<nat>, bl: seq<nat>, max: nat, bits: nat, n: nat)
    requires Assigned(t, vis, q, dl, bl, max, bits, n)
    ensures Proper(t) && |t.left| == |t.right|
  {
  }

  /** The lengths of a complete prefix code of at most `max` bits. */
  ghost predicate CompleteCode(leaves: set<nat>, lens: seq<nat>, max: nat)
  {
    && InRange(leaves, |lens|) && (forall x :: x in leaves ==> 1 <= lens[x] <= max)
    && Kraft(leaves, lens, max) == Pow2(max)
  }

  /** No feasible code lengths cost less. */
  ghost predicate OptimalLens(leaves: set<nat>, w: seq<nat>, lens: seq<nat>)
  {
    && |w| == |lens|
    && forall alt: seq<nat>, L: nat :: |alt| == |w| && Feasible(leaves, alt, L) ==>
        Cost(leaves, w, lens) <= Cost(leaves, w, alt)
  }

  lemma ClippedRange(t: Merges, lens: seq<nat>, max: nat)
    requires Clipped(t, lens, max)
    ensures InRange(t.leaves, |lens|) && forall x :: x in t.leaves ==> 1 <= lens[x] <= max
  {
    hide Proper, Roots;
    CompleteSize(t);
    ProperSizes(t);
    forall x | x in t.leaves
      ensures 1 <= lens[x] <= max
    {
      var q := LeafPlace(t, x);
      assert SonsRange(t, q / 2);
    }
  }

  /** The first pass leaves the counts ready for the repair. */
  lemma RepairStart(t: Merges, lens: seq<nat>, max: nat, bl: seq<nat>)
    requires Clipped(t, lens, max) && CountsOf(bl, t.leaves, lens) && max < |bl| && |t.leaves| <= Pow2(max)
    ensures Repairing(bl, max, Over(t, lens, max, 0), |t.leaves|)
  {
    hide Proper, Complete, CountLen, Kraft, Used, TotalCount, Pow2;
    ClippedRange(t, lens, max);
    ClippedKraft(t, lens, max, 0);
    ClippedDeepest(t, lens, max, 0);
    UsedIsKraft(bl, t.leaves, lens, max);
    TotalIsSize(bl, t.leaves, lens, max);
    CountNone(t.leaves, lens, 0);
    forall b | max < b < |bl|
      ensures bl[b] == 0
    {
      CountNone(t.leaves, lens, b);
    }
  }

  lemma RepairEnd(bl: seq<nat>, max: nat, leaves: set<nat>, lens: seq<nat>)
    requires Repairing(bl, max, 0, |leaves|) && CountsOf(bl, leaves, lens)
    requires InRange(leaves, |lens|) && forall x :: x in leaves ==> 1 <= lens[x] <= max
    ensures CompleteCode(leaves, lens, max)
  {
    hide Kraft, Used, CountsOf, TotalCount, Pow2;
    UsedIsKraft(bl, leaves, lens, max);
  }

  lemma ExactCode(t: Merges, lens: seq<nat>, max: nat)
    requires Clipped(t, lens, max) && Over(t, lens, max, 0) == 0
    ensures CompleteCode(t.leaves, lens, max)
  {
    hide Kraft, Clipped;
    ClippedRange(t, lens, max);
    ClippedKraft(t, lens, max, 0);
  }

  lemma ExactOptimal(t: Merges, w: seq<nat>, lens: seq<nat>, max: nat)
    requires Clipped(t, lens, max) && Over(t, lens, max, 0) == 0 && Summed(t, w) && Greedy(t, w) && |w| == |lens|
    ensures OptimalLens(t.leaves, w, lens)
  {
    hide Clipped, Summed, Greedy, Cost, Feasible;
    forall alt: seq<nat>, L: nat | |alt| == |w| && Feasible(t.leaves, alt, L)
      ensures Cost(t.leaves, w, lens) <= Cost(t.leaves, w, alt)
    {
      HuffmanOptimal(t, w, lens, max, alt, L);
    }
  }

  /** Optimal lengths never give the rarer of two leaves the shorter code. */
  lemma OptimalMonotone(leaves: set<nat>, w: seq<nat>, lens: seq<nat>, max: nat)
    requires CompleteCode(leaves, lens, max) && OptimalLens(leaves, w, lens)
    ensures Monotone(leaves, w, lens)
  {
    hide Cost, Kraft, Feasible;
    forall a, b | a in leaves && b in leaves && a < |w| && b < |w| && a < |lens| && b < |lens| && w[a] < w[b]
      ensures lens[a] >= lens[b]
    {
      if lens[a] < lens[b] {
        var alt := SwapCheaper(leaves, w, lens, max, a, b);
      }
    }
  }

  lemma SwapCheaper(leaves: set<nat>, w: seq<nat>, lens: seq<nat>, max: nat, a: nat, b: nat) returns (alt: seq<nat>)
    requires CompleteCode(leaves, lens, max) && |w| == |lens| && a in leaves && b in leaves
    requires w[a] < w[b] && lens[a] < lens[b]
    ensures |alt| == |w| && Feasible(leaves, alt, max) && Cost(leaves, w, alt) < Cost(leaves, w, lens)
  {
    hide Cost, Kraft;
    var mid := lens[a := lens[b]];
    alt := mid[b := lens[a]];
    KraftUpdate(leaves, lens, max, a, lens[b]);
    KraftUpdate(leaves, mid, max, b, lens[a]);
    CostUpdate(leaves, w, lens, a, lens[b]);
    CostUpdate(leaves, w, mid, b, lens[a]);
    StrictProducts(w[a], w[b], lens[a], lens[b]);
  }

  lemma StrictProducts(x: nat, y: nat, a: nat, b: nat)
    requires x < y && a < b
    ensures x * b + y * a < x * a + y * b
  {
    assert (y - x) * (b - a) > 0;
    assert (y - x) * (b - a) == y * b - y * a - x * b + x * a;
  }

  /** Optimal lengths cost no more than those of any prefix code on the same leaves. */
  lemma OptimalAmongPrefixCodes(leaves: set<nat>, w: seq<nat>, lens: seq<nat>, words: seq<seq<bool>>, alt: seq<nat>,
                                L: nat)
    requires OptimalLens(leaves, w, lens) && PrefixFree(leaves, words, alt) && |alt| == |w|
    requires forall i :: i in leaves ==> alt[i] <= L
    ensures Cost(leaves, w, lens) <= Cost(leaves, w, alt)
  {
    hide Cost;
    KraftInequality(leaves, words, alt, L);
  }
}
