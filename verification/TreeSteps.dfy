/** The steps of build_tree on values: what the loops over the heap keep. */
module TreeSteps {
  import opened PrefixCodes
  import opened HeapOrder
  import opened HuffmanTrees
  import opened Shallow

  /** The fields the merge loop works on. */
  datatype Fields = Fields(heap: seq<nat>, fc: seq<nat>, depth: seq<nat>, dl: seq<nat>)

  /** The array hh holds the heap h, with a hole at k where h has v. */
  ghost predicate Hole(hh: seq<nat>, h: seq<nat>, k: nat, v: nat)
  {
    |hh| == |h| && k < |h| && h[k] == v && forall i :: 0 <= i < |h| && i != k ==> hh[i] == h[i]
  }

  lemma SiftBegin(keys: Keys, h: seq<nat>, len: nat, k: nat)
    requires 1 <= k <= len && Ordered(keys, h, len, k + 1)
    ensures len < |h| && SiftState(keys, h, h, len, k, k) && Hole(h, h, k, h[k])
  {
    SiftStart(keys, h, len, k);
  }

  lemma HeapifyStart(keys: Keys, h: seq<nat>, len: nat)
    requires AllKnown(keys, h, len)
    ensures Ordered(keys, h, len, len / 2 + 1) && Rearranged(h, h, len)
  {
    LeavesOrdered(keys, h, len, len / 2 + 1);
  }

  lemma FatheredBy(w: seq<nat>, dl: seq<nat>, n: nat, m: nat, node: nat)
    requires |w| == |dl| && n < |w| && m < |w| && node < |w|
    ensures Fathered(w, w[node := w[n] + w[m]], dl, dl[n := node][m := node], n, m, node)
  {
  }

  lemma HoleKnown(keys: Keys, hh: seq<nat>, h: seq<nat>, len: nat, k: nat, v: nat, f: nat, d: nat)
    requires Hole(hh, h, k, v) && AllKnown(keys, h, len) && 1 <= k <= len
    requires |keys.freq| == f && |keys.depth| == d
    ensures v < f && v < d && h[k] == v && Known(keys, v)
    ensures forall n: nat :: Known(keys, n) ==> n < f && n < d
  {
  }

  lemma HoleFilled(hh: seq<nat>, h: seq<nat>, k: nat, v: nat)
    requires Hole(hh, h, k, v)
    ensures k < |hh| && hh[k := v] == h
  {
  }

  lemma HoleMoves(hh: seq<nat>, h: seq<nat>, k: nat, j: nat, v: nat)
    requires Hole(hh, h, k, v) && k < |h| && j < |h| && k != j
    ensures k < |hh| && j < |hh| && Hole(hh[k := hh[j]], Swap(h, k, j), j, v)
  {
  }

  /** The symbols below n with a non-zero frequency. */
  ghost function LeavesTo(f: seq<nat>, n: nat): set<nat>
  {
    set x: nat | x < n && x < |f| && f[x] != 0
  }

  /** The queue holds exactly the given nodes, once each, all below n. */
  ghost predicate Holds(h: seq<nat>, len: nat, nodes: set<nat>, n: nat)
  {
    && len < |h|
    && (forall i :: 1 <= i <= len ==> h[i] < n)
    && Queued(h, len) == multiset(nodes)
  }

  ghost predicate Highest(maxCode: int, leaves: set<nat>, n: nat)
  {
    && -1 <= maxCode < n
    && (maxCode >= 0 ==> maxCode in leaves)
    && forall x :: x in leaves ==> x <= maxCode
  }

  /** What lines 632-639 have done for the symbols below n. */
  ghost predicate Collected(h: seq<nat>, len: nat, f: seq<nat>, dl: seq<nat>, n: nat, maxCode: int)
  {
    && len <= n && Holds(h, len, LeavesTo(f, n), n) && Highest(maxCode, LeavesTo(f, n), n)
    && forall i :: 0 <= i < n && i < |f| && i < |dl| && f[i] == 0 ==> dl[i] == 0
  }

  lemma CollectStart(h: seq<nat>, f: seq<nat>, dl: seq<nat>)
    requires |h| > 0
    ensures Collected(h, 0, f, dl, 0, -1)
  {
  }

  lemma CollectZero(h: seq<nat>, len: nat, f: seq<nat>, dl: seq<nat>, n: nat, maxCode: int)
    requires n < |f| && n < |dl| && Collected(h, len, f, dl, n, maxCode) && f[n] == 0
    ensures Collected(h, len, f, dl[n := 0], n + 1, maxCode)
  {
    assert LeavesTo(f, n + 1) == LeavesTo(f, n);
  }

  lemma CollectOne(h: seq<nat>, len: nat, f: seq<nat>, dl: seq<nat>, n: nat, maxCode: int)
    requires n < |f| && n + 1 < |h| && Collected(h, len, f, dl, n, maxCode) && f[n] != 0
    ensures len + 1 < |h| && Collected(h[len + 1 := n], len + 1, f, dl, n + 1, n)
  {
    hide Queued;
    assert LeavesTo(f, n + 1) == LeavesTo(f, n) + {n};
    QueuedAppend(h, len, n);
  }

  /** `f` is `f0` with frequency 1 given to the symbols in `forced`, which did not occur. */
  ghost predicate Forced(f0: seq<nat>, f: seq<nat>, forced: set<nat>)
  {
    && |f| == |f0|
    && (forall x :: x in forced ==> x < 3 && x < |f| && f0[x] == 0 && f[x] == 1)
    && (forall x :: 0 <= x < |f| && x !in forced ==> f[x] == f0[x])
  }

  lemma HoldsSize(h: seq<nat>, len: nat, nodes: set<nat>, n: nat)
    requires Holds(h, len, nodes, n)
    ensures |nodes| == len
  {
    assert |Queued(h, len)| == len;
    assert |multiset(nodes)| == |nodes|;
  }

  /** The symbol that line 647 forces does not occur yet. */
  lemma ForceFresh(h: seq<nat>, len: nat, f: seq<nat>, elems: nat, maxCode: int)
    requires 3 <= elems <= |f| && len < 2
    requires Holds(h, len, LeavesTo(f, elems), elems) && Highest(maxCode, LeavesTo(f, elems), elems)
    ensures var node := if maxCode < 2 then maxCode + 1 else 0; 0 <= node < 3 && f[node] == 0
  {
    HoldsSize(h, len, LeavesTo(f, elems), elems);
    assert maxCode < 2 ==> maxCode + 1 !in LeavesTo(f, elems);
    if maxCode >= 2 && f[0] != 0 {
      assert {0, maxCode} <= LeavesTo(f, elems);
      SubsetSize({0, maxCode}, LeavesTo(f, elems));
    }
  }

  lemma SubsetSize(a: set<nat>, b: set<nat>)
    requires a <= b
    ensures |a| <= |b|
  {
    assert b == a + (b - a);
  }

  lemma ForceForced(f0: seq<nat>, f: seq<nat>, forced: set<nat>, node: nat)
    requires Forced(f0, f, forced) && node < 3 && node < |f| && f[node] == 0
    ensures node !in forced && Forced(f0, f[node := 1], forced + {node})
  {
  }

  lemma ForceLeaves(f: seq<nat>, elems: nat, node: nat, h: seq<nat>, len: nat)
    requires node < elems <= |f| && f[node] == 0 && len + 1 < |h| && Holds(h, len, LeavesTo(f, elems), elems)
    ensures LeavesTo(f[node := 1], elems) == LeavesTo(f, elems) + {node} && node !in LeavesTo(f, elems)
    ensures Holds(h[len + 1 := node], len + 1, LeavesTo(f, elems) + {node}, elems)
  {
    assert LeavesTo(f[node := 1], elems) == LeavesTo(f, elems) + {node};
    QueuedAppend(h, len, node);
  }

  lemma StaticSumNone(staticLens: seq<nat>)
    requires staticLens == [] || |staticLens| >= 3
    ensures StaticSum(staticLens, {}) == 0
  {
  }

  /** What lines 646-653 keep: f0 are the frequencies before any symbol was forced. */
  ghost predicate Forcing(h: seq<nat>, len0: nat, len: nat, f0: seq<nat>, f: seq<nat>, forced: set<nat>,
                          elems: nat, maxCode: int)
  {
    && Forced(f0, f, forced) && Holds(h, len, LeavesTo(f, elems), elems)
    && Highest(maxCode, LeavesTo(f, elems), elems)
    && len == len0 + |forced| && (len0 >= 2 ==> len == len0) && (len0 < 2 ==> len <= 2)
  }

  lemma ForceStart(h: seq<nat>, len: nat, f: seq<nat>, elems: nat, maxCode: int)
    requires Holds(h, len, LeavesTo(f, elems), elems) && Highest(maxCode, LeavesTo(f, elems), elems)
    ensures Forcing(h, len, len, f, f, {}, elems, maxCode) && maxCode >= -1
  {
  }

  lemma ForceStep(h: seq<nat>, len0: nat, len: nat, f0: seq<nat>, f: seq<nat>, forced: set<nat>,
                  elems: nat, maxCode: int, node: nat)
    requires 3 <= elems <= |f| && len < 2 && 3 < |h| && Forcing(h, len0, len, f0, f, forced, elems, maxCode)
    requires node == if maxCode < 2 then maxCode + 1 else 0
    ensures node < 3 && node !in forced
    ensures Forcing(h[len + 1 := node], len0, len + 1, f0, f[node := 1], forced + {node}, elems,
                    if maxCode < 2 then maxCode + 1 else maxCode)
  {
    hide Holds, Forced, LeavesTo;
    ForceFresh(h, len, f, elems, maxCode);
    ForceForced(f0, f, forced, node);
    ForceLeaves(f, elems, node, h, len);
  }

  /** The static code lengths of the forced symbols, all below 3. */
  ghost function StaticSum(staticLens: seq<nat>, forced: set<nat>): int
    requires staticLens == [] || |staticLens| >= 3
  {
    if staticLens == [] then 0 else
    (if 0 in forced then staticLens[0] else 0)
    + (if 1 in forced then staticLens[1] else 0)
    + (if 2 in forced then staticLens[2] else 0)
  }

  lemma StaticSumStep(staticLens: seq<nat>, forced: set<nat>, node: nat)
    requires staticLens == [] || |staticLens| >= 3
    requires node < 3 && node !in forced
    ensures StaticSum(staticLens, forced + {node})
         == StaticSum(staticLens, forced) + if staticLens == [] then 0 else staticLens[node]
  {
  }

  /** The array has not changed from position p on. */
  ghost predicate Above(h: seq<nat>, h': seq<nat>, p: nat)
  {
    |h'| == |h| && forall i :: p <= i < |h| ==> h'[i] == h[i]
  }

  ghost predicate SetAside(h: seq<nat>, p: nat, n: nat, m: nat)
  {
    2 <= p <= |h| && h[p - 1] == n && h[p - 2] == m
  }

  /** The first node, `top`, has left the queue h. */
  ghost predicate Removed(h: seq<nat>, h': seq<nat>, len: nat, top: nat)
  {
    && 2 <= len < |h| && top == h[1] && Above(h, h', len)
    && Queued(h', len - 1) == Queued(h, len) - multiset{top}
  }

  /** The first node, m, and n have been set aside for the array's end, and `node` takes m's place. */
  ghost predicate Joined(h: seq<nat>, h': seq<nat>, len: nat, p: nat, n: nat, m: nat, node: nat)
  {
    && 1 <= len < |h| && m == h[1] && Above(h, h', p) && SetAside(h', p, n, m)
    && Queued(h', len) == Queued(h, len) - multiset{m} + multiset{node}
  }

  /** The father's frequency, and the sons' father. */
  ghost predicate Fathered(w: seq<nat>, w': seq<nat>, dl: seq<nat>, dl': seq<nat>, n: nat, m: nat, node: nat)
  {
    && |w| == |dl| && n < |w| && m < |w| && node < |w|
    && w' == w[node := w[n] + w[m]] && dl' == dl[n := node][m := node]
  }

  /** The father's depth field. */
  ghost predicate Deeper(d: seq<nat>, d': seq<nat>, n: nat, m: nat, node: nat)
  {
    n < |d| && m < |d| && node < |d| && d' == d[node := DepthField(d[n], d[m])]
  }

  /** The depth fields of the symbols in use are zero. */
  ghost predicate ZeroDepths(f: seq<nat>, d: seq<nat>, elems: nat)
  {
    forall i :: 0 <= i < elems && i < |f| && i < |d| && f[i] != 0 ==> d[i] == 0
  }

  lemma RemoveStart(keys: Keys, h: seq<nat>, len: nat)
    requires 2 <= len && Ordered(keys, h, len, 1)
    ensures len < |h| && Ordered(keys, h[1 := h[len]], len - 1, 2)
  {
    OrderedLastFirst(keys, h, len);
  }

  lemma RemovedBy(h0: seq<nat>, h: seq<nat>, len: nat)
    requires 2 <= len < |h0| && Rearranged(h0[1 := h0[len]], h, len - 1)
    ensures Removed(h0, h, len, h0[1])
  {
    QueuedRemove(h0, len);
  }

  lemma FirstKnown(keys: Keys, h: seq<nat>, len: nat, f: nat, d: nat)
    requires Ordered(keys, h, len, 1) && 1 <= len && |keys.freq| == f && |keys.depth| == d
    ensures len < |h| && h[1] < f && h[1] < d
  {
  }

  lemma JoinedBy(h0: seq<nat>, h: seq<nat>, len: nat, p: nat, n: nat, node: nat)
    requires 1 <= len && len + 2 < p <= |h0|
    requires Rearranged(h0[p - 1 := n][p - 2 := h0[1]][1 := node], h, len)
    ensures Joined(h0, h, len, p, n, h0[1], node)
  {
    var h1 := h0[p - 1 := n][p - 2 := h0[1]][1 := node];
    QueuedReplace(h0, len, node);
    QueuedFrame(h0[1 := node], h1, len);
  }

  /** The queue after lines 668-683, before the last sift-down. */
  lemma JoinOrder(h0: seq<nat>, w: seq<nat>, d: seq<nat>, len: nat, p: nat, n: nat, node: nat, f: nat, dd: nat)
    requires 1 <= len && len + 2 < p <= |h0| && Ordered(Keys(w, d), h0, len, 1)
    requires node < |w| <= |d| && forall i :: 1 <= i <= len ==> h0[i] != node
    ensures Ordered(Keys(w[node := f], d[node := dd]), h0[p - 1 := n][p - 2 := h0[1]][1 := node], len, 2)
  {
    OrderedNewFirst(Keys(w, d), Keys(w[node := f], d[node := dd]), h0,
                    h0[p - 1 := n][p - 2 := h0[1]][1 := node], len);
  }

  /** What the merge loop keeps about the tree built so far: w0 are the frequencies it
      started from, w and dl the current Freq and Dad fields, h the heap array. */
  ghost predicate Built(t: Merges, w0: seq<nat>, w: seq<nat>, dl: seq<nat>, h: seq<nat>)
  {
    && |w| == |w0| == |dl| && Summed(t, w) && Dads(t, dl) && Layout(t, h) && Greedy(t, w)
    && forall x :: 0 <= x < t.elems && x < |w| ==> w[x] == w0[x]
  }

  lemma BuiltStart(t: Merges, w: seq<nat>, dl: seq<nat>, h: seq<nat>)
    requires |w| == |dl| && t.left == [] && t.right == [] && t.elems <= |w| && InRange(t.leaves, t.elems)
    ensures Built(t, w, w, dl, h)
  {
  }

  /** In a queue that holds `nodes`, the first node and the first one after its removal
      are the two lightest. */
  lemma TopTwo(nodes: set<nat>, w: seq<nat>, d: seq<nat>, h: seq<nat>, len: nat, h1: seq<nat>)
    requires 2 <= len && Ordered(Keys(w, d), h, len, 1) && Queued(h, len) == multiset(nodes)
    requires Ordered(Keys(w, d), h1, len - 1, 1) && Queued(h1, len - 1) == multiset(nodes) - multiset{h[1]}
    ensures TwoLightest(nodes, w, h[1], h1[1])
    ensures |w| <= |d| ==> TwoSmallest(nodes, w, d, h[1], h1[1])
  {
    hide Queued;
    QueuedMember(h, len, 1);
    QueuedMember(h1, len - 1, 1);
    forall i | i in nodes
      ensures Known(Keys(w, d), i) && Smaller(Keys(w, d), h[1], i)
    {
      assert i in Queued(h, len);
      var p := MemberQueued(h, len, i);
      FirstIsSmallest(Keys(w, d), h, len, p);
    }
    forall i | i in nodes && i != h[1]
      ensures Smaller(Keys(w, d), h1[1], i)
    {
      assert i in Queued(h1, len - 1);
      var p := MemberQueued(h1, len - 1, i);
      FirstIsSmallest(Keys(w, d), h1, len - 1, p);
    }
  }

  /** One merge keeps what the loop keeps. */
  lemma BuiltStep(t: Merges, w0: seq<nat>, w: seq<nat>, dl: seq<nat>, h: seq<nat>, h1: seq<nat>, n: nat, m: nat,
                  w': seq<nat>, dl': seq<nat>, h': seq<nat>)
    requires Built(t, w0, w, dl, h) && TwoLightest(Roots(t, |t.left|), w, n, m)
    requires t.elems + |t.left| < |w| && w' == w[t.elems + |t.left| := w[n] + w[m]]
    requires dl' == dl[n := t.elems + |t.left|][m := t.elems + |t.left|]
    requires 2 * |t.left| + 2 <= |h| && Above(h, h1, |h| - 2 * |t.left|) && Above(h1, h', |h| - 2 * |t.left|)
    requires SetAside(h', |h| - 2 * |t.left|, n, m)
    ensures Built(Extend(t, n, m), w0, w', dl', h')
  {
    hide Roots, Proper, WeightTo, Summed, Dads, Layout, Greedy;
    SummedProper(t, w);
    ExtendGreedy(t, w, n, m, w[n] + w[m]);
    ExtendSummed(t, w, n, m);
    ExtendDads(t, dl, n, m);
    ExtendLayout(t, h, h', n, m);
  }

  lemma SummedProper(t: Merges, w: seq<nat>)
    requires Summed(t, w)
    ensures Proper(t) && t.elems + |t.left| <= |w|
  {
  }

  ghost predicate Queues(t: Merges, h: seq<nat>, len: nat)
  {
    Proper(t) && len < |h| && Queued(h, len) == multiset(Roots(t, |t.left|))
  }

  lemma QueuesProper(t: Merges, h: seq<nat>, len: nat)
    requires Queues(t, h, len)
    ensures Proper(t) && |t.left| == |t.right| && len < |h|
  {
  }

  lemma QueueStep(t: Merges, h: seq<nat>, len: nat, h1: seq<nat>, h2: seq<nat>, p: nat, n: nat, m: nat)
    requires Queues(t, h, len) && len >= 1 && Removed(h, h1, len, n)
    requires Joined(h1, h2, len - 1, p, n, m, t.elems + |t.left|)
    requires n != m && n in Roots(t, |t.left|) && m in Roots(t, |t.left|)
    ensures Queues(Extend(t, n, m), h2, len - 1)
  {
    hide Roots, Proper, Merged, Queued, Removed, Joined;
    ProperSizes(t);
    RootsRange(t, |t.left|);
    ExtendProper(t, n, m);
    QueueMerged(Roots(t, |t.left|), h, h1, h2, len, p, n, m, t.elems + |t.left|);
    assert |Extend(t, n, m).left| == |t.left| + 1;
  }

  lemma QueueMerged(r: set<nat>, h: seq<nat>, h1: seq<nat>, h2: seq<nat>, len: nat, p: nat, n: nat, m: nat, node: nat)
    requires len < |h| && Queued(h, len) == multiset(r)
    requires Removed(h, h1, len, n) && Joined(h1, h2, len - 1, p, n, m, node)
    requires n in r && m in r && n != m && node !in r
    ensures len - 1 < |h2| && Queued(h2, len - 1) == multiset(Merged(r, n, m, node))
  {
    hide Queued, Merged;
    MultisetMerged(r, n, m, node);
  }

  lemma MultisetMerged(r: set<nat>, n: nat, m: nat, node: nat)
    requires n in r && m in r && n != m && node !in r
    ensures multiset(r) - multiset{n} - multiset{m} + multiset{node} == multiset(Merged(r, n, m, node))
  {
  }

  /** The queue has come down to the root. */
  lemma QueueEnd(t: Merges, h: seq<nat>)
    requires Queues(t, h, 1) && |t.left| >= 1
    ensures Complete(t) && h[1] == t.elems + |t.left| - 1
  {
    hide Proper, Roots;
    RootsBack(t, |t.left| - 1);
    assert h[1..2] == [h[1]];
    assert t.elems + |t.left| - 1 in multiset(Roots(t, |t.left|));
    assert multiset(Roots(t, |t.left|)) == multiset{h[1]};
    assert Roots(t, |t.left|) == {t.elems + |t.left| - 1} by {
      forall x ensures x in Roots(t, |t.left|) <==> x == h[1] {
        assert x in multiset(Roots(t, |t.left|)) <==> x in multiset{h[1]};
      }
    }
  }

  lemma BuiltFrame(t: Merges, w0: seq<nat>, w: seq<nat>, dl: seq<nat>, h: seq<nat>, h': seq<nat>)
    requires Built(t, w0, w, dl, h) && 2 * |t.left| <= |h| && Above(h, h', |h| - 2 * |t.left|)
    ensures Built(t, w0, w, dl, h')
  {
  }

  /** The invariant of the merge loop. */
  ghost predicate Merging(t: Merges, w0: seq<nat>, s: Fields, len: nat)
  {
    && Ordered(Keys(s.fc, s.depth), s.heap, len, 1) && Queues(t, s.heap, len)
    && Built(t, w0, s.fc, s.dl, s.heap) && Tied(t, s.fc, s.depth) && |s.fc| <= |s.depth|
  }

  /** Symbols without a code keep their dl field. */
  ghost predicate SameUnused(elems: nat, leaves: set<nat>, dl: seq<nat>, dl': seq<nat>)
  {
    |dl'| == |dl| && forall x :: 0 <= x < elems && x < |dl| && x !in leaves ==> dl'[x] == dl[x]
  }

  lemma MergeBegin(t: Merges, w0: seq<nat>, s: Fields, len: nat)
    requires Merging(t, w0, s, len)
    ensures Ordered(Keys(s.fc, s.depth), s.heap, len, 1) && |s.fc| == |s.dl|
  {
  }

  /** After pqremove: what Join needs. */
  lemma MergeTwo(t: Merges, w0: seq<nat>, s: Fields, len: nat, h1: seq<nat>, n: nat)
    requires Merging(t, w0, s, len) && Removed(s.heap, h1, len, n)
    requires Ordered(Keys(s.fc, s.depth), h1, len - 1, 1)
    ensures |h1| == |s.heap| && len < |h1| && n < |s.fc|
    ensures TwoLightest(Roots(t, |t.left|), s.fc, n, h1[1])
    ensures TwoSmallest(Roots(t, |t.left|), s.fc, s.depth, n, h1[1])
    ensures forall i :: 1 <= i <= len - 1 ==> h1[i] != t.elems + |t.left|
  {
    hide Roots, Proper, Queued, Ordered, Built, TwoLightest, Above, Tied, TwoSmallest;
    ProperSizes(t);
    RemovedSizes(s.heap, h1, len, n);
    TopTwo(Roots(t, |t.left|), s.fc, s.depth, s.heap, len, h1);
    LightestTwo(Roots(t, |t.left|), s.fc, n, h1[1]);
    RootsRange(t, |t.left|);
    FirstFew(Roots(t, |t.left|), h1, len - 1, t.elems + |t.left|);
  }

  lemma MergeStep(t: Merges, w0: seq<nat>, s: Fields, len: nat, h1: seq<nat>, n: nat, m: nat, s': Fields)
    requires Merging(t, w0, s, len) && Removed(s.heap, h1, len, n)
    requires Ordered(Keys(s.fc, s.depth), h1, len - 1, 1) && Ordered(Keys(s'.fc, s'.depth), s'.heap, len - 1, 1)
    requires len <= |s.heap| - 2 * |t.left| && 2 * |t.left| + 2 <= |s.heap|
    requires Joined(h1, s'.heap, len - 1, |s.heap| - 2 * |t.left|, n, m, t.elems + |t.left|)
    requires Fathered(s.fc, s'.fc, s.dl, s'.dl, n, m, t.elems + |t.left|)
    requires Deeper(s.depth, s'.depth, n, m, t.elems + |t.left|)
    ensures Merging(Extend(t, n, m), w0, s', len - 1)
    ensures Extend(t, n, m).elems == t.elems && Extend(t, n, m).leaves == t.leaves
    ensures |Extend(t, n, m).left| == |t.left| + 1
    ensures SameUnused(t.elems, t.leaves, s.dl, s'.dl)
  {
    hide Proper, Roots, TwoLightest, Above, SetAside, Queues, Built, Ordered, Queued, Tied, TwoSmallest;
    QueuesProper(t, s.heap, len);
    MergeTwo(t, w0, s, len, h1, n);
    RootsRange(t, |t.left|);
    LightestTwo(Roots(t, |t.left|), s.fc, n, m);
    AboveMore(s.heap, h1, len, |s.heap| - 2 * |t.left|);
    QueueStep(t, s.heap, len, h1, s'.heap, |s.heap| - 2 * |t.left|, n, m);
    BuiltStep(t, w0, s.fc, s.dl, s.heap, h1, n, m, s'.fc, s'.dl, s'.heap);
    ExtendTied(t, s.fc, s.depth, n, m, s.fc[n] + s.fc[m]);
  }

  lemma RemovedSizes(h: seq<nat>, h1: seq<nat>, len: nat, n: nat)
    requires Removed(h, h1, len, n)
    ensures |h1| == |h|
  {
  }

  lemma AboveMore(h: seq<nat>, h': seq<nat>, p: nat, q: nat)
    requires Above(h, h', p) && p <= q
    ensures Above(h, h', q)
  {
  }

  lemma LightestTwo(nodes: set<nat>, w: seq<nat>, n: nat, m: nat)
    requires TwoLightest(nodes, w, n, m)
    ensures n in nodes && m in nodes && n != m && n < |w| && m < |w|
  {
  }

  lemma FirstFew(r: set<nat>, h: seq<nat>, len: nat, node: nat)
    requires len < |h| && Queued(h, len) <= multiset(r) && InRange(r, node)
    ensures forall i :: 1 <= i <= len ==> h[i] != node
  {
    forall i | 1 <= i <= len
      ensures h[i] != node
    {
      QueuedMember(h, len, i);
      assert h[i] in multiset(r);
    }
  }

  lemma MergeStart(t: Merges, s: Fields, len: nat)
    requires t.left == [] && t.right == [] && 2 <= len && t.elems <= |s.fc| == |s.dl|
    requires Ordered(Keys(s.fc, s.depth), s.heap, len, 1) && Holds(s.heap, len, t.leaves, t.elems)
    requires t.leaves == LeavesTo(s.fc, t.elems) && ZeroDepths(s.fc, s.depth, t.elems) && |s.fc| <= |s.depth|
    ensures Merging(t, s.fc, s, len) && SameUnused(t.elems, t.leaves, s.dl, s.dl)
  {
    BuiltStart(t, s.fc, s.dl, s.heap);
    TiedStart(t, s.fc, s.depth);
  }

  lemma SameUnusedTrans(elems: nat, leaves: set<nat>, dl0: seq<nat>, dl1: seq<nat>, dl2: seq<nat>)
    requires SameUnused(elems, leaves, dl0, dl1) && SameUnused(elems, leaves, dl1, dl2)
    ensures SameUnused(elems, leaves, dl0, dl2)
  {
  }

  lemma MergeEnd(t: Merges, w0: seq<nat>, s: Fields)
    requires Merging(t, w0, s, 1) && |t.left| >= 1 && 2 * |t.left| + 1 <= |s.heap|
    ensures var h := s.heap[|s.heap| - 2 * |t.left| - 1 := s.heap[1]];
      Complete(t) && Built(t, w0, s.fc, s.dl, h) && s.heap[1] == t.elems + |t.left| - 1 && Tied(t, s.fc, s.depth)
  {
    QueueEnd(t, s.heap);
    BuiltFrame(t, w0, s.fc, s.dl, s.heap, s.heap[|s.heap| - 2 * |t.left| - 1 := s.heap[1]]);
  }

  lemma CollectedParts(h: seq<nat>, len: nat, f: seq<nat>, dl: seq<nat>, elems: nat, maxCode: int)
    requires Collected(h, len, f, dl, elems, maxCode) && elems <= |f| && elems <= |dl|
    ensures len <= elems && Holds(h, len, LeavesTo(f, elems), elems) && Highest(maxCode, LeavesTo(f, elems), elems)
    ensures |LeavesTo(f, elems)| == len
    ensures ZeroUnused(dl, LeavesTo(f, elems), elems)
  {
    HoldsSize(h, len, LeavesTo(f, elems), elems);
  }

  /** Symbols without a code have length 0. */
  ghost predicate ZeroUnused(dl: seq<nat>, leaves: set<nat>, elems: nat)
  {
    forall x :: 0 <= x < elems && x < |dl| && x !in leaves ==> dl[x] == 0
  }

  lemma ForcingParts(h: seq<nat>, len0: nat, len: nat, f0: seq<nat>, f: seq<nat>, d: seq<nat>, forced: set<nat>,
                     elems: nat, maxCode: int)
    requires Forcing(h, len0, len, f0, f, forced, elems, maxCode) && 3 <= elems <= |f| && |f| <= |d| && len0 <= elems
    ensures len <= elems && Holds(h, len, LeavesTo(f, elems), elems) && Highest(maxCode, LeavesTo(f, elems), elems)
    ensures LeavesTo(f, elems) == LeavesTo(f0, elems) + forced && LeavesTo(f0, elems) !! forced
    ensures Forced(f0, f, forced) && AllKnown(Keys(f, d), h, len)
    ensures |forced| == len - len0 && (len0 >= 2 ==> forced == {}) && (len >= 2 && len0 < 2 ==> len == 2)
  {
  }

  lemma HoldsRearranged(h: seq<nat>, h': seq<nat>, len: nat, nodes: set<nat>, n: nat)
    requires Holds(h, len, nodes, n) && Rearranged(h, h', len)
    ensures Holds(h', len, nodes, n)
  {
    forall i | 1 <= i <= len
      ensures h'[i] < n
    {
      QueuedMember(h', len, i);
      var j := MemberQueued(h, len, h'[i]);
    }
  }

  lemma BuiltParts(t: Merges, w0: seq<nat>, w: seq<nat>, dl: seq<nat>, h: seq<nat>)
    requires Built(t, w0, w, dl, h)
    ensures |w| == |w0| == |dl| && t.elems + |t.left| <= |w|
    ensures Summed(t, w) && Dads(t, dl) && Layout(t, h) && Greedy(t, w)
    ensures forall x :: 0 <= x < t.elems && x < |w| ==> w[x] == w0[x]
  {
  }

  lemma ForcedPrefix(f0: seq<nat>, f1: seq<nat>, w: seq<nat>, forced: set<nat>, elems: nat)
    requires Forced(f0, f1, forced) && |w| == |f1| && 3 <= elems <= |w|
    requires forall x :: 0 <= x < elems ==> w[x] == f1[x]
    ensures Forced(f0[..elems], w[..elems], forced)
    ensures forall x :: x in forced ==> x < 3 && w[x] == 1
  {
  }

  lemma UnusedStaysZero(dl0: seq<nat>, dl: seq<nat>, leaves0: set<nat>, leaves: set<nat>, elems: nat)
    requires ZeroUnused(dl0, leaves0, elems) && leaves0 <= leaves && SameUnused(elems, leaves, dl0, dl)
    ensures ZeroUnused(dl, leaves, elems)
  {
  }

  /** Taking the forced symbols, all of frequency 1, out of a cost. */
  lemma ForcedCost(occurring: set<nat>, forced: set<nat>, w: seq<nat>, lens: seq<nat>)
    requires |w| == |lens| && |lens| >= 3 && occurring !! forced
    requires forall x :: x in forced ==> x < 3 && w[x] == 1
    ensures Cost(occurring + forced, w, lens) == Cost(occurring, w, lens) + StaticSum(lens, forced)
  {
    hide Cost;
    var s0 := occurring + forced;
    CostChange(s0, w, lens, s0 - (forced * {0}), lens, 0);
    var s1 := s0 - (forced * {0});
    CostChange(s1, w, lens, s1 - (forced * {1}), lens, 1);
    var s2 := s1 - (forced * {1});
    CostChange(s2, w, lens, s2 - (forced * {2}), lens, 2);
    assert s2 - (forced * {2}) == occurring;
  }

  lemma ForcedOnes(lens: seq<nat>, forced: set<nat>)
    requires |lens| >= 3 && forall x :: x in forced ==> x < 3 && lens[x] == 1
    ensures StaticSum(lens, forced) == |forced|
  {
    var a := forced - {2};
    var b := a - {1};
    var c := b - {0};
    assert c == {};
    assert |b| == |c| + if 0 in b then 1 else 0;
    assert |a| == |b| + if 1 in a then 1 else 0;
    assert |forced| == |a| + if 2 in forced then 1 else 0;
  }

  lemma ForcedZeros(lens: seq<nat>, forced: set<nat>)
    requires |lens| >= 3 && forall x :: x in forced ==> x < 3 && lens[x] == 0
    ensures StaticSum(lens, forced) == 0
  {
  }
}
