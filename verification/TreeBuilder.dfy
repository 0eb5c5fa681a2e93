/** trees.c, building one Huffman tree: the heap of build_tree and the merge loop. */
module TreeBuilder {
  import opened Powers
  import opened PrefixCodes
  import opened HeapOrder
  import opened HuffmanTrees
  import opened Shallow
  import opened TreeSteps
  import opened TreeDepth
  import opened LengthCounts
  import opened BitlenSteps
  import opened Canonical
  import opened CodeGen

  const L_CODES: nat := 286
  const HEAP_SIZE: nat := 2 * L_CODES + 1

  /** What is fixed about one of the three trees; staticLens is empty for the bit length tree. */
  datatype StaticDesc = StaticDesc(staticLens: seq<nat>, extra: seq<nat>, base: nat, elems: nat, maxLength: nat)

  /** The extra bits that follow symbol n's code, lines 520-521. */
  function ExtraBits(d: StaticDesc, n: nat): nat
  {
    if d.base <= n < d.base + |d.extra| then d.extra[n - d.base] else 0
  }

  ghost function Extras(d: StaticDesc, n: nat): (s: seq<nat>)
    ensures |s| == n && forall i :: 0 <= i < n ==> s[i] == ExtraBits(d, i)
  {
    seq(n, i requires i >= 0 => ExtraBits(d, i))
  }

  ghost function Statics(d: StaticDesc, n: nat): (s: seq<nat>)
    ensures |s| == n && forall i :: 0 <= i < n ==> s[i] == if i < |d.staticLens| then d.staticLens[i] else 0
  {
    seq(n, i requires i >= 0 => if i < |d.staticLens| then d.staticLens[i] else 0)
  }

  /** The fields of deflate_state and of one tree_desc that build_tree uses. fc holds each
      node's Freq and later its Code, dl its Dad and later its Len. */
  class TreeState {
    const heap: array<nat>
    const desc: StaticDesc
    var heapLen: nat
    var heapMax: nat
    var depth: seq<nat>
    var fc: seq<nat>
    var dl: seq<nat>
    var blCount: seq<nat>
    var maxCode: int
    var optLen: int
    var staticLen: int

    constructor (desc: StaticDesc, freq: seq<nat>)
      requires |freq| == 2 * desc.elems + 1
      ensures fresh(heap) && heap.Length == HEAP_SIZE && this.desc == desc
      ensures fc == freq && |dl| == |fc| && |depth| == HEAP_SIZE && optLen == 0 && staticLen == 0
    {
      this.desc := desc;
      heap := new nat[HEAP_SIZE];
      heapLen, heapMax, maxCode := 0, HEAP_SIZE, -1;
      depth := seq(HEAP_SIZE, i => 0);
      fc := freq;
      dl := seq(|freq|, i => 0);
      blCount := seq(MAXBITS + 1, i => 0);
      optLen, staticLen := 0, 0;
    }

    ghost predicate Sized()
      reads this
    {
      && heap.Length == HEAP_SIZE && |depth| == HEAP_SIZE
      && 3 <= desc.elems <= L_CODES && |fc| == |dl| == 2 * desc.elems + 1
      && (desc.staticLens == [] || |desc.staticLens| >= desc.elems)
      && 1 <= desc.maxLength <= MAXBITS && desc.elems <= Pow2(desc.maxLength)
      && desc.base + |desc.extra| >= desc.elems
      && forall i :: 0 <= i < 3 ==> ExtraBits(desc, i) == 0
    }

    /** heap[i] = v; h0 and h name the array's contents before and after. */
    method Put(i: nat, v: nat, ghost h0: seq<nat>) returns (ghost h: seq<nat>)
      requires heap[..] == h0 && i < |h0|
      modifies heap
      ensures heap[..] == h && h == h0[i := v]
    {
      heap[i] := v;
      h := h0[i := v];
    }

    /** The macro smaller, lines 441-443. */
    predicate Less(n: nat, m: nat)
      requires n < |fc| && m < |fc| && n < |depth| && m < |depth|
      reads this
      ensures Less(n, m) == Smaller(Keys(fc, depth), n, m)
    {
      || fc[n] < fc[m]
      || (fc[n] == fc[m] && depth[n] <= depth[m])
    }

    /** Lines 459-463: the smaller of the two sons of k. */
    method SmallestSon(k: nat, ghost hh: seq<nat>, ghost h: seq<nat>, ghost v: nat) returns (j: nat)
      requires heap[..] == hh && Hole(hh, h, k, v)
      requires AllKnown(Keys(fc, depth), h, heapLen) && 1 <= k && 2 * k <= heapLen
      ensures SmallerSon(Keys(fc, depth), h, heapLen, k, j) && k < j <= heapLen
      ensures hh[j] == h[j] && Known(Keys(fc, depth), h[j])
    {
      j := 2 * k;
      assert hh[j] == h[j] && (j < heapLen ==> hh[j + 1] == h[j + 1]);
      if j < heapLen && Less(heap[j + 1], heap[j]) {
        j := j + 1;
      }
    }

    /** Lines 451-474. The ghost parameter h0 names the contents of the heap array on
        entry, and the ghost result h its contents on return. */
    method PqDownHeap(k0: nat, ghost h0: seq<nat>) returns (ghost h: seq<nat>)
      requires heap[..] == h0 && 1 <= k0 <= heapLen && Ordered(Keys(fc, depth), h0, heapLen, k0 + 1)
      modifies heap
      ensures heap[..] == h
      ensures Ordered(Keys(fc, depth), h, heapLen, k0) && Rearranged(h0, h, heapLen)
    {
      hide *;
      ghost var keys := Keys(fc, depth);
      SiftBegin(keys, h0, heapLen, k0);
      var v: nat := heap[k0];
      var k := k0;
      h := h0;
      ghost var hh: seq<nat> := h0;
      while 2 * k <= heapLen
        invariant 1 <= k <= heapLen < |hh| && heap[..] == hh
        invariant Hole(hh, h, k, v) && SiftState(keys, h0, h, heapLen, k0, k)
        decreases heapLen - k
      {
        SiftKnown(keys, h0, h, heapLen, k0, k);
        var j := SmallestSon(k, hh, h, v);
        HoleKnown(keys, hh, h, heapLen, k, v, |fc|, |depth|);
        if Less(v, heap[j]) {
          SiftStop(keys, h0, h, heapLen, k0, k, j);
          HoleFilled(hh, h, k, v);
          heap[k] := v;
          return;
        }
        SiftStep(keys, h0, h, heapLen, k0, k, j);
        HoleMoves(hh, h, k, j, v);
        h := Swap(h, k, j);
        hh := hh[k := hh[j]];
        heap[k] := heap[j];
        k := j;
      }
      SiftStop(keys, h0, h, heapLen, k0, k, 0);
      HoleFilled(hh, h, k, v);
      heap[k] := v;
    }

    /** Lines 630-639: the heap receives the symbols that occur, once each. */
    method CollectLeaves() returns (ghost h: seq<nat>)
      requires Sized()
      modifies heap, this`heapLen, this`heapMax, this`maxCode, this`depth, this`dl
      ensures Sized() && heapMax == HEAP_SIZE
      ensures heap[..] == h && Collected(h, heapLen, fc, dl, desc.elems, maxCode) && ZeroDepths(fc, depth, desc.elems)
    {
      hide Collected;
      heapLen, heapMax, maxCode := 0, HEAP_SIZE, -1;
      h := heap[..];
      CollectStart(h, fc, dl);
      for n := 0 to desc.elems
        invariant Sized() && heapMax == HEAP_SIZE
        invariant heap[..] == h && Collected(h, heapLen, fc, dl, n, maxCode) && ZeroDepths(fc, depth, n)
      {
        if fc[n] != 0 {
          CollectOne(h, heapLen, fc, dl, n, maxCode);
          heapLen := heapLen + 1;
          h := Put(heapLen, n, h);
          maxCode := n;
          depth := depth[n := 0];
        } else {
          CollectZero(h, heapLen, fc, dl, n, maxCode);
          dl := dl[n := 0];
        }
      }
    }

    /** Lines 647-650: one more symbol gets frequency 1. */
    method ForceOne(ghost h0: seq<nat>) returns (node: nat, ghost h: seq<nat>)
      requires Sized() && heap[..] == h0 && heapLen < 2 && -1 <= maxCode
      modifies heap, this`heapLen, this`maxCode, this`fc, this`depth, this`optLen, this`staticLen
      ensures Sized() && heap[..] == h && node == (if old(maxCode) < 2 then old(maxCode) + 1 else 0)
      ensures heapLen == old(heapLen) + 1 && h == h0[heapLen := node] && fc == old(fc)[node := 1]
      ensures maxCode == (if old(maxCode) < 2 then old(maxCode) + 1 else old(maxCode))
      ensures optLen == old(optLen) - 1 && depth == old(depth)[node := 0]
      ensures staticLen == old(staticLen) - if desc.staticLens == [] then 0 else desc.staticLens[node]
    {
      node := 0;
      if maxCode < 2 {
        maxCode := maxCode + 1;
        node := maxCode;
      }
      heapLen := heapLen + 1;
      h := Put(heapLen, node, h0);
      fc := fc[node := 1];
      depth := depth[node := 0];
      optLen := optLen - 1;
      if desc.staticLens != [] {
        staticLen := staticLen - desc.staticLens[node];
      }
    }

    /** Lines 646-653: at least two symbols get a code. */
    method ForceTwo(ghost h0: seq<nat>) returns (ghost forced: set<nat>, ghost h: seq<nat>)
      requires Sized() && heap[..] == h0
      requires Holds(h0, heapLen, LeavesTo(fc, desc.elems), desc.elems)
      requires Highest(maxCode, LeavesTo(fc, desc.elems), desc.elems) && ZeroDepths(fc, depth, desc.elems)
      modifies heap, this`heapLen, this`maxCode, this`fc, this`depth, this`optLen, this`staticLen
      ensures Sized() && heap[..] == h && heapLen >= 2 && ZeroDepths(fc, depth, desc.elems)
      ensures Forcing(h, old(heapLen), heapLen, old(fc), fc, forced, desc.elems, maxCode)
      ensures optLen == old(optLen) - |forced|
      ensures staticLen == old(staticLen) - StaticSum(desc.staticLens, forced)
    {
      hide Forcing, StaticSum, Holds, Highest, LeavesTo;
      ForceStart(h0, heapLen, fc, desc.elems, maxCode);
      StaticSumNone(desc.staticLens);
      forced, h := {}, h0;
      while heapLen < 2
        invariant Sized() && heap[..] == h && maxCode >= -1 && ZeroDepths(fc, depth, desc.elems)
        invariant Forcing(h, old(heapLen), heapLen, old(fc), fc, forced, desc.elems, maxCode)
        invariant optLen == old(optLen) - |forced|
        invariant staticLen == old(staticLen) - StaticSum(desc.staticLens, forced)
      {
        ghost var h1: seq<nat>, len1, f1: seq<nat>, code1 := h, heapLen, fc, maxCode;
        var node: nat;
        node, h := ForceOne(h);
        ForceStep(h1, old(heapLen), len1, old(fc), f1, forced, desc.elems, code1, node);
        StaticSumStep(desc.staticLens, forced, node);
        forced := forced + {node};
      }
    }

    /** Line 658: sub-heaps of increasing size. */
    method Heapify(ghost h0: seq<nat>) returns (ghost h: seq<nat>)
      requires heap[..] == h0 && AllKnown(Keys(fc, depth), h0, heapLen)
      modifies heap
      ensures heap[..] == h && Ordered(Keys(fc, depth), h, heapLen, 1) && Rearranged(h0, h, heapLen)
    {
      hide *;
      HeapifyStart(Keys(fc, depth), h0, heapLen);
      h := h0;
      var n := heapLen / 2;
      while n >= 1
        invariant 0 <= n <= heapLen / 2 && heap[..] == h
        invariant Ordered(Keys(fc, depth), h, heapLen, n + 1) && Rearranged(h0, h, heapLen)
      {
        ghost var h1: seq<nat> := PqDownHeap(n, h);
        RearrangedTrans(h0, h, h1, heapLen);
        h := h1;
        n := n - 1;
      }
    }

    /** The macro pqremove, lines 430-435. */
    method PqRemove(ghost h0: seq<nat>) returns (top: nat, ghost h: seq<nat>)
      requires heap[..] == h0 && 2 <= heapLen && Ordered(Keys(fc, depth), h0, heapLen, 1)
      modifies heap, this`heapLen
      ensures heap[..] == h && heapLen == old(heapLen) - 1
      ensures Ordered(Keys(fc, depth), h, heapLen, 1) && Removed(h0, h, old(heapLen), top)
    {
      hide *;
      RemoveStart(Keys(fc, depth), h0, heapLen);
      top := heap[1];
      h := Put(1, heap[heapLen], h0);
      heapLen := heapLen - 1;
      h := PqDownHeap(1, h);
      RemovedBy(h0, h, heapLen + 1);
    }

    /** Lines 666-684: the two lightest nodes n and m go to the sorted end of the heap
        array, and their father takes their place in the queue. */
    method Join(n: nat, node: nat, ghost h0: seq<nat>) returns (m: nat, ghost h: seq<nat>)
      requires heap[..] == h0 && |fc| == |dl| && node < |fc| && n < |fc| && |fc| <= |depth|
      requires 1 <= heapLen && heapLen + 2 < heapMax <= |h0|
      requires Ordered(Keys(fc, depth), h0, heapLen, 1)
      requires forall i :: 1 <= i <= heapLen ==> h0[i] != node
      modifies heap, this`heapMax, this`fc, this`dl, this`depth
      ensures heap[..] == h && heapMax == old(heapMax) - 2 && |depth| == |old(depth)|
      ensures Ordered(Keys(fc, depth), h, heapLen, 1)
      ensures Joined(h0, h, heapLen, old(heapMax), n, m, node) && Fathered(old(fc), fc, old(dl), dl, n, m, node)
      ensures Deeper(old(depth), depth, n, m, node)
    {
      hide *;
      FirstKnown(Keys(fc, depth), h0, heapLen, |fc|, |depth|);
      m := heap[1];
      var f := fc[n] + fc[m];
      var dd := DepthField(depth[n], depth[m]);
      JoinOrder(h0, fc, depth, heapLen, heapMax, n, node, f, dd);
      FatheredBy(fc, dl, n, m, node);
      DeeperBy(depth, n, m, node);
      h := SetFather(n, m, node, f, dd, h0);
      h := PqDownHeap(1, h);
      JoinedBy(h0, h, heapLen, heapMax + 2, n, node);
    }

    /** Lines 668-683: the sons go to the end of the array, the father to its beginning. */
    method SetFather(n: nat, m: nat, node: nat, f: nat, dd: nat, ghost h0: seq<nat>) returns (ghost h: seq<nat>)
      requires heap[..] == h0 && 3 <= heapMax <= |h0|
      requires node < |fc| && node < |depth| && n < |dl| && m < |dl|
      modifies heap, this`heapMax, this`fc, this`dl, this`depth
      ensures heapMax == old(heapMax) - 2
      ensures heap[..] == h && h == h0[heapMax + 1 := n][heapMax := m][1 := node]
      ensures fc == old(fc)[node := f] && depth == old(depth)[node := dd]
      ensures dl == old(dl)[n := node][m := node]
    {
      heapMax := heapMax - 1;
      h := Put(heapMax, n, h0);
      heapMax := heapMax - 1;
      h := Put(heapMax, m, h);
      fc := fc[node := f];
      depth := depth[node := dd];
      dl := dl[n := node][m := node];
      h := Put(1, node, h);
    }

    /** Lines 665-684: one pass of the merge loop. */
    method MergeOnce(node: nat, ghost t0: Merges, ghost w0: seq<nat>, ghost h0: seq<nat>)
        returns (ghost t: Merges, ghost h: seq<nat>)
      requires heap[..] == h0 && Sized() && t0.elems == desc.elems && |h0| == HEAP_SIZE
      requires 2 <= heapLen && heapLen + |t0.left| <= t0.elems
      requires node == t0.elems + |t0.left| && heapMax == HEAP_SIZE - 2 * |t0.left|
      requires Merging(t0, w0, Fields(h0, fc, depth, dl), heapLen)
      modifies heap, this`heapLen, this`heapMax, this`fc, this`dl, this`depth
      ensures heap[..] == h && Sized() && heapLen == old(heapLen) - 1 && heapMax == old(heapMax) - 2
      ensures t.elems == t0.elems && t.leaves == t0.leaves && |t.left| == |t0.left| + 1
      ensures Merging(t, w0, Fields(h, fc, depth, dl), heapLen) && SameUnused(t.elems, t.leaves, old(dl), dl)
    {
      hide Merging, Ordered, Removed, Joined, Fathered, SameUnused, Extend, TwoLightest, TwoSmallest, Deeper;
      ghost var s0 := Fields(h0, fc, depth, dl);
      MergeBegin(t0, w0, s0, heapLen);
      ghost var h1: seq<nat>;
      var n: nat, m: nat;
      n, h1 := PqRemove(h0);
      MergeTwo(t0, w0, s0, heapLen + 1, h1, n);
      m, h := Join(n, node, h1);
      t := Extend(t0, n, m);
      MergeStep(t0, w0, s0, heapLen + 1, h1, n, m, Fields(h, fc, depth, dl));
      assert Sized() by {
        SizedAgain(s0, Fields(h, fc, depth, dl), n, m, node);
      }
    }

    /** Lines 660-688: repeatedly join the two lightest nodes. */
    method MergeAll(ghost h0: seq<nat>) returns (ghost t: Merges, ghost h: seq<nat>)
      requires heap[..] == h0 && Sized() && heapMax == HEAP_SIZE && 2 <= heapLen <= desc.elems
      requires Ordered(Keys(fc, depth), h0, heapLen, 1)
      requires Holds(h0, heapLen, LeavesTo(fc, desc.elems), desc.elems) && ZeroDepths(fc, depth, desc.elems)
      modifies heap, this`heapLen, this`heapMax, this`fc, this`dl, this`depth
      ensures heap[..] == h && Sized()
      ensures t.elems == desc.elems && t.leaves == LeavesTo(old(fc), desc.elems) && |t.left| + 1 == old(heapLen)
      ensures Complete(t) && Built(t, old(fc), fc, dl, h) && Tied(t, fc, depth)
      ensures heapMax == HEAP_SIZE - 2 * |t.left| - 1 && h[heapMax] == t.elems + |t.left| - 1
      ensures SameUnused(t.elems, t.leaves, old(dl), dl)
    {
      hide LeavesTo, Merging, SameUnused, Complete, Built, Ordered, Holds, Tied, ZeroDepths;
      t := Merges(desc.elems, LeavesTo(fc, desc.elems), [], []);
      h := h0;
      MergeStart(t, Fields(h, fc, depth, dl), heapLen);
      var node := desc.elems;
      while heapLen >= 2
        invariant heap[..] == h && Sized() && 1 <= heapLen && heapLen + |t.left| == old(heapLen)
        invariant t.elems == desc.elems && t.leaves == LeavesTo(old(fc), desc.elems)
        invariant node == t.elems + |t.left| && heapMax == HEAP_SIZE - 2 * |t.left|
        invariant Merging(t, old(fc), Fields(h, fc, depth, dl), heapLen) && SameUnused(t.elems, t.leaves, old(dl), dl)
      {
        ghost var dl1 := dl;
        t, h := MergeOnce(node, t, old(fc), h);
        SameUnusedTrans(t.elems, t.leaves, old(dl), dl1, dl);
        node := node + 1;
      }
      MergeEnd(t, old(fc), Fields(h, fc, depth, dl));
      heapMax := heapMax - 1;
      h := Put(heapMax, heap[1], h);
    }

    /** The walk of gen_bitlen, in the state's fields; opt0 and stat0 are opt_len and
        static_len before it, st is what a static tree would have added so far. */
    ghost predicate Walks(t: Merges, done: set<nat>, q: nat, overflow: nat, opt0: int, stat0: int, st: int)
      reads this
    {
      && Sized() && t.elems == desc.elems && Highest(maxCode, t.leaves, t.elems)
      && WalkState(t, done, q, fc, dl, desc.maxLength, overflow, blCount, Extras(desc, |fc|), Statics(desc, |fc|),
                   optLen - opt0, st)
      && staticLen == stat0 + if desc.staticLens == [] then 0 else st
    }

    /** Lines 511-524: one node of the walk gets its length. */
    method WalkNode(q: nat, overflow0: nat, ghost t: Merges, ghost done0: set<nat>, ghost h: seq<nat>,
                    ghost opt0: int, ghost stat0: int, ghost st0: int)
        returns (overflow: nat, ghost done: set<nat>, ghost st: int)
      requires heap[..] == h && Layout(t, h) && |h| == HEAP_SIZE && 1 <= q <= 2 * |t.left|
      requires Walks(t, done0, q, overflow0, opt0, stat0, st0)
      modifies this`dl, this`blCount, this`optLen, this`staticLen
      ensures Walks(t, done, q - 1, overflow, opt0, stat0, st) && SameUnused(t.elems, t.leaves, old(dl), dl)
      ensures |blCount| == |old(blCount)|
    {
      hide WalkState, Proper, Roots, Highest, Clip;
      ghost var xs, ss := Extras(desc, |fc|), Statics(desc, |fc|);
      WalkNext(t, done0, q, fc, dl, desc.maxLength, overflow0, blCount, xs, ss, optLen - opt0, st0);
      HighestIs(maxCode, t.leaves, t.elems);
      LeafTest(t, q - 1, maxCode);
      LayoutAt(t, h, q - 1);
      var n: nat := heap[HEAP_SIZE - q];
      var bits: nat := dl[dl[n]] + 1;
      overflow, done, st := overflow0, done0, st0;
      if bits > desc.maxLength {
        bits := desc.maxLength;
        overflow := overflow + 1;
      }
      ClipIs(dl[dl[n]], desc.maxLength);
      WalkStateStep(t, done0, q, fc, dl, desc.maxLength, overflow0, blCount, xs, ss, optLen - opt0, st0, n, bits,
                    overflow);
      dl := dl[n := bits];
      if n > maxCode {
        return;
      }
      blCount := blCount[bits := blCount[bits] + 1];
      var xbits := 0;
      if n >= desc.base {
        xbits := desc.extra[n - desc.base];
      }
      var f: nat := fc[n];
      optLen := optLen + f * (bits + xbits);
      if desc.staticLens != [] {
        staticLen := staticLen + f * (desc.staticLens[n] + xbits);
      }
      done, st := done + {n}, st + f * (ss[n] + xbits);
    }

    /** Lines 503-525: the lengths are the depths in the tree, clipped at max_length. */
    method WalkTree(ghost t: Merges, ghost h: seq<nat>) returns (overflow: nat)
      requires heap[..] == h && |h| == HEAP_SIZE && Sized() && t.elems == desc.elems
      requires Complete(t) && Dads(t, dl) && Layout(t, h) && t.elems + |t.left| <= |dl|
      requires heapMax == HEAP_SIZE - 2 * |t.left| - 1 && h[heapMax] == t.elems + |t.left| - 1
      requires Highest(maxCode, t.leaves, t.elems)
      modifies this`dl, this`blCount, this`optLen, this`staticLen
      ensures Sized() && Clipped(t, dl, desc.maxLength) && overflow == 2 * Over(t, dl, desc.maxLength, 0)
      ensures |blCount| == MAXBITS + 1 && CountsOf(blCount, t.leaves, dl)
      ensures optLen == old(optLen) + BitCost(t.leaves, fc, dl, Extras(desc, |fc|))
      ensures staticLen == old(staticLen) + if desc.staticLens == [] then 0 else
        BitCost(t.leaves, fc, Statics(desc, |fc|), Extras(desc, |fc|))
      ensures SameUnused(t.elems, t.leaves, old(dl), dl)
    {
      hide WalkState, Complete, Dads, Layout, Clipped, Highest, CountsOf, BitCost;
      ghost var xs, ss := Extras(desc, |fc|), Statics(desc, |fc|);
      CompleteSize(t);
      blCount := seq(MAXBITS + 1, i => 0);
      WalkStateStart(t, fc, dl, desc.maxLength, blCount, xs, ss);
      dl := dl[heap[heapMax] := 0];
      overflow := 0;
      ghost var done: set<nat>, st: int := {}, 0;
      var hh := heapMax + 1;
      while hh < HEAP_SIZE
        invariant heapMax + 1 <= hh <= HEAP_SIZE
        invariant Walks(t, done, HEAP_SIZE - hh, overflow, old(optLen), old(staticLen), st)
        invariant |blCount| == MAXBITS + 1 && SameUnused(t.elems, t.leaves, old(dl), dl)
      {
        ghost var dl1 := dl;
        overflow, done, st := WalkNode(HEAP_SIZE - hh, overflow, t, done, h, old(optLen), old(staticLen), st);
        SameUnusedTrans(t.elems, t.leaves, old(dl), dl1, dl);
        hh := hh + 1;
      }
      WalkStateEnd(t, done, fc, dl, desc.maxLength, overflow, blCount, xs, ss, optLen - old(optLen), st);
      WalkStateSums(t, done, fc, dl, desc.maxLength, overflow, blCount, xs, ss, optLen - old(optLen), st);
    }

    /** Lines 531-542: make room for the codes that were too long. */
    method RepairCounts(overflow0: nat, ghost over: nat, ghost leaves: nat)
      requires overflow0 == 2 * over && over > 0 && Repairing(blCount, desc.maxLength, over, leaves)
      modifies this`blCount
      ensures |blCount| == |old(blCount)| && Repairing(blCount, desc.maxLength, 0, leaves)
    {
      hide Used, TotalCount, Pow2;
      var max := desc.maxLength;
      var overflow := overflow0;
      ghost var ov := over;
      while overflow > 0
        invariant overflow == 2 * ov && |blCount| == |old(blCount)| && Repairing(blCount, max, ov, leaves)
      {
        ghost var bl := blCount;
        var bits := max - 1;
        RepairSearch(blCount, max, ov, leaves, bits);
        while blCount[bits] == 0
          decreases bits
          invariant blCount == bl
          invariant 1 <= bits < max && (forall i :: bits < i < max ==> blCount[i] == 0)
          invariant blCount[bits] == 0 ==> bits >= 2
        {
          bits := bits - 1;
          RepairSearch(blCount, max, ov, leaves, bits);
        }
        blCount := blCount[bits := blCount[bits] - 1];
        blCount := blCount[bits + 1 := blCount[bits + 1] + 2];
        blCount := blCount[max := blCount[max] - 1];
        RepairStep(bl, blCount, max, ov, leaves, bits);
        overflow := overflow - 2;
        ov := ov - 1;
      }
    }

    /** Lines 551-560: the next leaf in order of frequency gets the length `bits`. */
    method AssignNext(hh0: nat, bits: nat, ghost n: nat, ghost t: Merges, ghost vis0: set<nat>, ghost h: seq<nat>)
        returns (hh: nat, ghost vis: set<nat>)
      requires heap[..] == h && Layout(t, h) && |h| == HEAP_SIZE && hh0 <= HEAP_SIZE && n > 0
      requires t.elems == desc.elems && Highest(maxCode, t.leaves, t.elems) && |fc| == |dl| && InRange(t.leaves, |dl|)
      requires Assigned(t, vis0, HEAP_SIZE - hh0, dl, blCount, desc.maxLength, bits, n)
      modifies this`dl, this`optLen
      ensures hh < hh0 && |dl| == |old(dl)|
      ensures Assigned(t, vis, HEAP_SIZE - hh, dl, blCount, desc.maxLength, bits, n - 1)
      ensures optLen - old(optLen) == Cost(t.leaves, fc, dl) - Cost(t.leaves, fc, old(dl))
      ensures SameUnused(t.elems, t.leaves, old(dl), dl)
    {
      hide Assigned, Layout, Highest, Cost;
      HighestIs(maxCode, t.leaves, t.elems);
      AssignMore(t, vis0, HEAP_SIZE - hh0, dl, blCount, desc.maxLength, bits, n);
      AssignProper(t, vis0, HEAP_SIZE - hh0, dl, blCount, desc.maxLength, bits, n);
      LayoutAt(t, h, HEAP_SIZE - hh0);
      hh := hh0 - 1;
      var m: nat := heap[hh];
      LeafTest(t, HEAP_SIZE - hh0, maxCode);
      while m > maxCode
        invariant dl == old(dl) && optLen == old(optLen)
        invariant 0 <= hh < hh0 && HEAP_SIZE - hh - 1 < 2 * |t.left| && |t.left| == |t.right| && Proper(t)
        invariant m == NodeAt(t, HEAP_SIZE - hh - 1) && (m > maxCode <==> m !in t.leaves)
        invariant Assigned(t, vis0, HEAP_SIZE - hh - 1, dl, blCount, desc.maxLength, bits, n)
        decreases hh
      {
        AssignSkip(t, vis0, HEAP_SIZE - hh - 1, dl, blCount, desc.maxLength, bits, n);
        AssignMore(t, vis0, HEAP_SIZE - hh, dl, blCount, desc.maxLength, bits, n);
        LayoutAt(t, h, HEAP_SIZE - hh);
        LeafTest(t, HEAP_SIZE - hh, maxCode);
        hh := hh - 1;
        m := heap[hh];
      }
      AssignLeaf(t, vis0, HEAP_SIZE - hh - 1, dl, blCount, desc.maxLength, bits, n);
      CostUpdate(t.leaves, fc, dl, m, bits);
      vis := vis0 + {m};
      LengthChange(bits, dl[m], fc[m]);
      if dl[m] != bits {
        optLen := optLen + (bits - dl[m]) * fc[m];
        dl := dl[m := bits];
      } else {
        assert dl == dl[m := bits];
      }
    }

    /** Lines 544-561: the lengths, longest first, go to the leaves, rarest first. */
    method AssignAll(ghost t: Merges, ghost h: seq<nat>) returns (ghost q: nat)
      requires heap[..] == h && Layout(t, h) && |h| == HEAP_SIZE && Complete(t) && InRange(t.leaves, |dl|)
      requires t.elems == desc.elems && Highest(maxCode, t.leaves, t.elems) && |fc| == |dl|
      requires Repairing(blCount, desc.maxLength, 0, |t.leaves|)
      modifies this`dl, this`optLen
      ensures |dl| == |old(dl)| && Assigned(t, t.leaves, q, dl, blCount, desc.maxLength, 1, 0)
      ensures optLen - old(optLen) == Cost(t.leaves, fc, dl) - Cost(t.leaves, fc, old(dl))
      ensures SameUnused(t.elems, t.leaves, old(dl), dl)
    {
      hide Assigned, Layout, Highest, Cost, Complete, Used, TotalCount, Pow2;
      CompleteSize(t);
      AssignStart(t, dl, blCount, desc.maxLength);
      var bits := desc.maxLength;
      var hh: nat := HEAP_SIZE;
      ghost var vis: set<nat> := {};
      while bits != 0
        invariant 0 <= bits <= desc.maxLength && hh <= HEAP_SIZE && |dl| == |old(dl)|
        invariant bits > 0 ==>
          Assigned(t, vis, HEAP_SIZE - hh, dl, blCount, desc.maxLength, bits, blCount[bits])
        invariant bits == 0 ==> Assigned(t, vis, HEAP_SIZE - hh, dl, blCount, desc.maxLength, 1, 0)
        invariant optLen - old(optLen) == Cost(t.leaves, fc, dl) - Cost(t.leaves, fc, old(dl))
        invariant SameUnused(t.elems, t.leaves, old(dl), dl)
      {
        var n: nat := blCount[bits];
        while n != 0
          invariant hh <= HEAP_SIZE && |dl| == |old(dl)|
          invariant Assigned(t, vis, HEAP_SIZE - hh, dl, blCount, desc.maxLength, bits, n)
          invariant optLen - old(optLen) == Cost(t.leaves, fc, dl) - Cost(t.leaves, fc, old(dl))
          invariant SameUnused(t.elems, t.leaves, old(dl), dl)
        {
          ghost var dl1 := dl;
          hh, vis := AssignNext(hh, bits, n, t, vis, h);
          SameUnusedTrans(t.elems, t.leaves, old(dl), dl1, dl);
          n := n - 1;
        }
        if bits > 1 {
          BitlenSteps.AssignNext(t, vis, HEAP_SIZE - hh, dl, blCount, desc.maxLength, bits);
        }
        bits := bits - 1;
      }
      q := HEAP_SIZE - hh;
      AssignEnd(t, vis, q, dl, blCount, desc.maxLength);
    }

    /** gen_bitlen, lines 486-562. */
    method GenBitlen(ghost t: Merges, ghost h: seq<nat>)
      requires heap[..] == h && |h| == HEAP_SIZE && Sized() && t.elems == desc.elems
      requires Complete(t) && Dads(t, dl) && Layout(t, h) && t.elems + |t.left| <= |dl|
      requires heapMax == HEAP_SIZE - 2 * |t.left| - 1 && h[heapMax] == t.elems + |t.left| - 1
      requires Highest(maxCode, t.leaves, t.elems) && Summed(t, fc) && Greedy(t, fc) && Tied(t, fc, depth)
      modifies this`dl, this`blCount, this`optLen, this`staticLen
      ensures Sized() && CompleteCode(t.leaves, dl, desc.maxLength) && Monotone(t.leaves, fc, dl)
      ensures Fits(t, desc.maxLength) ==> OptimalLens(t.leaves, fc, dl) && ShallowLens(t.leaves, fc, dl)
      ensures |t.left| == 1 ==> forall x :: x in t.leaves ==> x < |dl| && dl[x] == 1
      ensures |blCount| == MAXBITS + 1 && CountsOf(blCount, t.leaves, dl)
      ensures optLen == old(optLen) + BitCost(t.leaves, fc, dl, Extras(desc, |fc|))
      ensures staticLen == old(staticLen) + if desc.staticLens == [] then 0 else
        BitCost(t.leaves, fc, Statics(desc, |fc|), Extras(desc, |fc|))
      ensures SameUnused(t.elems, t.leaves, old(dl), dl)
    {
      hide Complete, Dads, Layout, Clipped, Highest, CountsOf, Summed, Greedy, CompleteCode, Monotone, OptimalLens,
           Fits, Repairing, Assigned, Cost, Tied, ShallowLens;
      var overflow := WalkTree(t, h);
      if overflow == 0 {
        ExactCode(t, dl, desc.maxLength);
        ExactOptimal(t, fc, dl, desc.maxLength);
        if Fits(t, desc.maxLength) {
          FitsShallow(t, fc, depth, dl, desc.maxLength);
        }
        OptimalMonotone(t.leaves, fc, dl, desc.maxLength);
        if |t.left| == 1 {
          TwoLeaves(t, dl, desc.maxLength);
        }
        return;
      }
      OverflowFacts(t, fc, dl, desc.maxLength, blCount);
      RepairCounts(overflow, Over(t, dl, desc.maxLength, 0), |t.leaves|);
      ghost var dl1 := dl;
      ghost var q := AssignAll(t, h);
      SameUnusedTrans(t.elems, t.leaves, old(dl), dl1, dl);
      RepairZero(blCount, desc.maxLength, |t.leaves|);
      AssignEnd(t, t.leaves, q, dl, blCount, desc.maxLength);
      RepairEnd(blCount, desc.maxLength, t.leaves, dl);
      GreedyByWeight(t, fc, |t.left|);
      PrefixAll(t);
      AssignMonotone(t, fc, t.leaves, q, dl, blCount, desc.maxLength);
    }

    /** Lines 626-688: the heap, the symbols forced into it, and the merges. */
    method BuildMerges() returns (ghost t: Merges, ghost forced: set<nat>, ghost h: seq<nat>)
      requires Sized()
      modifies heap, this
      ensures Sized() && heap[..] == h && t.elems == desc.elems
      ensures t.leaves == LeavesTo(old(fc), desc.elems) + forced && LeavesTo(old(fc), desc.elems) !! forced
      ensures Forced(old(fc)[..desc.elems], fc[..desc.elems], forced)
      ensures forall x :: x in forced ==> x < 3 && fc[x] == 1
      ensures |forced| == (if |LeavesTo(old(fc), desc.elems)| >= 2 then 0 else 2 - |LeavesTo(old(fc), desc.elems)|)
      ensures |forced| > 0 ==> |t.left| == 1
      ensures Complete(t) && Summed(t, fc) && Greedy(t, fc) && Dads(t, dl) && Layout(t, h) && Tied(t, fc, depth)
      ensures t.elems + |t.left| <= |dl| && Highest(maxCode, t.leaves, desc.elems)
      ensures heapMax == HEAP_SIZE - 2 * |t.left| - 1 && h[heapMax] == t.elems + |t.left| - 1
      ensures ZeroUnused(dl, t.leaves, desc.elems)
      ensures optLen == old(optLen) - |forced|
      ensures staticLen == old(staticLen) - StaticSum(desc.staticLens, forced)
    {
      hide *;
      SizedParts();
      ghost var elems, f0: seq<nat> := desc.elems, fc;
      h := CollectLeaves();
      SizedParts();
      CollectedParts(h, heapLen, fc, dl, elems, maxCode);
      ghost var len0, dl0: seq<nat> := heapLen, dl;
      forced, h := ForceTwo(h);
      SizedParts();
      ghost var f1: seq<nat> := fc;
      ForcingParts(h, len0, heapLen, f0, fc, depth, forced, elems, maxCode);
      ghost var h1: seq<nat> := h;
      h := Heapify(h);
      HoldsRearranged(h1, h, heapLen, LeavesTo(fc, elems), elems);
      t, h := MergeAll(h);
      SizedParts();
      BuiltParts(t, f1, fc, dl, h);
      ForcedPrefix(f0, f1, fc, forced, elems);
      UnusedStaysZero(dl0, dl, LeavesTo(f0, elems), t.leaves, elems);
    }

    /** build_tree, lines 615-693, up to the call of gen_codes. The ghost results are the
        tree it builds and the symbols it had to force into it. */
    method BuildLengths() returns (ghost t: Merges, ghost forced: set<nat>)
      requires Sized()
      modifies heap, this
      ensures Sized() && t.elems == desc.elems && t.leaves == LeavesTo(old(fc), desc.elems) + forced
      ensures Forced(old(fc)[..desc.elems], fc[..desc.elems], forced)
      ensures |forced| == if |LeavesTo(old(fc), desc.elems)| >= 2 then 0 else 2 - |LeavesTo(old(fc), desc.elems)|
      ensures |forced| > 0 ==> forall x :: x in t.leaves ==> x < |dl| && dl[x] == 1
      ensures Complete(t) && Summed(t, fc) && Greedy(t, fc) && Highest(maxCode, t.leaves, desc.elems)
      ensures CompleteCode(t.leaves, dl, desc.maxLength) && Monotone(t.leaves, fc, dl)
      ensures Fits(t, desc.maxLength) ==> OptimalLens(t.leaves, fc, dl) && ShallowLens(t.leaves, fc, dl)
      ensures Total(old(fc)[..desc.elems]) < Fib(desc.maxLength + 3) ==> Fits(t, desc.maxLength)
      ensures forall x :: t.elems <= x < t.elems + |t.left| ==> fc[x] <= Total(old(fc)[..desc.elems]) + |forced|
      ensures ZeroUnused(dl, t.leaves, desc.elems)
      ensures |blCount| == MAXBITS + 1 && CountsOf(blCount, t.leaves, dl)
      ensures optLen == old(optLen) + BitCost(LeavesTo(old(fc), desc.elems), fc, dl, Extras(desc, |fc|))
      ensures staticLen == old(staticLen) + if desc.staticLens == [] then 0 else
        BitCost(LeavesTo(old(fc), desc.elems), fc, Statics(desc, |fc|), Extras(desc, |fc|))
    {
      hide *;
      SizedParts();
      ghost var occurring, h := LeavesTo(fc, desc.elems), [];
      t, forced, h := BuildMerges();
      SizedParts();
      ghost var dl0: seq<nat> := dl;
      GenBitlen(t, h);
      SizedParts();
      UnusedStaysZero(dl0, dl, t.leaves, t.leaves, desc.elems);
      ForcedTotals(occurring, forced, fc, dl, desc);
      MaxPositive(t.leaves, dl, desc.maxLength);
      TotalFits(t, old(fc), fc, forced, desc.elems, desc.maxLength);
    }

    /** build_tree, lines 615-697: the lengths, then the codes. The ghost results are the tree, the symbols
        that had to be forced into it, and the frequencies before they make room for the codes. */
    method BuildTree() returns (ghost t: Merges, ghost forced: set<nat>, ghost freqs: seq<nat>)
      requires Sized()
      modifies heap, this
      ensures Sized() && |freqs| == |fc| && t.elems == desc.elems && t.leaves == LeavesTo(old(fc), desc.elems) + forced
      ensures Forced(old(fc)[..desc.elems], freqs[..desc.elems], forced)
      ensures |forced| == if |LeavesTo(old(fc), desc.elems)| >= 2 then 0 else 2 - |LeavesTo(old(fc), desc.elems)|
      ensures |forced| > 0 ==> forall x :: x in t.leaves ==> x < |dl| && dl[x] == 1
      ensures Complete(t) && Summed(t, freqs) && Greedy(t, freqs)
      ensures forall x :: x in LeavesTo(old(fc), desc.elems) && x < |fc| ==> freqs[x] == old(fc)[x]
      ensures CompleteCode(t.leaves, dl, desc.maxLength) && Monotone(t.leaves, freqs, dl)
      ensures Fits(t, desc.maxLength) ==> OptimalLens(t.leaves, freqs, dl) && ShallowLens(t.leaves, freqs, dl)
      ensures Total(old(fc)[..desc.elems]) < Fib(desc.maxLength + 3) ==>
        OptimalLens(t.leaves, freqs, dl) && ShallowLens(t.leaves, freqs, dl)
      ensures 0 <= maxCode + 1 <= desc.elems && LeafLens(t.leaves, dl, desc.elems)
      ensures LeafLens(t.leaves, dl, maxCode + 1) && LengthsOk(dl[..maxCode + 1])
      ensures Space(dl[..maxCode + 1], MAXBITS) == Pow2(MAXBITS)
      ensures Coded(freqs, fc, dl[..maxCode + 1], maxCode + 1)
      ensures optLen == old(optLen) + BitCost(LeavesTo(old(fc), desc.elems), freqs, dl, Extras(desc, |fc|))
      ensures staticLen == old(staticLen) + if desc.staticLens == [] then 0 else
        BitCost(LeavesTo(old(fc), desc.elems), freqs, Statics(desc, |fc|), Extras(desc, |fc|))
    {
      hide *;
      SizedParts();
      t, forced := BuildLengths();
      SizedParts();
      freqs := fc;
      LeafParts(t.leaves, dl, maxCode, desc.elems, desc.maxLength);
      LeafStatistics(t.leaves, dl, maxCode + 1, blCount, desc.maxLength);
      ForcedSame(old(fc), fc, forced, desc.elems);
      SetCodes();
      SizedParts();
    }

    method SetCodes()
      requires Sized() && 0 <= maxCode + 1 <= |dl|
      requires LengthsOk(dl[..maxCode + 1]) && Statistics(blCount, dl[..maxCode + 1])
      modifies this`fc
      ensures Sized() && Coded(old(fc), fc, dl[..maxCode + 1], maxCode + 1)
    {
      hide Coded, Statistics, LengthsOk;
      var codes: seq<nat> := GenCodes(fc, dl, maxCode + 1, blCount);
      CodedSize(fc, codes, dl[..maxCode + 1], maxCode + 1);
      fc := codes;
    }

    lemma SizedParts()
      requires Sized()
      ensures heap.Length == HEAP_SIZE == |depth| && 3 <= desc.elems && |fc| == |dl| == 2 * desc.elems + 1
      ensures |fc| <= |depth| && desc.maxLength <= MAXBITS && (desc.staticLens == [] || |desc.staticLens| >= desc.elems)
      ensures forall i :: 0 <= i < 3 ==> ExtraBits(desc, i) == 0
    {
    }
  }

  lemma MaxPositive(leaves: set<nat>, dl: seq<nat>, max: nat)
    requires CompleteCode(leaves, dl, max)
    ensures max >= 1
  {
    if max == 0 {
      NoKraft(leaves, dl);
    }
  }

  lemma {:induction false} NoKraft(leaves: set<nat>, dl: seq<nat>)
    requires forall x :: x in leaves && x < |dl| ==> dl[x] >= 1
    ensures Kraft(leaves, dl, 0) == 0
  {
    if dl != [] {
      NoKraft(leaves, dl[..|dl| - 1]);
    }
  }

  lemma LeafParts(leaves: set<nat>, dl: seq<nat>, maxCode: int, elems: nat, max: nat)
    requires CompleteCode(leaves, dl, max) && ZeroUnused(dl, leaves, elems) && Highest(maxCode, leaves, elems)
    requires elems <= |dl| && max <= MAXBITS
    ensures 0 <= maxCode + 1 <= elems && LeafLens(leaves, dl, maxCode + 1) && LeafLens(leaves, dl, elems)
    ensures Kraft(leaves, dl, max) == Pow2(max) && forall x :: x in leaves ==> x < |dl| && dl[x] <= max
  {
    hide Kraft, Pow2;
  }

  lemma ForcedSame(f0: seq<nat>, f: seq<nat>, forced: set<nat>, elems: nat)
    requires elems <= |f0| == |f| && Forced(f0[..elems], f[..elems], forced)
    ensures forall x :: x in LeavesTo(f0, elems) && x < |f| ==> f[x] == f0[x]
  {
    forall x | x in LeavesTo(f0, elems) && x < |f| ensures f[x] == f0[x] {
      assert f[..elems][x] == f[x] && f0[..elems][x] == f0[x];
    }
  }

  lemma CodedSize(fc: seq<nat>, fc': seq<nat>, lens: seq<nat>, n: nat)
    requires n <= |lens| <= |fc| && Coded(fc, fc', lens, n)
    ensures |fc'| == |fc|
  {
  }

  /** The corrections of line 650 are exact: the forced symbols add one bit each, and
      their static lengths, to the sums. */
  lemma ForcedTotals(occurring: set<nat>, forced: set<nat>, w: seq<nat>, lens: seq<nat>, d: StaticDesc)
    requires |w| == |lens| && |w| >= 3 && occurring !! forced && (d.staticLens == [] || |d.staticLens| >= 3)
    requires forall x :: x in forced ==> x < 3 && w[x] == 1 && lens[x] == 1
    requires forall i :: 0 <= i < 3 ==> ExtraBits(d, i) == 0
    ensures BitCost(occurring + forced, w, lens, Extras(d, |w|))
         == BitCost(occurring, w, lens, Extras(d, |w|)) + |forced|
    ensures d.staticLens == [] ==> StaticSum(d.staticLens, forced) == 0
    ensures d.staticLens != [] ==>
      BitCost(occurring + forced, w, Statics(d, |w|), Extras(d, |w|))
      == BitCost(occurring, w, Statics(d, |w|), Extras(d, |w|)) + StaticSum(d.staticLens, forced)
  {
    hide Cost, ExtraBits;
    var xs, ss := Extras(d, |w|), Statics(d, |w|);
    ForcedCost(occurring, forced, w, lens);
    ForcedOnes(lens, forced);
    ForcedCost(occurring, forced, w, xs);
    ForcedZeros(xs, forced);
    ForcedCost(occurring, forced, w, ss);
    assert d.staticLens != [] ==> StaticSum(ss, forced) == StaticSum(d.staticLens, forced);
  }

  lemma PrefixAll(t: Merges)
    requires |t.left| == |t.right|
    ensures Prefix(t, |t.left|) == t
  {
  }

  lemma RepairZero(bl: seq<nat>, max: nat, leaves: nat)
    requires Repairing(bl, max, 0, leaves)
    ensures |bl| > 0 && bl[0] == 0
  {
  }

  /** When a length had to be clipped, the tree does not fit and has more than two leaves. */
  lemma DeeperBy(depth: seq<nat>, n: nat, m: nat, node: nat)
    requires n < |depth| && m < |depth| && node < |depth|
    ensures Deeper(depth, depth[node := DepthField(depth[n], depth[m])], n, m, node)
  {
  }

  lemma OverflowFacts(t: Merges, w: seq<nat>, lens: seq<nat>, max: nat, bl: seq<nat>)
    requires Clipped(t, lens, max) && Over(t, lens, max, 0) > 0 && CountsOf(bl, t.leaves, lens) && max < |bl|
    requires t.elems <= Pow2(max)
    ensures !Fits(t, max) && |t.left| != 1 && |t.left| == |t.right| && InRange(t.leaves, |lens|) && Complete(t)
    ensures Repairing(bl, max, Over(t, lens, max, 0), |t.leaves|)
  {
    hide Complete, Fits, CountsOf, Repairing;
    CompleteSize(t);
    ProperSizes(t);
    ClippedRange(t, lens, max);
    RangeSize(t.leaves, t.elems);
    RepairStart(t, lens, max, bl);
    if Fits(t, max) {
      FitsOver(t, lens, max);
    }
    if |t.left| == 1 {
      TwoLeaves(t, lens, max);
    }
  }

  lemma {:induction false} RangeSize(nodes: set<nat>, n: nat)
    requires InRange(nodes, n)
    ensures |nodes| <= n
  {
    if n == 0 {
      assert nodes == {};
    } else {
      RangeSize(nodes - {n - 1}, n - 1);
    }
  }

  lemma LengthChange(a: nat, b: nat, f: nat)
    ensures (a - b) * f == f * a - f * b
  {
  }

  lemma HighestIs(maxCode: int, leaves: set<nat>, n: nat)
    requires Highest(maxCode, leaves, n)
    ensures maxCode < n && forall x :: x in leaves ==> x <= maxCode
  {
  }

  lemma LayoutAt(t: Merges, h: seq<nat>, q: nat)
    requires Layout(t, h) && q < 2 * |t.left|
    ensures |t.left| == |t.right| && q < |h| && h[|h| - 1 - q] == NodeAt(t, q)
  {
    if q % 2 == 0 {
      assert h[|h| - 1 - 2 * (q / 2)] == t.left[q / 2];
    } else {
      assert h[|h| - 2 - 2 * (q / 2)] == t.right[q / 2];
    }
  }

  lemma ClipIs(len: nat, max: nat)
    ensures Clip(len, max) == if len + 1 > max then max else len + 1
  {
  }

  lemma SizedAgain(s0: Fields, s: Fields, n: nat, m: nat, node: nat)
    requires Fathered(s0.fc, s.fc, s0.dl, s.dl, n, m, node)
    ensures |s.fc| == |s0.fc| && |s.dl| == |s0.dl|
  {
  }
}
