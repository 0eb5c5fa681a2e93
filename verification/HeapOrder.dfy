/** The priority queue of trees.c, on values: the sift-down step that
    pqdownheap repeats, and what it keeps. Node numbers sit in h[1..len];
    the sons of h[i] are h[2*i] and h[2*i+1]. */
module HeapOrder {

  /** A node's key: frequency first, subtree depth as tie breaker. */
  datatype Keys = Keys(freq: seq<nat>, depth: seq<nat>)

  ghost predicate Known(keys: Keys, n: int)
  {
    0 <= n < |keys.freq| && n < |keys.depth|
  }

  predicate Smaller(keys: Keys, n: nat, m: nat)
    requires Known(keys, n) && Known(keys, m)
  {
    || keys.freq[n] < keys.freq[m]
    || (keys.freq[n] == keys.freq[m] && keys.depth[n] <= keys.depth[m])
  }

  predicate Son(i: nat, c: nat)
  {
    c == 2 * i || c == 2 * i + 1
  }

  ghost predicate AllKnown(keys: Keys, h: seq<nat>, len: nat)
  {
    len < |h| && forall i :: 1 <= i <= len ==> Known(keys, h[i])
  }

  /** Every father from position k on is smaller than its sons. */
  ghost predicate HeapFrom(keys: Keys, h: seq<nat>, len: nat, k: nat)
    requires AllKnown(keys, h, len)
  {
    forall i: nat, c: nat :: 1 <= i && k <= i && Son(i, c) && c <= len ==> Smaller(keys, h[i], h[c])
  }

  /** As HeapFrom(k0), except that the node at k may still be too large; k's father,
      if it is at or below k0, is smaller than k's sons. */
  ghost predicate Sifting(keys: Keys, h: seq<nat>, len: nat, k0: nat, k: nat)
    requires AllKnown(keys, h, len)
  {
    && (forall i: nat, c: nat :: 1 <= i && k0 <= i && i != k && Son(i, c) && c <= len ==> Smaller(keys, h[i], h[c]))
    && (forall i: nat, c: nat :: 1 <= i && k0 <= i && Son(i, k) && Son(k, c) && c <= len ==> Smaller(keys, h[i], h[c]))
  }

  function Swap(h: seq<nat>, i: nat, j: nat): seq<nat>
    requires i < |h| && j < |h|
  {
    h[i := h[j]][j := h[i]]
  }

  /** The nodes in the queue. */
  ghost function Queued(h: seq<nat>, len: nat): multiset<nat>
    requires len < |h|
  {
    multiset(h[1..len + 1])
  }

  lemma SwapQueued(h: seq<nat>, len: nat, i: nat, j: nat)
    requires len < |h| && 1 <= i <= len && 1 <= j <= len
    ensures Queued(Swap(h, i, j), len) == Queued(h, len)
  {
    var s := h[1..len + 1];
    assert Swap(h, i, j)[1..len + 1] == s[i - 1 := s[j - 1]][j - 1 := s[i - 1]];
  }

  /** The heap holds known nodes, and from position k on it is in order. */
  ghost predicate Ordered(keys: Keys, h: seq<nat>, len: nat, k: nat)
  {
    AllKnown(keys, h, len) && HeapFrom(keys, h, len, k)
  }

  /** The same queue in another order, in the same place of the array. */
  ghost predicate Rearranged(h0: seq<nat>, h: seq<nat>, len: nat)
  {
    && |h| == |h0| && len < |h|
    && Queued(h, len) == Queued(h0, len)
    && forall i :: len < i < |h| ==> h[i] == h0[i]
  }

  /** Midway through a sift-down that began with h0 at position k0. */
  ghost predicate SiftState(keys: Keys, h0: seq<nat>, h: seq<nat>, len: nat, k0: nat, k: nat)
  {
    && 1 <= k0 <= k <= len
    && AllKnown(keys, h, len) && Sifting(keys, h, len, k0, k) && Rearranged(h0, h, len)
  }

  lemma SiftStart(keys: Keys, h: seq<nat>, len: nat, k: nat)
    requires 1 <= k <= len && Ordered(keys, h, len, k + 1)
    ensures SiftState(keys, h, h, len, k, k)
  {
  }

  lemma SiftKnown(keys: Keys, h0: seq<nat>, h: seq<nat>, len: nat, k0: nat, k: nat)
    requires SiftState(keys, h0, h, len, k0, k)
    ensures AllKnown(keys, h, len) && 1 <= k0 <= k <= len < |h| && Known(keys, h[k])
  {
  }

  /** j is the smaller of k's sons, as lines 460-463 choose it. */
  ghost predicate SmallerSon(keys: Keys, h: seq<nat>, len: nat, k: nat, j: nat)
  {
    && AllKnown(keys, h, len)
    && Son(k, j) && 1 <= k && j <= len
    && (j == 2 * k && j < len ==> !Smaller(keys, h[j + 1], h[j]))
    && (j == 2 * k + 1 ==> Smaller(keys, h[j], h[j - 1]))
  }

  /** Exchanging k with its smaller son j moves the possible violation to j. */
  lemma SiftStep(keys: Keys, h0: seq<nat>, h: seq<nat>, len: nat, k0: nat, k: nat, j: nat)
    requires SiftState(keys, h0, h, len, k0, k)
    requires SmallerSon(keys, h, len, k, j) && !Smaller(keys, h[k], h[j])
    ensures SiftState(keys, h0, Swap(h, k, j), len, k0, j)
  {
    SwapQueued(h, len, k, j);
    SiftMoves(keys, h, len, k0, k, j);
  }

  lemma SiftMoves(keys: Keys, h: seq<nat>, len: nat, k0: nat, k: nat, j: nat)
    requires AllKnown(keys, h, len) && 1 <= k0 <= k && Sifting(keys, h, len, k0, k)
    requires SmallerSon(keys, h, len, k, j) && !Smaller(keys, h[k], h[j])
    ensures AllKnown(keys, Swap(h, k, j), len) && Sifting(keys, Swap(h, k, j), len, k0, j)
  {
    assert forall c: nat :: Son(k, c) && c <= len ==> Smaller(keys, h[j], h[c]);
  }

  /** The sift-down ends when no son is left or the node is smaller than both. */
  lemma SiftStop(keys: Keys, h0: seq<nat>, h: seq<nat>, len: nat, k0: nat, k: nat, j: nat)
    requires SiftState(keys, h0, h, len, k0, k)
    requires 2 * k > len || (SmallerSon(keys, h, len, k, j) && Smaller(keys, h[k], h[j]))
    ensures Ordered(keys, h, len, k0) && Rearranged(h0, h, len)
  {
    assert forall c: nat :: Son(k, c) && c <= len ==> Smaller(keys, h[k], h[c]);
  }

  /** In a heap the first node is smaller than every other. */
  lemma {:induction false} FirstIsSmallest(keys: Keys, h: seq<nat>, len: nat, i: nat)
    requires AllKnown(keys, h, len) && HeapFrom(keys, h, len, 1) && 1 <= i <= len
    ensures Smaller(keys, h[1], h[i])
  {
    if i > 1 {
      FirstIsSmallest(keys, h, len, i / 2);
      assert Son(i / 2, i);
    }
  }

  lemma QueuedAppend(h: seq<nat>, len: nat, x: nat)
    requires len + 1 < |h|
    ensures Queued(h[len + 1 := x], len + 1) == Queued(h, len) + multiset{x}
  {
    assert h[len + 1 := x][1..len + 2] == h[1..len + 1] + [x];
  }

  /** Filling the first place from the last takes the first node out of the queue. */
  lemma QueuedRemove(h: seq<nat>, len: nat)
    requires 2 <= len < |h|
    ensures Queued(h[1 := h[len]], len - 1) == Queued(h, len) - multiset{h[1]}
  {
    var s := h[1..len + 1];
    var r := h[1 := h[len]][1..len];
    assert s == [h[1]] + h[2..len] + [h[len]];
    assert r == [h[len]] + h[2..len];
  }

  lemma QueuedReplace(h: seq<nat>, len: nat, x: nat)
    requires 1 <= len < |h|
    ensures Queued(h[1 := x], len) == Queued(h, len) - multiset{h[1]} + multiset{x}
  {
    var s := h[1..len + 1];
    assert s == [h[1]] + h[2..len + 1];
    assert h[1 := x][1..len + 1] == [x] + h[2..len + 1];
  }

  /** The queue depends on its own part of the array only. */
  lemma QueuedFrame(h: seq<nat>, h': seq<nat>, len: nat)
    requires len < |h| && len < |h'| && forall i :: 1 <= i <= len ==> h[i] == h'[i]
    ensures Queued(h, len) == Queued(h', len)
  {
    assert h[1..len + 1] == h'[1..len + 1];
  }

  lemma QueuedMember(h: seq<nat>, len: nat, i: nat)
    requires 1 <= i <= len < |h|
    ensures h[i] in Queued(h, len)
  {
    assert h[1..len + 1][i - 1] == h[i];
  }

  lemma MemberQueued(h: seq<nat>, len: nat, x: nat) returns (i: nat)
    requires len < |h| && x in Queued(h, len)
    ensures 1 <= i <= len && h[i] == x
  {
    var j :| 0 <= j < |h[1..len + 1]| && h[1..len + 1][j] == x;
    i := j + 1;
  }

  lemma RearrangedTrans(h0: seq<nat>, h1: seq<nat>, h2: seq<nat>, len: nat)
    requires Rearranged(h0, h1, len) && Rearranged(h1, h2, len)
    ensures Rearranged(h0, h2, len)
  {
  }

  lemma LeavesOrdered(keys: Keys, h: seq<nat>, len: nat, k: nat)
    requires AllKnown(keys, h, len) && 2 * k > len
    ensures Ordered(keys, h, len, k)
  {
  }

  ghost predicate SameKey(keys: Keys, keys': Keys, n: nat)
  {
    Known(keys, n) && Known(keys', n) && keys'.freq[n] == keys.freq[n] && keys'.depth[n] == keys.depth[n]
  }

  /** A new node in the first place leaves the order below it intact. */
  lemma OrderedNewFirst(keys: Keys, keys': Keys, h: seq<nat>, h': seq<nat>, len: nat)
    requires Ordered(keys, h, len, 1) && 1 <= len < |h'|
    requires Known(keys', h'[1])
    requires forall i :: 2 <= i <= len ==> h'[i] == h[i] && SameKey(keys, keys', h[i])
    ensures Ordered(keys', h', len, 2)
  {
    forall i: nat, c: nat | 2 <= i && Son(i, c) && c <= len
      ensures Smaller(keys', h'[i], h'[c])
    {
      assert Smaller(keys, h[i], h[c]);
    }
  }

  /** The last node moved to the first place. */
  lemma OrderedLastFirst(keys: Keys, h: seq<nat>, len: nat)
    requires Ordered(keys, h, len, 1) && 2 <= len
    ensures Ordered(keys, h[1 := h[len]], len - 1, 2)
  {
    forall i: nat, c: nat | 2 <= i && Son(i, c) && c <= len - 1
      ensures Smaller(keys, h[1 := h[len]][i], h[1 := h[len]][c])
    {
      assert Smaller(keys, h[i], h[c]);
    }
  }
}
