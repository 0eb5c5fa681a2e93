/** Counts of codes per bit length. `Used(bl, b)` is the part of the code space,
    in units of 2^-b, that the codes of at most b bits take up; the encoder's
    next_code and the decoder's `left` are both read off it. */
module LengthCounts {
  import opened Powers
  import opened PrefixCodes

  function Used(bl: seq<nat>, b: nat): nat
    requires b < |bl|
  {
    if b == 0 then bl[0] else 2 * Used(bl, b - 1) + bl[b]
  }

  lemma {:induction false} UsedNothing(bl: seq<nat>, b: nat)
    requires b < |bl| && forall i :: 0 <= i <= b ==> bl[i] == 0
    ensures Used(bl, b) == 0
  {
    if b > 0 {
      UsedNothing(bl, b - 1);
    }
  }

  /** `bl` counts the code lengths of the nodes. */
  ghost predicate CountsOf(bl: seq<nat>, nodes: set<nat>, lens: seq<nat>)
  {
    forall b :: 0 <= b < |bl| ==> bl[b] == CountLen(nodes, lens, b)
  }

  /** Counting per length and summing per node give the same Kraft sum. */
  lemma {:induction false} UsedIsKraft(bl: seq<nat>, nodes: set<nat>, lens: seq<nat>, b: nat)
    requires b < |bl| && CountsOf(bl, nodes, lens)
    ensures Used(bl, b) == Kraft(nodes, lens, b)
  {
    if b == 0 {
      KraftZero(nodes, lens);
    } else {
      UsedIsKraft(bl, nodes, lens, b - 1);
      KraftStep(nodes, lens, b);
    }
  }

  lemma {:induction false} KraftZero(nodes: set<nat>, lens: seq<nat>)
    ensures Kraft(nodes, lens, 0) == CountLen(nodes, lens, 0)
  {
    if lens != [] {
      KraftZero(nodes, lens[..|lens| - 1]);
    }
  }

  function TotalCount(bl: seq<nat>, b: nat): nat
    requires b < |bl|
  {
    if b == 0 then bl[0] else TotalCount(bl, b - 1) + bl[b]
  }

  /** One pass of the overflow repair: a leaf at `bits` moves one level down and takes
      an overflowing leaf as its brother. */
  ghost predicate Demoted(bl: seq<nat>, bl': seq<nat>, bits: nat, max: nat)
  {
    && bits < max < |bl| == |bl'|
    && (forall b :: 0 <= b < |bl| && b != bits && b != bits + 1 && b != max ==> bl'[b] == bl[b])
    && bl'[bits] + 1 == bl[bits]
    && (if bits + 1 == max then bl'[max] == bl[max] + 1
        else bl'[bits + 1] == bl[bits + 1] + 2 && bl'[max] + 1 == bl[max])
  }

  /** The pass takes exactly one unit off the Kraft sum. */
  lemma {:induction false} DemotedUsed(bl: seq<nat>, bl': seq<nat>, bits: nat, max: nat, b: nat)
    requires Demoted(bl, bl', bits, max) && b <= max
    ensures Used(bl', b) == Used(bl, b) - if b == bits || b == max then 1 else 0
  {
    if b > 0 {
      DemotedUsed(bl, bl', bits, max, b - 1);
    }
  }

  /** The pass keeps the number of leaves. */
  lemma {:induction false} DemotedTotal(bl: seq<nat>, bl': seq<nat>, bits: nat, max: nat, b: nat)
    requires Demoted(bl, bl', bits, max) && b <= max
    ensures TotalCount(bl', b) == TotalCount(bl, b) + if b == bits then -1 else if bits < b < max then 1 else 0
  {
    if b > 0 {
      DemotedTotal(bl, bl', bits, max, b - 1);
    }
  }

  /** While the code space is over-full, some leaf above the bottom can move down. */
  lemma {:induction false} SomeShorter(bl: seq<nat>, max: nat, bits: nat)
    requires bits < max < |bl| && bl[0] == 0
    requires forall i :: bits < i < max ==> bl[i] == 0
    requires Used(bl, max) > Pow2(max) && bl[max] <= Pow2(max)
    ensures exists i :: 1 <= i <= bits && bl[i] > 0
  {
    if bits == 0 {
      UsedNothing(bl, max - 1);
    } else if bl[bits] == 0 {
      SomeShorter(bl, max, bits - 1);
    }
  }

  /** How many of the nodes have length at most b. */
  ghost function CountUpTo(nodes: set<nat>, lens: seq<nat>, b: nat): nat
  {
    if lens == [] then 0
    else
      var n := |lens| - 1;
      CountUpTo(nodes, lens[..n], b) + if n in nodes && lens[n] <= b then 1 else 0
  }

  lemma {:induction false} CountUpToStep(nodes: set<nat>, lens: seq<nat>, b: nat)
    ensures b > 0 ==> CountUpTo(nodes, lens, b) == CountUpTo(nodes, lens, b - 1) + CountLen(nodes, lens, b)
    ensures b == 0 ==> CountUpTo(nodes, lens, b) == CountLen(nodes, lens, b)
  {
    if lens != [] {
      CountUpToStep(nodes, lens[..|lens| - 1], b);
    }
  }

  lemma {:induction false} TotalIsCount(bl: seq<nat>, nodes: set<nat>, lens: seq<nat>, b: nat)
    requires b < |bl| && CountsOf(bl, nodes, lens)
    ensures TotalCount(bl, b) == CountUpTo(nodes, lens, b)
  {
    CountUpToStep(nodes, lens, b);
    if b > 0 {
      TotalIsCount(bl, nodes, lens, b - 1);
    }
  }

  lemma {:induction false} CountAll(nodes: set<nat>, lens: seq<nat>, b: nat)
    requires InRange(nodes, |lens|) && forall i :: i in nodes ==> lens[i] <= b
    ensures CountUpTo(nodes, lens, b) == |nodes|
  {
    if lens == [] {
      assert nodes == {};
    } else {
      var n := |lens| - 1;
      CountAll(nodes - {n}, lens[..n], b);
      CountUpToSame(nodes, nodes - {n}, lens[..n], b);
    }
  }

  lemma {:induction false} CountUpToSame(nodes: set<nat>, nodes': set<nat>, lens: seq<nat>, b: nat)
    requires forall i :: 0 <= i < |lens| ==> (i in nodes <==> i in nodes')
    ensures CountUpTo(nodes, lens, b) == CountUpTo(nodes', lens, b)
  {
    if lens != [] {
      CountUpToSame(nodes, nodes', lens[..|lens| - 1], b);
    }
  }

  /** The counts of all lengths add up to the number of nodes. */
  lemma TotalIsSize(bl: seq<nat>, nodes: set<nat>, lens: seq<nat>, max: nat)
    requires max < |bl| && CountsOf(bl, nodes, lens)
    requires InRange(nodes, |lens|) && forall i :: i in nodes ==> lens[i] <= max
    ensures TotalCount(bl, max) == |nodes|
  {
    TotalIsCount(bl, nodes, lens, max);
    CountAll(nodes, lens, max);
  }

  lemma {:induction false} CountBelowTotal(bl: seq<nat>, i: nat, b: nat)
    requires i <= b < |bl|
    ensures bl[i] <= TotalCount(bl, b)
  {
    if i < b {
      CountBelowTotal(bl, i, b - 1);
    }
  }

  /** What the overflow repair keeps: `over` units of code space are still to be freed. */
  ghost predicate Repairing(bl: seq<nat>, max: nat, over: nat, leaves: nat)
  {
    && 1 <= max < |bl| && bl[0] == 0 && leaves <= Pow2(max)
    && Used(bl, max) == Pow2(max) + over && TotalCount(bl, max) == leaves
    && (over > 0 ==> bl[max] > over)
    && forall b :: max < b < |bl| ==> bl[b] == 0
  }

  /** The search of lines 533-534 cannot run below length 1. */
  lemma RepairSearch(bl: seq<nat>, max: nat, over: nat, leaves: nat, bits: nat)
    requires Repairing(bl, max, over, leaves) && over > 0 && bits < max
    requires forall i :: bits < i < max ==> bl[i] == 0
    ensures bits >= 1 && (bl[bits] == 0 ==> bits >= 2)
  {
    hide Used, TotalCount, Pow2;
    CountBelowTotal(bl, max, max);
    SomeShorter(bl, max, bits);
  }

  /** One pass frees one unit and keeps every count non-negative. */
  lemma RepairStep(bl: seq<nat>, bl': seq<nat>, max: nat, over: nat, leaves: nat, bits: nat)
    requires Repairing(bl, max, over, leaves) && over > 0 && Demoted(bl, bl', bits, max) && bits >= 1
    ensures Repairing(bl', max, over - 1, leaves)
  {
    hide Used, TotalCount, Pow2;
    DemotedUsed(bl, bl', bits, max, max);
    DemotedTotal(bl, bl', bits, max, max);
  }
}
