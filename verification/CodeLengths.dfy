/** The run-length code of the code lengths: section 3.2.7 of RFC 1951. What send_tree sends
    makes the decoding machine write the same lengths. */
module CodeLengths {
  import opened Canonical
  import opened BlockSpec

  const REP_3_6: nat := 16
  const REPZ_3_10: nat := 17
  const REPZ_11_138: nat := 18

  /** Line 718: the length that no code has. */
  const GUARD: nat := 0xFFFF

  /** A symbol of the bit length tree with its extra bits. */
  datatype Item = Item(sym: nat, extra: nat, bits: nat)

  /** Longest run sent at once. prev is -1 before the first length. */
  function MaxCount(prev: int, cur: nat): nat
  {
    if cur == 0 then 138 else if prev == cur then 6 else 7
  }

  /** Shortest run sent as a repetition. */
  function MinCount(prev: int, cur: nat): nat
  {
    if cur == 0 || prev == cur then 3 else 4
  }

  function Next(lens: seq<nat>, n: nat): nat
  {
    if n + 1 < |lens| then lens[n + 1] else GUARD
  }

  function Singles(cur: nat, count: nat): seq<Item>
  {
    seq(count, _ => Item(cur, 0, 0))
  }

  /** Lines 764-782: what is sent for a run of count times cur. */
  function Emitted(cur: nat, prev: int, count: nat): seq<Item>
    requires 1 <= count <= MaxCount(prev, cur)
  {
    if count < MinCount(prev, cur) then Singles(cur, count)
    else if cur != 0 then
      if cur != prev then [Item(cur, 0, 0), Item(REP_3_6, count - 4, 2)] else [Item(REP_3_6, count - 3, 2)]
    else if count <= 10 then [Item(REPZ_3_10, count - 3, 3)]
    else [Item(REPZ_11_138, count - 11, 7)]
  }

  /** The items sent from position n on, with count lengths of the current run seen. */
  function Items(lens: seq<nat>, n: nat, prev: int, count: nat): seq<Item>
    requires n <= |lens| && (n < |lens| ==> count < MaxCount(prev, lens[n]))
    decreases |lens| - n
  {
    if n == |lens| then []
    else
      var cur := lens[n];
      if count + 1 < MaxCount(prev, cur) && cur == Next(lens, n) && n + 1 < |lens|
      then Items(lens, n + 1, prev, count + 1)
      else Emitted(cur, prev, count + 1) + Items(lens, n + 1, cur, 0)
  }

  predicate ItemOk(bl: seq<nat>, it: Item)
  {
    HasCode(bl, it.sym)
  }

  function ItemBits(bl: seq<nat>, it: Item): seq<bool>
    requires ItemOk(bl, it)
  {
    PartsBits(bl, 0, Parts(it.sym, it.extra, it.bits))
  }

  predicate AllOk(bl: seq<nat>, items: seq<Item>)
  {
    forall i :: 0 <= i < |items| ==> ItemOk(bl, items[i])
  }

  function ItemsBits(bl: seq<nat>, items: seq<Item>): seq<bool>
    requires AllOk(bl, items)
  {
    if items == [] then [] else ItemBits(bl, items[0]) + ItemsBits(bl, items[1..])
  }

  lemma {:induction false} ItemsConcat(bl: seq<nat>, a: seq<Item>, b: seq<Item>)
    requires AllOk(bl, a) && AllOk(bl, b)
    ensures AllOk(bl, a + b) && ItemsBits(bl, a + b) == ItemsBits(bl, a) + ItemsBits(bl, b)
  {
    hide ItemBits, ItemOk;
    if a == [] {
      assert a + b == b;
    } else {
      ItemsConcat(bl, a[1..], b);
      var x, y, z := ItemBits(bl, a[0]), ItemsBits(bl, a[1..]), ItemsBits(bl, b);
      assert (a + b)[0] == a[0] && (a + b)[1..] == a[1..] + b;
      assert x + (y + z) == (x + y) + z;
    }
  }

  /** An item of the form that send_tree sends, and how many lengths it stands for. */
  predicate WellFormed(it: Item)
  {
    if it.sym <= MAXBITS then it.bits == 0 && it.extra == 0
    else if it.sym == REP_3_6 then it.bits == 2 && it.extra < 4
    else if it.sym == REPZ_3_10 then it.bits == 3 && it.extra < 8
    else it.sym == REPZ_11_138 && it.bits == 7 && it.extra < 128
  }

  function Times(it: Item): nat
  {
    if it.sym <= MAXBITS then 1 else if it.sym == REPZ_11_138 then 11 + it.extra else 3 + it.extra
  }

  /** The length it stands for after the lengths so far. */
  function Value(it: Item, lens: seq<nat>): nat
    requires it.sym == REP_3_6 ==> lens != []
  {
    if it.sym <= MAXBITS then it.sym else if it.sym == REP_3_6 then lens[|lens| - 1] else 0
  }

  /** The meaning of a list of items: the lengths it adds to those before it. */
  predicate Readable(lens: seq<nat>, items: seq<Item>)
    decreases |items|
  {
    items == []
    || (&& WellFormed(items[0]) && (items[0].sym == REP_3_6 ==> lens != [])
        && Readable(lens + seq(Times(items[0]), _ => Value(items[0], lens)), items[1..]))
  }

  function Meaning(lens: seq<nat>, items: seq<Item>): seq<nat>
    requires Readable(lens, items)
    decreases |items|
  {
    if items == [] then lens
    else Meaning(lens + seq(Times(items[0]), _ => Value(items[0], lens)), items[1..])
  }

  lemma {:induction false} MeaningConcat(lens: seq<nat>, a: seq<Item>, b: seq<Item>)
    requires Readable(lens, a) && Readable(Meaning(lens, a), b)
    ensures Readable(lens, a + b) && Meaning(lens, a + b) == Meaning(Meaning(lens, a), b)
    decreases |a|
  {
    if a == [] {
      assert a + b == b;
    } else {
      MeaningConcat(lens + seq(Times(a[0]), _ => Value(a[0], lens)), a[1..], b);
      assert (a + b)[0] == a[0] && (a + b)[1..] == a[1..] + b;
    }
  }

  /** The last length sent, as prev tells it. */
  predicate LastIs(lens: seq<nat>, prev: int)
  {
    prev >= 0 ==> lens != [] && lens[|lens| - 1] == prev
  }

  lemma {:induction false} SinglesMean(before: seq<nat>, cur: nat, count: nat)
    requires cur <= MAXBITS
    ensures Readable(before, Singles(cur, count))
    ensures Meaning(before, Singles(cur, count)) == before + seq(count, _ => cur)
    decreases count
  {
    if count > 0 {
      SinglesMean(before + [cur], cur, count - 1);
      var s := Singles(cur, count);
      assert s[0] == Item(cur, 0, 0) && s[1..] == Singles(cur, count - 1);
      assert seq(1, _ => cur) == [cur];
      assert seq(Times(s[0]), _ => Value(s[0], before)) == [cur];
      assert before + [cur] + seq(count - 1, _ => cur) == before + seq(count, _ => cur);
    } else {
      assert before + seq(0, _ => cur) == before;
    }
  }

  lemma OneMeans(before: seq<nat>, it: Item)
    requires WellFormed(it) && (it.sym == REP_3_6 ==> before != [])
    ensures Readable(before, [it]) && Meaning(before, [it]) == before + seq(Times(it), _ => Value(it, before))
  {
    var after := before + seq(Times(it), _ => Value(it, before));
    assert [it][1..] == [];
    assert Readable(after, []) && Meaning(after, []) == after;
  }

  /** What is sent for a run means the run. */
  lemma EmittedMeans(before: seq<nat>, cur: nat, prev: int, count: nat)
    requires cur <= MAXBITS && 1 <= count <= MaxCount(prev, cur) && LastIs(before, prev)
    ensures Readable(before, Emitted(cur, prev, count))
    ensures Meaning(before, Emitted(cur, prev, count)) == before + seq(count, _ => cur)
  {
    hide Readable, Meaning;
    if count < MinCount(prev, cur) {
      SinglesMean(before, cur, count);
    } else if cur != 0 && cur != prev {
      var a, b := Item(cur, 0, 0), Item(REP_3_6, count - 4, 2);
      OneMeans(before, a);
      assert seq(1, _ => cur) == [cur];
      assert seq(Times(a), _ => Value(a, before)) == [cur];
      var mid := before + [cur];
      OneMeans(mid, b);
      assert seq(Times(b), _ => Value(b, mid)) == seq(count - 1, _ => cur);
      MeaningConcat(before, [a], [b]);
      assert mid + seq(count - 1, _ => cur) == before + seq(count, _ => cur);
      assert [a] + [b] == Emitted(cur, prev, count);
    } else {
      var it := Emitted(cur, prev, count)[0];
      OneMeans(before, it);
      assert seq(Times(it), _ => Value(it, before)) == seq(count, _ => cur);
      assert [it] == Emitted(cur, prev, count);
    }
  }

  /** The last count lengths before n are a run that goes on at n. */
  predicate Run(lens: seq<nat>, n: nat, count: nat)
  {
    count <= n <= |lens| && if n == |lens| then count == 0 else forall i :: n - count <= i < n ==> lens[i] == lens[n]
  }

  lemma RunGrows(lens: seq<nat>, n: nat, count: nat)
    requires n < |lens| && Run(lens, n, count)
    ensures n + 1 < |lens| && lens[n] == Next(lens, n) ==> Run(lens, n + 1, count + 1)
    ensures Run(lens, n + 1, 0) && count <= n && seq(count + 1, _ => lens[n]) == lens[n - count..n + 1]
  {
  }

  lemma ItemsStep(lens: seq<nat>, n: nat, prev: int, count: nat)
    requires n < |lens| && count < MaxCount(prev, lens[n])
    ensures Items(lens, n, prev, count) ==
      if count + 1 < MaxCount(prev, lens[n]) && lens[n] == Next(lens, n) && n + 1 < |lens|
      then Items(lens, n + 1, prev, count + 1)
      else Emitted(lens[n], prev, count + 1) + Items(lens, n + 1, lens[n], 0)
  {
  }

  lemma ItemsNone(lens: seq<nat>, prev: int)
    ensures Items(lens, |lens|, prev, 0) == []
  {
  }

  /** The items of a tree mean its lengths. */
  lemma {:induction false} ItemsMean(lens: seq<nat>, n: nat, prev: int, count: nat, before: seq<nat>)
    requires LengthsOk(lens) && count <= n <= |lens| && Run(lens, n, count)
    requires n < |lens| ==> count < MaxCount(prev, lens[n])
    requires LastIs(before, prev)
    ensures Readable(before, Items(lens, n, prev, count))
    ensures Meaning(before, Items(lens, n, prev, count)) == before + lens[n - count..]
    decreases |lens| - n
  {
    hide Readable, Meaning, Emitted, Items, Run;
    if n == |lens| {
      RunEnd(lens, count);
      ItemsNone(lens, prev);
      NothingMeans(before);
    } else {
      ItemsStep(lens, n, prev, count);
      RunGrows(lens, n, count);
      var cur := lens[n];
      if count + 1 < MaxCount(prev, cur) && cur == Next(lens, n) && n + 1 < |lens| {
        ItemsMean(lens, n + 1, prev, count + 1, before);
      } else {
        EmittedMeans(before, cur, prev, count + 1);
        var mid := before + lens[n - count..n + 1];
        ItemsMean(lens, n + 1, cur, 0, mid);
        MeaningConcat(before, Emitted(cur, prev, count + 1), Items(lens, n + 1, cur, 0));
        assert lens[n - count..n + 1] + lens[n + 1..] == lens[n - count..];
      }
    }
  }

  lemma RunEnd(lens: seq<nat>, count: nat)
    requires Run(lens, |lens|, count)
    ensures count == 0
  {
  }

  lemma NothingMeans(before: seq<nat>)
    ensures Readable(before, []) && Meaning(before, []) == before
  {
  }
}
