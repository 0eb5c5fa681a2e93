/** The header of a dynamic block, written and read back: send_all_trees against the states
    TABLE, LENLENS and CODELENS. */
module HeaderSpec {
  import opened Powers
  import opened BitStreams
  import opened Canonical
  import opened TableSpec
  import opened InflateSpec
  import opened InflateRuns
  import opened BlockSpec
  import opened CodeLengths

  /** The machine has read the lengths done with the code length code bl. */
  predicate Reading(s: State, bl: seq<nat>, done: seq<nat>, bits: seq<bool>)
  {
    && At(s, bits) && s.mode == CODELENS && s.lcode == bl && |s.lens| == 320 && |bl| == 19
    && s.have == |done| <= s.nlen + s.ndist <= 320 && s.lens[..s.have] == done
  }

  /** Only the reading position and the lengths move on. */
  predicate SameHeader(s: State, s': State)
  {
    s' == s.(pos := s'.pos, have := s'.have, lens := s'.lens)
  }

  lemma ReadCode(s: State, bl: seq<nat>, done: seq<nat>, it: Item, bits: seq<bool>) returns (s': State)
    requires Reading(s, bl, done, bits) && WellFormed(it) && it.sym <= MAXBITS && ItemOk(bl, it)
    requires Has(bits, s.pos, ItemBits(bl, it)) && |done| < s.nlen + s.ndist
    ensures Reading(s', bl, done + [it.sym], bits) && Reaches(s, s', bits) && SameHeader(s, s')
    ensures s'.pos == s.pos + |ItemBits(bl, it)|
  {
    hide Accepted, PartsBits, Decode, Rest, Reaches, Peek, RepeatStep;
    ReadingAccepted(s, bits);
    ItemFits(it);
    HasParts(CODES, bl, 0, Parts(it.sym, it.extra, it.bits), bits, s.pos);
    s' := Step(s, bits).value;
    ReachesStep(s, bits);
  }

  lemma ReadingAccepted(s: State, bits: seq<bool>)
    requires At(s, bits) && s.mode == CODELENS
    ensures Accepted(CODES, s.lcode)
  {
    hide Accepted;
  }

  lemma ItemFits(it: Item)
    requires WellFormed(it)
    ensures it.extra < Pow2(it.bits)
  {
    assert Pow2(2) == 4 && Pow2(3) == 8 && Pow2(7) == 128;
  }

  /** A repetition appends its lengths. */
  lemma RepeatAppends(lens: seq<nat>, have: nat, n: nat, v: nat)
    requires have + n <= |lens|
    ensures Repeat(lens, have, n, v)[..have + n] == lens[..have] + seq(n, _ => v)
  {
  }

  lemma ReadRepeat(s: State, bl: seq<nat>, done: seq<nat>, it: Item, bits: seq<bool>) returns (s': State)
    requires Reading(s, bl, done, bits) && WellFormed(it) && it.sym > MAXBITS && ItemOk(bl, it)
    requires it.sym == REP_3_6 ==> done != []
    requires Has(bits, s.pos, ItemBits(bl, it)) && |done| + Times(it) <= s.nlen + s.ndist
    ensures Reading(s', bl, done + seq(Times(it), _ => Value(it, done)), bits) && Reaches(s, s', bits)
    ensures SameHeader(s, s')
    ensures s'.pos == s.pos + |ItemBits(bl, it)|
  {
    hide Accepted, PartsBits, Decode, Rest, Reaches, Peek, Repeat;
    ReadingAccepted(s, bits);
    ItemFits(it);
    HasParts(CODES, bl, 0, Parts(it.sym, it.extra, it.bits), bits, s.pos);
    s' := Step(s, bits).value;
    ReachesStep(s, bits);
    RepeatAppends(s.lens, s.have, Times(it), Value(it, done));
  }

  /** The machine reads what a list of items means. */
  lemma {:induction false} ReadItems(s: State, bl: seq<nat>, done: seq<nat>, items: seq<Item>, bits: seq<bool>)
    returns (s': State)
    requires Reading(s, bl, done, bits) && AllOk(bl, items) && Readable(done, items)
    requires |Meaning(done, items)| <= s.nlen + s.ndist
    requires Has(bits, s.pos, ItemsBits(bl, items))
    ensures Reading(s', bl, Meaning(done, items), bits) && Reaches(s, s', bits) && SameHeader(s, s')
    ensures s'.pos == s.pos + |ItemsBits(bl, items)|
    decreases |items|
  {
    hide Reading, Reaches, At, ItemBits, ItemOk, WellFormed;
    if items == [] {
      s' := s;
      ReadingSelf(s, bl, done, bits);
    } else {
      var it := items[0];
      HasConcat(bits, s.pos, ItemBits(bl, it), ItemsBits(bl, items[1..]));
      var next := done + seq(Times(it), _ => Value(it, done));
      MeaningGrows(next, items[1..]);
      var s1 := ReadItem(s, bl, done, it, bits);
      s' := ReadItems(s1, bl, next, items[1..], bits);
      ReadingAt(s, bl, done, bits);
      ReadingAt(s1, bl, next, bits);
      ReachesTrans(s, s1, s', bits);
    }
  }

  lemma ReadingSelf(s: State, bl: seq<nat>, done: seq<nat>, bits: seq<bool>)
    requires Reading(s, bl, done, bits)
    ensures Reaches(s, s, bits)
  {
    hide Reaches;
    ReachesSelf(s, bits);
  }

  lemma ReadingAt(s: State, bl: seq<nat>, done: seq<nat>, bits: seq<bool>)
    requires Reading(s, bl, done, bits)
    ensures At(s, bits)
  {
    hide At;
  }

  lemma {:induction false} MeaningGrows(lens: seq<nat>, items: seq<Item>)
    requires Readable(lens, items)
    ensures |lens| <= |Meaning(lens, items)|
    decreases |items|
  {
    if items != [] {
      MeaningGrows(lens + seq(Times(items[0]), _ => Value(items[0], lens)), items[1..]);
    }
  }

  lemma ReadItem(s: State, bl: seq<nat>, done: seq<nat>, it: Item, bits: seq<bool>) returns (s': State)
    requires Reading(s, bl, done, bits) && WellFormed(it) && ItemOk(bl, it) && (it.sym == REP_3_6 ==> done != [])
    requires Has(bits, s.pos, ItemBits(bl, it)) && |done| + Times(it) <= s.nlen + s.ndist
    ensures Reading(s', bl, done + seq(Times(it), _ => Value(it, done)), bits) && Reaches(s, s', bits)
    ensures SameHeader(s, s')
    ensures s'.pos == s.pos + |ItemBits(bl, it)|
  {
    hide Reading, Reaches, At, ItemBits, ItemOk, WellFormed;
    if it.sym <= MAXBITS {
      assert seq(Times(it), _ => Value(it, done)) == [it.sym];
      s' := ReadCode(s, bl, done, it, bits);
    } else {
      s' := ReadRepeat(s, bl, done, it, bits);
    }
  }

  /** The lengths of the code length codes, in the order of line 70 of trees.c, from k up to n. */
  function OrderBits(bl: seq<nat>, k: nat, n: nat): seq<bool>
    requires |bl| == 19 && n <= 19
    decreases n - k
  {
    if k >= n then [] else BitsOf(bl[ORDER[k]], 3) + OrderBits(bl, k + 1, n)
  }

  /** The lengths not sent are zero. */
  predicate ZeroFrom(bl: seq<nat>, k: nat)
    requires |bl| == 19
  {
    forall j :: k <= j < 19 ==> bl[ORDER[j]] == 0
  }

  predicate SameOrder(bl: seq<nat>, lens: seq<nat>, k: nat)
    requires |bl| == 19 && |lens| == 320 && k <= 19
  {
    forall j :: 0 <= j < k ==> lens[ORDER[j]] == bl[ORDER[j]]
  }

  lemma {:induction false} ClearedIs(bl: seq<nat>, lens: seq<nat>, k: nat)
    requires |bl| == 19 && |lens| == 320 && k <= 19 && SameOrder(bl, lens, k) && ZeroFrom(bl, k)
    ensures ClearFrom(lens, k)[..19] == bl
    decreases 19 - k
  {
    if k < 19 {
      ClearedIs(bl, lens[ORDER[k] := 0], k + 1);
    } else {
      forall i | 0 <= i < 19 ensures lens[i] == bl[i] {
        var j := InOrder(i);
      }
    }
  }

  /** What send_tree sends for a whole tree. */
  function TreeItems(lens: seq<nat>): seq<Item>
  {
    Items(lens, 0, -1, 0)
  }

  /** What the three counts and two trees of a dynamic block must satisfy. */
  predicate Sound(llens: seq<nat>, dlens: seq<nat>, bl: seq<nat>, blcodes: nat)
  {
    && 257 <= |llens| <= 286 && 1 <= |dlens| <= 30 && 4 <= blcodes <= 19 && |bl| == 19
    && (forall i :: 0 <= i < 19 ==> bl[i] <= 7) && ZeroFrom(bl, blcodes)
    && Accepted(CODES, bl) && Accepted(LENS, llens) && Accepted(DISTS, dlens) && llens[256] >= 1
    && AllOk(bl, TreeItems(llens)) && AllOk(bl, TreeItems(dlens))
  }

  /** Lines 834-858 of trees.c. */
  function HeaderBits(llens: seq<nat>, dlens: seq<nat>, bl: seq<nat>, blcodes: nat): seq<bool>
    requires Sound(llens, dlens, bl, blcodes)
  {
    CountBits(|llens|, |dlens|, blcodes) + OrderBits(bl, 0, blcodes)
    + ItemsBits(bl, TreeItems(llens)) + ItemsBits(bl, TreeItems(dlens))
  }

  function CountBits(lcodes: nat, dcodes: nat, blcodes: nat): seq<bool>
    requires 257 <= lcodes && 1 <= dcodes && 4 <= blcodes
  {
    BitsOf(lcodes - 257, 5) + BitsOf(dcodes - 1, 5) + BitsOf(blcodes - 4, 4)
  }

  lemma ReadCounts(s: State, lcodes: nat, dcodes: nat, blcodes: nat, bits: seq<bool>) returns (s': State)
    requires At(s, bits) && s.mode == TABLE && 257 <= lcodes <= 286 && 1 <= dcodes <= 30 && 4 <= blcodes <= 19
    requires Has(bits, s.pos, CountBits(lcodes, dcodes, blcodes))
    ensures At(s', bits) && Reaches(s, s', bits) && s'.mode == LENLENS && s'.have == 0
    ensures s'.nlen == lcodes && s'.ndist == dcodes && s'.ncode == blcodes && s'.out == s.out && s'.last == s.last
    ensures s'.far == s.far
    ensures s'.pos == s.pos + |CountBits(lcodes, dcodes, blcodes)|
  {
    hide BitsOf, Reaches, Peek, Pow2;
    FivePowers();
    var a, b, c := BitsOf(lcodes - 257, 5), BitsOf(dcodes - 1, 5), BitsOf(blcodes - 4, 4);
    HasConcat(bits, s.pos, a + b, c);
    HasConcat(bits, s.pos, a, b);
    HasPeek(bits, s.pos, lcodes - 257, 5);
    HasPeek(bits, s.pos + 5, dcodes - 1, 5);
    HasPeek(bits, s.pos + 10, blcodes - 4, 4);
    s' := Step(s, bits).value;
    ReachesStep(s, bits);
  }

  lemma FivePowers()
    ensures Pow2(3) == 8 && Pow2(4) == 16 && Pow2(5) == 32
  {
  }

  /** The next code length of a code length code. */
  lemma ReadOne(s: State, bl: seq<nat>, bits: seq<bool>) returns (s': State)
    requires At(s, bits) && s.mode == LENLENS && |bl| == 19 && s.have < s.ncode <= 19
    requires bl[ORDER[s.have]] <= 7 && Has(bits, s.pos, BitsOf(bl[ORDER[s.have]], 3))
    ensures At(s', bits) && Reaches(s, s', bits) && |s.lens| == 320
    ensures s' == s.(pos := s.pos + 3, have := s.have + 1, lens := s.lens[ORDER[s.have] := bl[ORDER[s.have]]])
  {
    hide BitsOf, Reaches, Peek, Pow2, Accepted;
    FivePowers();
    HasPeek(bits, s.pos, bl[ORDER[s.have]], 3);
    s' := Step(s, bits).value;
    ReachesStep(s, bits);
  }

  lemma OrderStep(bl: seq<nat>, lens: seq<nat>, k: nat, n: nat)
    requires |bl| == 19 && |lens| == 320 && k < n <= 19 && SameOrder(bl, lens, k)
    ensures SameOrder(bl, lens[ORDER[k] := bl[ORDER[k]]], k + 1) && |BitsOf(bl[ORDER[k]], 3)| == 3
    ensures OrderBits(bl, k, n) == BitsOf(bl[ORDER[k]], 3) + OrderBits(bl, k + 1, n)
  {
  }

  lemma NoOrder(bl: seq<nat>, n: nat)
    requires |bl| == 19 && n <= 19
    ensures OrderBits(bl, n, n) == []
  {
  }

  lemma OrderRange(k: nat)
    requires k < 19
    ensures k < |ORDER| && ORDER[k] < 19
  {
  }

  lemma {:induction false} ReadOrder(s: State, bl: seq<nat>, bits: seq<bool>) returns (s': State)
    requires At(s, bits) && s.mode == LENLENS && |bl| == 19 && |s.lens| == 320 && s.have <= s.ncode <= 19
    requires SameOrder(bl, s.lens, s.have) && forall i :: 0 <= i < 19 ==> bl[i] <= 7
    requires Has(bits, s.pos, OrderBits(bl, s.have, s.ncode))
    ensures At(s', bits) && Reaches(s, s', bits) && SameHeader(s, s') && |s'.lens| == 320
    ensures s'.have == s.ncode && SameOrder(bl, s'.lens, s.ncode)
    ensures s'.pos == s.pos + |OrderBits(bl, s.have, s.ncode)|
    decreases s.ncode - s.have
  {
    hide BitsOf, Reaches, At, Has, OrderBits, SameOrder, ORDER;
    if s.have == s.ncode {
      s' := s;
      ReachesSelf(s, bits);
      NoOrder(bl, s.ncode);
    } else {
      OrderRange(s.have);
      OrderStep(bl, s.lens, s.have, s.ncode);
      HasConcat(bits, s.pos, BitsOf(bl[ORDER[s.have]], 3), OrderBits(bl, s.have + 1, s.ncode));
      var s1 := ReadOne(s, bl, bits);
      s' := ReadOrder(s1, bl, bits);
      ReachesTrans(s, s1, s', bits);
    }
  }

  /** The code length code is in place. */
  lemma ReadBlCode(s: State, bl: seq<nat>, bits: seq<bool>) returns (s': State)
    requires At(s, bits) && s.mode == LENLENS && |bl| == 19 && |s.lens| == 320 && s.have == s.ncode <= 19
    requires SameOrder(bl, s.lens, s.ncode) && ZeroFrom(bl, s.ncode) && Accepted(CODES, bl)
    requires s.nlen + s.ndist <= 320
    ensures Reading(s', bl, [], bits) && Reaches(s, s', bits)
    ensures s'.pos == s.pos && s'.nlen == s.nlen && s'.ndist == s.ndist && s'.out == s.out && s'.last == s.last
    ensures s'.far == s.far
  {
    hide Reaches, Accepted, ClearFrom;
    ClearedIs(bl, s.lens, s.have);
    s' := Step(s, bits).value;
    ReachesStep(s, bits);
  }

  lemma ItemsMeanAll(lens: seq<nat>, before: seq<nat>)
    requires LengthsOk(lens)
    ensures Readable(before, TreeItems(lens)) && Meaning(before, TreeItems(lens)) == before + lens
  {
    hide Readable, Meaning, Items;
    ItemsMean(lens, 0, -1, 0, before);
    assert lens[0..] == lens;
  }

  /** Both trees are read back: the sequence goes on from the literal into the distance tree. */
  lemma ReadTrees(s: State, llens: seq<nat>, dlens: seq<nat>, bl: seq<nat>, bits: seq<bool>) returns (s': State)
    requires LengthsOk(llens) && LengthsOk(dlens) && AllOk(bl, TreeItems(llens)) && AllOk(bl, TreeItems(dlens))
    requires Reading(s, bl, [], bits) && s.nlen == |llens| && s.ndist == |dlens|
    requires Has(bits, s.pos, ItemsBits(bl, TreeItems(llens)) + ItemsBits(bl, TreeItems(dlens)))
    ensures Reading(s', bl, llens + dlens, bits) && Reaches(s, s', bits) && SameHeader(s, s')
    ensures s'.pos == s.pos + |ItemsBits(bl, TreeItems(llens))| + |ItemsBits(bl, TreeItems(dlens))|
  {
    hide Reading, Reaches, TreeItems, ItemsBits, At, Readable, Meaning;
    var a, b := TreeItems(llens), TreeItems(dlens);
    HasConcat(bits, s.pos, ItemsBits(bl, a), ItemsBits(bl, b));
    ItemsMeanAll(llens, []);
    ItemsMeanAll(dlens, llens);
    assert [] + llens == llens;
    var s1 := ReadItems(s, bl, [], a, bits);
    s' := ReadItems(s1, bl, llens, b, bits);
    ReadingAt(s, bl, [], bits);
    ReadingAt(s1, bl, llens, bits);
    ReachesTrans(s, s1, s', bits);
  }

  lemma SoundLengths(llens: seq<nat>, dlens: seq<nat>, bl: seq<nat>, blcodes: nat)
    requires Sound(llens, dlens, bl, blcodes)
    ensures LengthsOk(llens) && LengthsOk(dlens)
  {
  }

  lemma ReadCodesDone(s: State, llens: seq<nat>, dlens: seq<nat>, bl: seq<nat>, bits: seq<bool>) returns (s': State)
    requires Reading(s, bl, llens + dlens, bits) && s.nlen == |llens| > 256 && s.ndist == |dlens|
    requires Accepted(LENS, llens) && Accepted(DISTS, dlens) && llens[256] >= 1
    ensures InBlock(s', llens, dlens, bits) && Reaches(s, s', bits)
    ensures s'.pos == s.pos && s'.out == s.out && s'.last == s.last && s'.far == s.far
  {
    hide Reaches, Accepted;
    var n := |llens|;
    assert s.lens[..n] == (llens + dlens)[..n] == llens;
    assert s.lens[n..n + |dlens|] == (llens + dlens)[n..] == dlens;
    assert s.lens[256] == llens[256];
    s' := Step(s, bits).value;
    ReachesStep(s, bits);
  }

  /** send_all_trees' bits, decoded, give both length vectors exactly. */
  lemma ReadHeader(s: State, llens: seq<nat>, dlens: seq<nat>, bl: seq<nat>, blcodes: nat, bits: seq<bool>)
    returns (s': State)
    requires At(s, bits) && s.mode == TABLE && Sound(llens, dlens, bl, blcodes)
    requires Has(bits, s.pos, HeaderBits(llens, dlens, bl, blcodes))
    ensures InBlock(s', llens, dlens, bits) && Reaches(s, s', bits)
    ensures s'.pos == s.pos + |HeaderBits(llens, dlens, bl, blcodes)| && s'.out == s.out && s'.last == s.last
    ensures s'.far == s.far
  {
    hide Reading, Reaches, TreeItems, ItemsBits, Accepted, CountBits, OrderBits, InBlock, At;
    var a, b := CountBits(|llens|, |dlens|, blcodes), OrderBits(bl, 0, blcodes);
    var c, d := ItemsBits(bl, TreeItems(llens)), ItemsBits(bl, TreeItems(dlens));
    assert a + b + c + d == a + (b + (c + d));
    HasConcat(bits, s.pos, a, b + (c + d));
    HasConcat(bits, s.pos + |a|, b, c + d);
    var s1 := ReadCounts(s, |llens|, |dlens|, blcodes, bits);
    StateSize(s1, bits);
    var s2 := ReadOrder(s1, bl, bits);
    var s3 := ReadBlCode(s2, bl, bits);
    SoundLengths(llens, dlens, bl, blcodes);
    var s4 := ReadTrees(s3, llens, dlens, bl, bits);
    s' := ReadCodesDone(s4, llens, dlens, bl, bits);
    ReadingAt(s3, bl, [], bits);
    ReadingAt(s4, bl, llens + dlens, bits);
    ReachesTrans(s, s1, s2, bits);
    ReachesTrans(s, s2, s3, bits);
    ReachesTrans(s, s3, s4, bits);
    ReachesTrans(s, s4, s', bits);
  }

  lemma StateSize(s: State, bits: seq<bool>)
    requires At(s, bits)
    ensures |s.lens| == 320
  {
  }
}
