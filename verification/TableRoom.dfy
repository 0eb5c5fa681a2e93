/** The table space of inftrees.h is enough: a complete code of at most 286 symbols never makes
    inflate_table use more than 852 entries with a root table of 9 bits, and one of at most 30
    symbols never more than 592 with 6. */
module TableRoom {
  import opened Powers
  import opened Bits
  import opened Canonical
  import opened TableSpec
  import opened TableSteps
  import opened TableLoop

  /** The number of codes before the code c of len bits. */
  function Passed(k: Job, len: nat, c: nat): int
    requires len >= 1
  {
    Before(k.lens, len) + c - FirstCode(k.lens, len)
  }

  /** The number of codes from there on. */
  function Remaining(k: Job, len: nat, c: nat): int
    requires len >= 1
  {
    Before(k.lens, k.max + 1) - Passed(k, len, c)
  }

  lemma RemainingStep(k: Job, len: nat, c: nat)
    requires 1 <= len <= k.max
    ensures Remaining(k, len, c) == Space(k.lens, len) - c + Before(k.lens, k.max + 1) - Before(k.lens, len + 1)
    ensures Remaining(k, len + 1, FirstCode(k.lens, len + 1)) == Before(k.lens, k.max + 1) - Before(k.lens, len + 1)
    ensures Before(k.lens, len + 1) <= Before(k.lens, k.max + 1)
  {
    hide Before, Space;
    FirstIs(k.lens, len);
    BeforeStep(k.lens, len);
    BeforeMono(k.lens, len + 1, k.max + 1);
  }

  lemma BeforeStep(lens: seq<nat>, b: nat)
    requires b >= 1
    ensures Before(lens, b + 1) == Before(lens, b) + Occ(lens, b)
  {
  }

  /** The places of j bits under the first p prefixes. */
  function Places(p: nat, j: nat): nat
  {
    p * Pow2(j)
  }

  lemma PlacesStep(p: nat, j: nat)
    ensures Places(p, j + 1) == 2 * Places(p, j)
  {
    ScaleStep(p, j + 1);
  }

  /** Where the codes of some length do not fill the prefixes below p, those of shorter lengths
      do not either. */
  lemma {:induction false} StillFree(k: Job, p: nat, i: nat, j: nat)
    requires i <= j && Space(k.lens, k.root + j) < Places(p, j)
    ensures Space(k.lens, k.root + i) < Places(p, i)
    decreases j
  {
    hide Places, Occ;
    if i < j {
      PlacesStep(p, j - 1);
      assert k.root + j - 1 == k.root + (j - 1);
      StillFree(k, p, i, j - 1);
    }
  }

  /** A table for the prefix p - 1 has b bits because codes of b - 1 bits leave some of it free. */
  ghost predicate Sized(k: Job, len: nat, p: nat, b: nat)
  {
    && k.root < len <= k.root + b <= k.max && Places(p, b) <= Space(k.lens, k.root + b)
    && (len < k.root + b ==> Space(k.lens, k.root + b - 1) < Places(p, b - 1))
  }

  /** A table that has to reach b bits holds at least one code of each length on the way. */
  lemma {:induction false} AtLeast(k: Job, len: nat, c: nat, p: nat, b: nat)
    requires Sized(k, len, p, b)
    ensures Remaining(k, len, c) >= Places(p, len - k.root) - c + b - (len - k.root)
    decreases k.root + b - len
  {
    hide Places, Space, Before, Occ, Remaining, FirstCode;
    RemainingStep(k, len, c);
    if len < k.root + b {
      StillFree(k, p, len - k.root, b - 1);
      PlacesStep(p, len - k.root);
      FirstIs(k.lens, len + 1);
      AtLeast(k, len + 1, FirstCode(k.lens, len + 1), p, b);
    }
  }

  /** A complete code has a code under every free place. */
  lemma {:induction false} EveryPlace(k: Job, len: nat, c: nat)
    requires 1 <= len <= k.max && Space(k.lens, k.max) == Pow2(k.max)
    ensures Remaining(k, len, c) >= Pow2(len) - c
    decreases k.max - len
  {
    hide Space, Before, Occ, Remaining, FirstCode;
    RemainingStep(k, len, c);
    if len < k.max {
      FirstIs(k.lens, len + 1);
      EveryPlace(k, len + 1, FirstCode(k.lens, len + 1));
      SpaceFits(k.lens, len, k.max);
    }
  }

  /** How many entries a table of b bits has more than it needs at least, with some codes of one bit. */
  function Excess(b: nat): int
  {
    Pow2(b) - b - 1
  }

  lemma {:induction false} ExcessMono(a: nat, b: nat)
    requires 1 <= a <= b
    ensures 0 <= Excess(a) <= Excess(b) && (a < b ==> Excess(a) < Excess(b)) && Pow2(a) % 2 == 0 && Pow2(a) >= 2
  {
    if a < b {
      ExcessMono(a, b - 1);
      assert Pow2(b) == 2 * Pow2(b - 1) && Pow2(b - 1) >= Pow2(a);
    }
    assert Pow2(1) == 2;
    if 1 < a {
      ExcessMono(1, a - 1);
    }
  }

  /** With n codes in the tables below the root, the last of b bits, so many entries are in use;
      the bound is met only if n has the right parity. */
  predicate Bounded(k: Job, used: nat, n: int, b: nat)
  {
    && used <= Pow2(k.root) + n + Excess(b)
    && (used == Pow2(k.root) + n + Excess(b) ==> (n - b) % 2 == 1)
  }

  /** The codes longer than the root table's index, before the code c of len bits. */
  function Long(k: Job, len: nat, c: nat): int
    requires len >= 1
  {
    Passed(k, len, c) - Before(k.lens, k.root + 1)
  }

  /** Inside a second-level table. Those of its codes that are sure to come are counted too. */
  ghost predicate Thrifty(k: Job, s: Tables, len: nat, c: nat)
    requires len >= 1
  {
    s.sub ==>
      && Sized(k, len, s.p + 1, s.curr) && c <= Places(s.p + 1, len - k.root)
      && Bounded(k, s.used, Long(k, len, c) + Places(s.p + 1, len - k.root) - c + k.root + s.curr - len, s.curr)
  }

  /** A second-level table is due: those before it are full, and b is the last one's index bits. */
  ghost predicate Due(k: Job, s: Tables, len: nat, c: nat, p: nat, b: nat)
    requires len >= 1
  {
    && k.root < len && c == Places(p, len - k.root) && 1 <= b <= len - k.root && Bounded(k, s.used, Long(k, len, c), b)
  }

  /** The next code, of the same length. */
  lemma SameLength(k: Job, s: Tables, len: nat, c: nat)
    requires len >= 1 && Thrifty(k, s, len, c) && (s.sub ==> c < Places(s.p + 1, len - k.root))
    ensures Thrifty(k, s, len, c + 1)
  {
    hide Places, Space, Before, Sized;
  }

  /** The tree below v places, d levels down, has d codes more than v, unless there is but one level. */
  lemma {:induction false} Doubling(v: nat, d: nat)
    requires v >= 1 && d >= 1
    ensures v * Pow2(d) - d >= v && (v * Pow2(d) - d == v ==> v == 1 && d == 1)
  {
    if d == 1 {
      assert Pow2(1) == 2;
    } else {
      Doubling(v, d - 1);
      ScaleStep(v, d);
    }
  }

  lemma PlacesSplit(p: nat, i: nat, d: nat)
    ensures Places(p, i + d) == Places(p, i) * Pow2(d)
  {
    Pow2Add(i, d);
    MulSwap(Pow2(i), p, Pow2(d));
    assert (Pow2(i) * p) == p * Pow2(i);
  }

  /** The next code is longer, and in the same table. */
  lemma NextLengthUp(k: Job, s: Tables, len: nat, len': nat)
    requires GoodJob(k) && 1 <= len < len' && Thrifty(k, s, len, Space(k.lens, len)) && s.sub && len' <= k.root + s.curr
    requires FirstCode(k.lens, len') == Space(k.lens, len) * Pow2(len' - len)
    requires Passed(k, len', FirstCode(k.lens, len')) == Passed(k, len, Space(k.lens, len))
    ensures Thrifty(k, s, len', FirstCode(k.lens, len'))
  {
    hide Places, Space, Before, FirstCode, Passed, GoodJob, Excess, Pow2;
    var p, j, d, c := s.p + 1, len - k.root, len' - len, Space(k.lens, len);
    StillFree(k, p, j, s.curr - 1);
    var v: nat := Places(p, j) - c;
    PlacesSplit(p, j, d);
    MulSub(Places(p, j), c, Pow2(d));
    Doubling(v, d);
  }

  lemma MulSub(a: nat, c: nat, p: nat)
    requires c <= a
    ensures a * p - c * p == (a - c) * p
  {
  }

  /** c lies under the prefix p. */
  lemma UnderPrefix(k: Job, len: nat, c: nat)
    requires len > k.root
    ensures var p := High(c, len - k.root); Places(p, len - k.root) <= c < Places(p + 1, len - k.root)
  {
    hide High, Low;
    var j := len - k.root;
    Split(c, j);
    assert Pow2(j) * High(c, j) == Places(High(c, j), j);
  }

  lemma PlacesMono(p: nat, q: nat, j: nat)
    requires p <= q
    ensures Places(p, j) <= Places(q, j)
  {
    MulMono(p, q, Pow2(j));
  }

  lemma FirstUnder(p: nat, j: nat)
    ensures High(Places(p, j), j) == p
  {
    HighPlus(0, p, j);
  }

  /** From one symbol to the next. */
  ghost predicate Skips(k: Job, len: nat, c: nat, len': nat, c': nat)
  {
    && 1 <= len <= len' && Passed(k, len', c') == Passed(k, len, c) + 1 && c < Space(k.lens, len)
    && if len' == len then c' == c + 1
       else c + 1 == Space(k.lens, len) && c' == FirstCode(k.lens, len') == Space(k.lens, len) * Pow2(len' - len)
  }

  lemma SkipsUp(k: Job, len: nat, c: nat, sym: nat, huff: nat, len': nat, c': nat, huff': nat)
    requires At(k, len, c, sym, huff) && At(k, len', c', sym + 1, huff')
    requires if len' == len then c' == c + 1
      else len < len' && c + 1 == Space(k.lens, len) && c' == FirstCode(k.lens, len')
           && forall i :: 0 <= i < |k.lens| ==> !(len < k.lens[i] < len')
    ensures Skips(k, len, c, len', c')
  {
    hide Space, Before, Occ, Pow2, FirstCode, Rev;
    if len < len' {
      forall b | len < b < len' ensures Occ(k.lens, b) == 0 {
        OccNone(k.lens, b);
      }
      SkipUnused(k.lens, len, len');
    }
  }

  /** The first code that is longer than the root table's index. */
  lemma FirstLong(k: Job, s: Tables, len: nat, c: nat, len': nat, c': nat)
    requires Skips(k, len, c, len', c') && len <= k.root < len' && s.used == Pow2(k.root)
    ensures Due(k, s, len', c', Space(k.lens, k.root), 1)
  {
    hide Space, Before, Occ, Pow2, FirstCode, Passed;
    NoneBetween(k, len, len', c');
    NoneLong(k, len, c, len', c');
    PowerOne();
  }

  lemma NoneBetween(k: Job, len: nat, len': nat, c': nat)
    requires len <= k.root < len' && c' == FirstCode(k.lens, len') == Space(k.lens, len) * Pow2(len' - len)
    ensures c' == Places(Space(k.lens, k.root), len' - k.root)
  {
    hide Space, Pow2, FirstCode;
    var r, j, n := k.root - len, len' - k.root, Space(k.lens, len);
    SpaceGrows(k.lens, len, r);
    FirstAfter(k.lens, k.root, j);
    Pow2Add(r, j);
    MulSwap(Pow2(r), n, Pow2(j));
    MulOrder(n * Pow2(r), Space(k.lens, k.root), Pow2(j));
  }

  lemma NoneLong(k: Job, len: nat, c: nat, len': nat, c': nat)
    requires Skips(k, len, c, len', c') && len <= k.root < len'
    ensures Long(k, len', c') == 0
  {
    hide Space, Before, Occ, Pow2;
    FirstIs(k.lens, len);
    BeforeStep(k.lens, len);
    BeforeMono(k.lens, len + 1, k.root + 1);
    BeforeMono(k.lens, k.root + 1, len');
  }

  lemma PowerOne()
    ensures Pow2(1) == 2
  {
  }

  /** The next code is in the same table. */
  lemma SameTable(k: Job, s: Tables, len: nat, c: nat, len': nat, c': nat)
    requires GoodJob(k) && Skips(k, len, c, len', c') && Thrifty(k, s, len, c) && s.sub
    requires c < Places(s.p + 1, len - k.root)
    requires len' <= k.root + s.curr
    ensures Thrifty(k, s, len', c')
  {
    hide Space, Before, Occ, Pow2, Places, Thrifty, GoodJob, FirstCode;
    SameLength(k, s, len, c);
    if len < len' {
      NextLengthUp(k, s, len, len');
    }
  }

  /** The next code begins another table: this one is full. */
  lemma NextTable(k: Job, s: Tables, len: nat, c: nat, len': nat, c': nat)
    requires GoodJob(k) && Skips(k, len, c, len', c') && Thrifty(k, s, len, c) && s.sub
    requires c < Places(s.p + 1, len - k.root)
    requires s.curr >= 1 && c' >= Places(s.p + 1, len' - k.root)
    ensures Due(k, s, len', c', s.p + 1, s.curr)
  {
    hide Space, Before, Occ, Pow2, Places, GoodJob, FirstCode, Passed, Bounded;
    var p, j, d := s.p + 1, len - k.root, len' - len;
    PlacesSplit(p, j, d);
    if len < len' {
      MulOrder(Places(p, j), Space(k.lens, len), Pow2(d));
    }
    assert c + 1 == Places(p, j);
    if j < s.curr {
      StillFree(k, p, j, s.curr - 1);
    }
  }

  /** The new table and the codes it is sure to hold. */
  lemma NewTable(k: Job, s: Tables, s': Tables, len: nat, c: nat, b: nat)
    requires len >= 1 && Due(k, s, len, c, s'.p, b) && s'.sub && Sized(k, len, s'.p + 1, s'.curr)
    requires s'.used == s.used + Pow2(s'.curr)
    ensures Thrifty(k, s', len, c)
  {
    hide Space, Before, Occ, Pow2, Sized, FirstCode, Passed;
    var a := len - k.root;
    ExcessMono(b, a);
    assert Places(s'.p + 1, a) == Places(s'.p, a) + Pow2(a);
  }

  /** Whether the next symbol goes into the same table or a new one. */
  lemma Onward(k: Job, s: Tables, len: nat, c: nat, i: nat, len': nat, c': nat, i': nat) returns (p: nat, b: nat)
    requires Filling(k, s, len', c') && Ready(k, s, len, c, i) && Skips(k, len, c, len', c') && Thrifty(k, s, len, c)
    ensures Ready(k, s, len', c', i') ==> Thrifty(k, s, len', c')
    ensures NeedsTable(k, s, len', c', i') ==> Due(k, s, len', c', p, b)
  {
    hide Space, Before, Occ, Pow2, Places, FirstCode, Thrifty, Due, Skips, Code, High, AllKept, Entered;
    p, b := if s.sub then s.p + 1 else Space(k.lens, k.root), if s.sub then s.curr else 1;
    if s.sub {
      UnderPrefix(k, len, c);
      UnderPrefix(k, len', c');
      if Ready(k, s, len', c', i') {
        NotEntered(k, len', c', i');
        SameTable(k, s, len, c, len', c');
      } else if NeedsTable(k, s, len', c', i') {
        NotEntered(k, len', c', i');
        PlacesMono(s.p + 1, High(c', len' - k.root), len' - k.root);
        NextTable(k, s, len, c, len', c');
      }
    } else if NeedsTable(k, s, len', c', i') {
      FirstLong(k, s, len, c, len', c');
    } else {
      NoTable(k, s, len', c');
    }
  }

  lemma NoTable(k: Job, s: Tables, len: nat, c: nat)
    requires len >= 1 && !s.sub
    ensures Thrifty(k, s, len, c)
  {
  }

  /** What lines 266-274 look for. */
  lemma SizeIs(k: Job, len: nat, p: nat, curr: nat)
    requires GoodJob(k) && Space(k.lens, k.max) == Pow2(k.max) && k.root < len <= k.root + curr <= k.max
    requires p < Pow2(k.root)
    requires k.root + curr == k.max || LeftOver(k, len, Places(p, len - k.root), k.root + curr) <= 0
    requires len < k.root + curr ==> LeftOver(k, len, Places(p, len - k.root), k.root + curr - 1) > 0
    ensures Sized(k, len, p + 1, curr)
  {
    hide Space, Pow2, LeftOver, GoodJob;
    LeftIs(k, len, p, k.root + curr);
    if len < k.root + curr {
      LeftIs(k, len, p, k.root + curr - 1);
    }
    if k.root + curr == k.max {
      PlacesMono(p + 1, Pow2(k.root), curr);
      Pow2Add(k.root, curr);
    }
  }

  lemma LeftIs(k: Job, len: nat, p: nat, b: nat)
    requires k.root < len <= b
    ensures LeftOver(k, len, Places(p, len - k.root), b) == Places(p + 1, b - k.root) - Space(k.lens, b)
  {
    hide Space, Pow2;
    PlacesSplit(p, len - k.root, b - len);
  }

  /** The sizes of inflate.c, lines 1017-1033: literal and length codes with an index of 9 bits, and
      distance codes with 6. */
  predicate Meant(t: CodeType, symbols: nat, bits: nat)
  {
    (t == LENS && symbols <= 286 && bits == 9) || (t == DISTS && symbols <= 30 && bits == 6)
  }

  lemma {:induction false} NoCode(lens: seq<nat>, b: nat)
    requires Before(lens, b + 1) == 0
    ensures Space(lens, b) == 0
  {
    if b > 0 {
      NoCode(lens, b - 1);
    }
  }

  /** One code alone takes at most half of the code space. */
  lemma {:induction false} OneCode(lens: seq<nat>, b: nat)
    requires b >= 1 && Before(lens, b + 1) <= 1
    ensures 2 * Space(lens, b) <= Pow2(b)
  {
    if b > 1 && Occ(lens, b) == 0 {
      OneCode(lens, b - 1);
    } else {
      NoCode(lens, b - 1);
    }
  }

  /** Two codes that do not fill the code space take at most three quarters of it. */
  lemma {:induction false} TwoCodes(lens: seq<nat>, b: nat)
    requires b >= 1 && Before(lens, b + 1) <= 2 && Space(lens, b) < Pow2(b)
    ensures 4 * Space(lens, b) <= 3 * Pow2(b)
  {
    if b == 1 {
      NoCode(lens, 0);
    } else if Occ(lens, b) == 0 {
      TwoCodes(lens, b - 1);
    } else if Occ(lens, b) == 1 {
      OneCode(lens, b - 1);
    } else {
      NoCode(lens, b - 1);
    }
  }

  lemma SomePowers()
    ensures Pow2(6) == 64 && Pow2(7) == 128 && Pow2(9) == 512 && Pow2(10) == 1024
    ensures Excess(6) == 57 && Excess(9) == 502
  {
    assert Pow2(3) == 8;
    Pow2Add(3, 3);
  }

  /** The root table holds at least two codes of a literal and length code, and three of a distance
      code, if there are any longer ones. */
  lemma RootCodes(k: Job)
    requires GoodJob(k) && Occ(k.lens, k.max) > 0 && k.root < k.max && Space(k.lens, k.max) == Pow2(k.max)
    requires Meant(k.t, |k.lens|, k.root)
    ensures Before(k.lens, k.root + 1) >= if k.t == LENS then 2 else 3
  {
    hide Occ, Space, Before, Pow2;
    StillRoom(k, k.root);
    EveryPlace(k, k.root + 1, FirstCode(k.lens, k.root + 1));
    BeforeBound(k.lens, k.max + 1);
    SomePowers();
    if k.t == LENS {
      if Before(k.lens, k.root + 1) <= 1 {
        OneCode(k.lens, k.root);
      }
    } else if Before(k.lens, k.root + 1) <= 2 {
      TwoCodes(k.lens, k.root);
    }
  }

  /** ENOUGH_LENS and ENOUGH_DISTS are enough. */
  lemma Enough(k: Job, s: Tables, len: nat, c: nat)
    requires GoodJob(k) && Occ(k.lens, k.max) > 0 && Space(k.lens, k.max) == Pow2(k.max)
    requires Meant(k.t, |k.lens|, k.root) && len >= 1 && s.sub && Thrifty(k, s, len, c)
    ensures s.used <= if k.t == LENS then ENOUGH_LENS else ENOUGH_DISTS
  {
    hide Occ, Space, Before, Pow2, Excess, FirstCode, Places, Passed;
    AtLeast(k, len, c, s.p + 1, s.curr);
    BeforeBound(k.lens, k.max + 1);
    RootCodes(k);
    SomePowers();
    ExcessMono(s.curr, if k.t == LENS then 6 else 9);
  }
}
