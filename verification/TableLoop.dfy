/** How inflate_table's main loop walks through the codes: symbols in sorted order, codes
    counted backwards, lengths one after another. */
module TableLoop {
  import opened Powers
  import opened Bits
  import opened Canonical
  import opened TableSpec
  import opened TableSteps

  /** work lists the symbols by length, then by number. */
  ghost predicate Sorted(lens: seq<nat>, work: seq<nat>)
  {
    forall i :: 0 <= i < |lens| && lens[i] >= 1 ==> Place(lens, i) < |work| && work[Place(lens, i)] == i
  }

  /** The loop is at the code c of len bits: sym is its place among the sorted symbols and
      huff its bits in reverse. */
  ghost predicate At(k: Job, len: nat, c: nat, sym: nat, huff: nat)
  {
    && 1 <= len <= k.max && FirstCode(k.lens, len) <= c < Space(k.lens, len)
    && sym == Before(k.lens, len) + c - FirstCode(k.lens, len) && huff == Rev(c, len)
  }

  /** What count holds there: lines 250-255 count the codes down. */
  ghost predicate Counts(k: Job, count: seq<nat>, len: nat, c: nat)
  {
    && |count| == MAXBITS + 1 && 1 <= len <= k.max <= MAXBITS && count[len] == Space(k.lens, len) - c
    && (forall b :: len < b <= MAXBITS ==> count[b] == Occ(k.lens, b))
  }

  lemma FirstIs(lens: seq<nat>, b: nat)
    requires b >= 1
    ensures FirstCode(lens, b) == 2 * Space(lens, b - 1) && Space(lens, b) == FirstCode(lens, b) + Occ(lens, b)
  {
  }

  /** The symbol there is the one with that code. */
  lemma SymbolAt(k: Job, work: seq<nat>, len: nat, c: nat, sym: nat, huff: nat)
    requires Sorted(k.lens, work) && At(k, len, c, sym, huff)
    ensures sym < |work| && work[sym] < |k.lens| && k.lens[work[sym]] == len && Code(k.lens, work[sym]) == c
  {
    hide Occ, Space, Before, Rev, FirstCode;
    FirstIs(k.lens, len);
    var i := NthOcc(k.lens, len, c - FirstCode(k.lens, len));
    assert Place(k.lens, i) == sym;
  }

  lemma SpaceSmall(k: Job, b: nat)
    requires GoodJob(k) && b <= k.max
    ensures Space(k.lens, b) <= Pow2(b)
  {
    SpaceFits(k.lens, b, k.max);
  }

  lemma CountDown(k: Job, count: seq<nat>, len: nat, c: nat)
    requires Counts(k, count, len, c) && c < Space(k.lens, len)
    ensures count[len] >= 1 && Counts(k, count[len := count[len] - 1], len, c + 1)
  {
  }

  /** The next code of the same length. */
  lemma NextCode(k: Job, len: nat, c: nat, sym: nat, huff: nat)
    requires GoodJob(k) && At(k, len, c, sym, huff) && c + 1 < Space(k.lens, len)
    ensures At(k, len, c + 1, sym + 1, RevNext(huff, len))
  {
    hide Occ, Space, Before, Rev, FirstCode, RevNext, Pow2, GoodJob;
    SpaceSmall(k, len);
    RevNextIsNext(c, len);
  }

  /** The next length in use. */
  lemma {:induction false} NextUsed(lens: seq<nat>, len: nat, max: nat) returns (n: nat)
    requires len < max && Occ(lens, max) > 0
    ensures len < n <= max && Occ(lens, n) > 0 && forall b :: len < b < n ==> Occ(lens, b) == 0
    decreases max - len
  {
    if Occ(lens, len + 1) > 0 {
      n := len + 1;
    } else {
      n := NextUsed(lens, len + 1, max);
    }
  }

  lemma {:induction false} SkipUnused(lens: seq<nat>, len: nat, n: nat)
    requires 1 <= len < n && forall b :: len < b < n ==> Occ(lens, b) == 0
    ensures Before(lens, n) == Before(lens, len) + Occ(lens, len)
    ensures FirstCode(lens, n) == Space(lens, len) * Pow2(n - len)
    decreases n
  {
    if len + 1 < n {
      SkipUnused(lens, len, n - 1);
      ScaleStep(Space(lens, len), n - len);
    } else {
      assert Pow2(1) == 2;
    }
  }

  /** No code can follow a full length. */
  lemma StillRoom(k: Job, len: nat)
    requires GoodJob(k) && 1 <= len < k.max && Occ(k.lens, k.max) > 0
    ensures Space(k.lens, len) < Pow2(len)
  {
    hide Occ, Space, Pow2, FirstCode;
    SpaceSmall(k, len);
    FirstAfter(k.lens, len, k.max - len);
    FirstIs(k.lens, k.max);
    Pow2Add(len, k.max - len);
  }

  lemma {:induction false} OccSome(lens: seq<nat>, i: nat)
    requires i < |lens|
    ensures Occ(lens, lens[i]) > 0
  {
    if i < |lens| - 1 {
      OccSome(lens[..|lens| - 1], i);
    }
  }

  /** After the last code of a length: line 254. */
  lemma NextLen(k: Job, work: seq<nat>, len: nat, c: nat, sym: nat, huff: nat)
    requires GoodJob(k) && Occ(k.lens, k.max) > 0 && Sorted(k.lens, work)
    requires At(k, len, c, sym, huff) && c + 1 == Space(k.lens, len) && len < k.max
    ensures sym + 1 < |work| && work[sym + 1] < |k.lens|
    ensures var n := k.lens[work[sym + 1]];
      && len < n <= k.max && At(k, n, FirstCode(k.lens, n), sym + 1, RevNext(huff, len))
      && forall i :: 0 <= i < |k.lens| ==> !(len < k.lens[i] < n)
  {
    hide Occ, Space, Before, Rev, FirstCode, RevNext, Pow2;
    var n := NextUsed(k.lens, len, k.max);
    SkipUnused(k.lens, len, n);
    FirstIs(k.lens, n);
    FirstIs(k.lens, len);
    StillRoom(k, len);
    RevNextIsNext(c, len);
    RevShift(c + 1, len, n - len);
    SymbolAt(k, work, n, FirstCode(k.lens, n), sym + 1, RevNext(huff, len));
    forall i | 0 <= i < |k.lens| ensures Occ(k.lens, k.lens[i]) > 0 {
      OccSome(k.lens, i);
    }
  }

  lemma NextCounts(k: Job, count: seq<nat>, len: nat, n: nat)
    requires Counts(k, count, len, Space(k.lens, len)) && len < n <= k.max
    ensures Counts(k, count, n, FirstCode(k.lens, n))
  {
    hide Occ, Space;
    FirstIs(k.lens, n);
  }

  /** At the end every symbol has been entered, so the tables decode them all. */
  lemma AllFound(k: Job, s: Tables, i: nat, x: nat)
    requires Filling(k, s, k.max, Space(k.lens, k.max)) && i < |k.lens| && Matches(k.lens, i, x)
    ensures Pow2(k.root) <= |s.table| && Decodes(k.t, k.lens, s.table, k.root, i, x)
  {
    hide Low, High, Rev, Space, FirstCode, Pow2, InOrder, SymbolEntry, Prefix, Code;
    CodeBounds(k.lens, i);
    assert Entered(k, i, k.max, Space(k.lens, k.max));
    assert Kept(k, s, i, x);
    SymbolNoLink(k.t, i, k.lens[i]);
    if k.lens[i] > k.root {
      SymbolNoLink(k.t, i, k.lens[i] - k.root);
    }
  }

  /** The low root bits of huff tell which second-level table the code belongs to. */
  lemma LowIsPrefix(k: Job, i: nat)
    requires GoodJob(k) && i < |k.lens| && k.lens[i] > k.root
    ensures Low(Rev(Code(k.lens, i), k.lens[i]), k.root) == Rev(Prefix(k, i), k.root) && Prefix(k, i) < Pow2(k.root)
  {
    hide Low, Rev, Prefix, Code, GoodJob, Pow2;
    CodeMatches(k, i);
    MatchPrefix(k, i, Rev(Code(k.lens, i), k.lens[i]));
  }

  /** The tables take no more than the root table and the code space at max bits. */
  ghost predicate Room(k: Job, s: Tables)
    requires k.root <= k.max
  {
    s.used <= Pow2(k.root) + if s.sub then (s.p + 1) * Pow2(k.max - k.root) else 0
  }

  lemma RoomNext(k: Job, s: Tables, len: nat, c: nat, curr: nat, i: nat)
    requires Filling(k, s, len, c) && NeedsTable(k, s, len, c, i) && Room(k, s) && k.root + curr <= k.max
    ensures s.used + Pow2(curr) <= Pow2(k.root) + (Prefix(k, i) + 1) * Pow2(k.max - k.root)
    ensures s.used + Pow2(curr) <= Pow2(k.root) + Pow2(k.max)
  {
    hide Low, High, Rev, Space, FirstCode, Pow2, Prefix, Code, AllKept, GoodTables;
    NotEntered(k, len, c, i);
    LowIsPrefix(k, i);
    Pow2Mono(curr, k.max - k.root);
    var q, p := Pow2(k.max - k.root), Prefix(k, i);
    if s.sub {
      MulMono(s.p + 1, p, q);
    }
    MulNext(p, q);
    MulMono(p + 1, Pow2(k.root), q);
    Pow2Add(k.root, k.max - k.root);
  }

  lemma MulNext(p: nat, q: nat)
    ensures (p + 1) * q == p * q + q && p * q >= 0
  {
  }

  lemma LowOne(x: nat)
    ensures Low(x, 1) == x % 2
  {
    assert Low(x / 2, 0) == 0;
  }

  /** The bit tested by line 241, and what RevNext does about it. */
  lemma BitAt(huff: nat, b: nat)
    ensures var y := Low(huff, b + 1); var bit := huff / Pow2(b) % 2;
      && RevNext(y, b + 1) == (if bit == 0 then Low(huff, b) + Pow2(b) else RevNext(Low(huff, b), b))
      && Low(huff, b) == huff % Pow2(b)
  {
    hide Low, High, Pow2, RevNext;
    var y := Low(huff, 1 + b);
    RevNextStep(y, b + 1);
    HighLow(huff, 1, b);
    LowOne(High(huff, b));
    LowHighDivMod(huff, b);
    LowLow(huff, b + 1, b);
    LowSplit(huff, 1, b);
  }
}
