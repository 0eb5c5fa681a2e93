/** The steps of inflate_table's main loop on values: entering one symbol, going on to
    the next length, and starting a second-level table. */
module TableSteps {
  import opened Powers
  import opened Bits
  import opened Canonical
  import opened TableSpec

  /** What stays fixed while the tables are filled. */
  datatype Job = Job(t: CodeType, lens: seq<nat>, root: nat, max: nat)

  /** The tables so far. `sub` says that a second-level table is being filled; it then has
      curr index bits, begins at `next` and belongs to the codes whose first root bits are p. */
  datatype Tables = Tables(table: seq<Entry>, used: nat, next: nat, curr: nat, sub: bool, p: nat)

  ghost predicate GoodJob(k: Job)
  {
    && |k.lens| <= MaxCodes(k.t) && 1 <= k.root <= k.max <= MAXBITS
    && (forall i :: 0 <= i < |k.lens| ==> k.lens[i] <= k.max)
    && Space(k.lens, k.max) <= Pow2(k.max)
  }

  /** Symbol i comes before the code c of len bits in the order of the loop. */
  predicate Entered(k: Job, i: nat, len: nat, c: nat)
    requires i < |k.lens|
  {
    k.lens[i] >= 1 && (k.lens[i] < len || (k.lens[i] == len && Code(k.lens, i) < c))
  }

  /** The first root bits of symbol i's code. */
  function Prefix(k: Job, i: nat): nat
    requires i < |k.lens| && k.lens[i] >= 1 && k.lens[i] > k.root
  {
    High(Code(k.lens, i), k.lens[i] - k.root)
  }

  /** The entry of the root table that leads to the current second-level table. */
  function LinkOf(k: Job, s: Tables): Entry
  {
    Entry(s.curr, k.root, s.next)
  }

  ghost predicate GoodTables(k: Job, s: Tables)
  {
    && Pow2(k.root) <= s.used <= |s.table|
    && (if s.sub then
          && s.p < Pow2(k.root) && s.table[Rev(s.p, k.root)] == LinkOf(k, s)
          && Pow2(k.root) <= s.next && s.next + Pow2(s.curr) == s.used && 1 <= s.curr && k.root + s.curr <= k.max
        else s.next == 0 && s.curr == k.root && s.used == Pow2(k.root))
  }

  /** Symbol i, entered earlier, is found for the bits x, in a table other than the current
      one or in the current one. */
  ghost predicate Kept(k: Job, s: Tables, i: nat, x: nat)
    requires Pow2(k.root) <= |s.table| && i < |k.lens| && i < MaxCodes(k.t)
  {
    var a, e := k.lens[i], s.table[Low(x, k.root)];
    if a <= k.root then e == SymbolEntry(k.t, i, a)
    else
      && IsLink(e) && e.bits == k.root && Pow2(k.root) <= e.val && a <= k.root + e.op
      && e.val + Pow2(e.op) <= s.used <= |s.table|
      && (if s.sub && Low(x, k.root) == Rev(s.p, k.root) then e == LinkOf(k, s) else e.val + Pow2(e.op) <= s.next)
      && s.table[e.val + Low(High(x, k.root), e.op)] == SymbolEntry(k.t, i, a - k.root)
  }

  ghost predicate AllKept(k: Job, s: Tables, len: nat, c: nat)
    requires Pow2(k.root) <= |s.table| && |k.lens| <= MaxCodes(k.t)
  {
    forall i, x: nat :: 0 <= i < |k.lens| && Entered(k, i, len, c) && Matches(k.lens, i, x) ==> Kept(k, s, i, x)
  }

  /** Second-level tables are made in the order of their prefixes, each large enough. */
  ghost predicate InOrder(k: Job, s: Tables, len: nat, c: nat)
  {
    && (s.sub ==> len > k.root)
    && (forall i :: 0 <= i < |k.lens| && k.lens[i] > k.root && Entered(k, i, len, c) ==> s.sub && Prefix(k, i) <= s.p)
    && (forall i :: 0 <= i < |k.lens| && k.lens[i] > k.root && !Entered(k, i, len, c) && s.sub ==>
        s.p <= Prefix(k, i) && (Prefix(k, i) == s.p ==> k.lens[i] <= k.root + s.curr))
  }

  ghost predicate Filling(k: Job, s: Tables, len: nat, c: nat)
  {
    && GoodJob(k) && GoodTables(k, s) && 1 <= len <= k.max
    && FirstCode(k.lens, len) <= c <= Space(k.lens, len)
    && AllKept(k, s, len, c) && InOrder(k, s, len, c)
  }

  lemma CodeMatches(k: Job, i: nat)
    requires GoodJob(k) && i < |k.lens| && k.lens[i] >= 1
    ensures Code(k.lens, i) < Pow2(k.lens[i])
    ensures Matches(k.lens, i, Rev(Code(k.lens, i), k.lens[i]))
  {
    CodeFits(k.lens, i, k.max);
    LowSmall(Rev(Code(k.lens, i), k.lens[i]), k.lens[i]);
  }

  /** The low root bits of whatever begins with a long code are its prefix, reversed. */
  lemma MatchPrefix(k: Job, i: nat, x: nat)
    requires GoodJob(k) && i < |k.lens| && k.lens[i] > k.root && Matches(k.lens, i, x)
    ensures Low(x, k.root) == Rev(Prefix(k, i), k.root) && Prefix(k, i) < Pow2(k.root)
  {
    hide Low, High, Rev, Code, Space, Pow2;
    var a := k.lens[i];
    LowLow(x, a, k.root);
    RevLow(Code(k.lens, i), a, k.root);
    CodeMatches(k, i);
    HighFits(Code(k.lens, i), k.root, a);
  }

  lemma Unique(k: Job, i: nat, j: nat, x: nat)
    requires GoodJob(k) && i < |k.lens| && j < |k.lens| && Matches(k.lens, i, x) && Matches(k.lens, j, x)
    ensures i == j
  {
    hide Matches, Space;
    if k.lens[i] <= k.lens[j] {
      MatchUnique(k.lens, i, j, x, k.max);
    } else {
      MatchUnique(k.lens, j, i, x, k.max);
    }
  }

  /** Entries off, off + 2^step, off + 2 * 2^step, ... of the 2^size entries from base are e. */
  ghost predicate Filled(table: seq<Entry>, table': seq<Entry>, base: nat, size: nat, step: nat, off: nat, e: Entry)
  {
    && |table'| == |table| && base + Pow2(size) <= |table|
    && (forall q :: 0 <= q < |table| && !(base <= q < base + Pow2(size) && Low(q - base, step) == off) ==>
        table'[q] == table[q])
    && (forall q :: 0 <= q < Pow2(size) && Low(q, step) == off ==> table'[base + q] == e)
  }

  /** Lines 231-237 on values: where the symbol with code c of len bits goes. */
  function Drop(k: Job, s: Tables): nat
  {
    if s.sub then k.root else 0
  }

  /** The tables are ready for symbol i: it has the code c of len bits, and it belongs in the
      current table. */
  ghost predicate Ready(k: Job, s: Tables, len: nat, c: nat, i: nat)
  {
    && i < |k.lens| && len >= 1 && k.lens[i] == len && Code(k.lens, i) == c
    && (if len > k.root then s.sub && s.p == Prefix(k, i) else !s.sub)
  }

  ghost predicate Placed(k: Job, s: Tables, s': Tables, len: nat, c: nat, i: nat)
    requires GoodJob(k) && Ready(k, s, len, c, i)
  {
    && s' == s.(table := s'.table)
    && Filled(s.table, s'.table, s.next, s.curr, len - Drop(k, s), High(Rev(c, len), Drop(k, s)),
              SymbolEntry(k.t, i, len - Drop(k, s)))
  }

  /** The symbol just entered is found. */
  lemma PlacedFound(k: Job, s: Tables, s': Tables, len: nat, c: nat, i: nat, x: nat)
    requires Filling(k, s, len, c) && Ready(k, s, len, c, i) && Placed(k, s, s', len, c, i)
    requires Matches(k.lens, i, x)
    ensures Pow2(k.root) <= |s'.table| && Kept(k, s', i, x)
  {
    hide Low, High, Rev, Code, Space, FirstCode, Pow2, SymbolEntry, AllKept, Prefix;
    HighZero(Rev(c, len));
    if len <= k.root {
      LowLow(x, k.root, len);
    } else {
      MatchPrefix(k, i, x);
      var d := len - k.root;
      HighLow(x, d, k.root);
      LowLow(High(x, k.root), s.curr, d);
      var q := Low(High(x, k.root), s.curr);
      assert Low(q, d) == High(Rev(c, len), k.root);
      assert s'.table[s.next + q] == SymbolEntry(k.t, i, d);
      RevBound(s.p, k.root);
    }
  }

  lemma HighZero(x: nat)
    ensures High(x, 0) == x
  {
  }

  lemma RevBound(x: nat, n: nat)
    ensures Rev(x, n) < Pow2(n)
  {
  }

  lemma LowFromParts(x: nat, y: nat, a: nat, r: nat)
    requires Low(x, r) == Low(y, r) && Low(High(x, r), a) == High(y, r)
    ensures Low(x, a + r) == y
  {
    hide Low, High, Pow2;
    LowSplit(x, a, r);
    Split(y, r);
  }

  lemma Roomy(k: Job, s: Tables, len: nat, c: nat, i: nat)
    requires Filling(k, s, len, c) && Ready(k, s, len, c, i) && s.sub
    ensures len <= k.root + s.curr
  {
  }

  /** The short codes entered earlier are not overwritten. */
  lemma PlacedKeepsShort(k: Job, s: Tables, s': Tables, len: nat, c: nat, i: nat, j: nat, x: nat)
    requires Filling(k, s, len, c) && Ready(k, s, len, c, i) && Placed(k, s, s', len, c, i)
    requires j < |k.lens| && k.lens[j] <= k.root && Matches(k.lens, j, x) && i != j
    requires Kept(k, s, j, x)
    ensures Pow2(k.root) <= |s'.table| && Kept(k, s', j, x)
  {
    hide Low, High, Rev, Code, Space, FirstCode, Pow2, SymbolEntry, AllKept, Prefix, InOrder;
    var q := Low(x, k.root);
    if !s.sub && Low(q, len) == Rev(c, len) {
      LowLow(x, k.root, len);
      Unique(k, i, j, x);
    }
    HighZero(Rev(c, len));
    assert s'.table[q] == s.table[q];
  }

  /** Nor are the long ones, in other second-level tables or in the current one. */
  lemma PlacedKeepsLong(k: Job, s: Tables, s': Tables, len: nat, c: nat, i: nat, j: nat, x: nat)
    requires Filling(k, s, len, c) && Ready(k, s, len, c, i) && Placed(k, s, s', len, c, i)
    requires j < |k.lens| && k.lens[j] > k.root && Matches(k.lens, j, x) && i != j && s.sub
    requires Kept(k, s, j, x)
    ensures Pow2(k.root) <= |s'.table| && Kept(k, s', j, x)
  {
    hide Low, High, Rev, Code, Space, FirstCode, Pow2, SymbolEntry, AllKept, Prefix, InOrder;
    var e := s.table[Low(x, k.root)];
    var q := Low(High(x, k.root), e.op);
    assert s'.table[Low(x, k.root)] == e;
    var d := len - k.root;
    if Low(x, k.root) == Rev(s.p, k.root) && Low(q, d) == High(Rev(c, len), k.root) {
      Roomy(k, s, len, c, i);
      LowLow(High(x, k.root), s.curr, d);
      CodeMatches(k, i);
      MatchPrefix(k, i, Rev(c, len));
      LowFromParts(x, Rev(c, len), d, k.root);
      Unique(k, i, j, x);
    }
    assert s'.table[e.val + q] == s.table[e.val + q];
  }

  lemma EnteredNext(k: Job, len: nat, c: nat, i: nat, j: nat)
    requires i < |k.lens| && len >= 1 && k.lens[i] == len && Code(k.lens, i) == c && j < |k.lens|
    ensures Entered(k, j, len, c + 1) <==> Entered(k, j, len, c) || j == i
  {
    hide Occ, Space;
    if k.lens[j] == len {
      if j < i { CodeOrder(k.lens, j, i); }
      if i < j { CodeOrder(k.lens, i, j); }
    }
  }

  /** Entering a symbol keeps the invariant: lines 215-237. */
  lemma PlacedFilling(k: Job, s: Tables, s': Tables, len: nat, c: nat, i: nat)
    requires Filling(k, s, len, c) && Ready(k, s, len, c, i) && Placed(k, s, s', len, c, i)
    ensures Filling(k, s', len, c + 1)
  {
    hide Low, High, Rev, Code, Space, FirstCode, Pow2, Kept, Matches, Entered, Prefix;
    forall j | 0 <= j < |k.lens| ensures Entered(k, j, len, c + 1) <==> Entered(k, j, len, c) || j == i {
      EnteredNext(k, len, c, i, j);
    }
    CodeBounds(k.lens, i);
    PlacedTables(k, s, s', len, c, i);
    NotEntered(k, len, c, i);
    PlacedAllKept(k, s, s', len, c, i);
  }

  lemma NotEntered(k: Job, len: nat, c: nat, i: nat)
    requires i < |k.lens| && len >= 1 && k.lens[i] == len && Code(k.lens, i) == c
    ensures !Entered(k, i, len, c)
  {
  }

  lemma PlacedTables(k: Job, s: Tables, s': Tables, len: nat, c: nat, i: nat)
    requires Filling(k, s, len, c) && Ready(k, s, len, c, i) && Placed(k, s, s', len, c, i)
    ensures GoodTables(k, s')
  {
    hide Low, High, Rev, Code, Space, FirstCode, Pow2, AllKept, InOrder, SymbolEntry, Prefix;
    RevBound(s.p, k.root);
  }

  lemma PlacedAllKept(k: Job, s: Tables, s': Tables, len: nat, c: nat, i: nat)
    requires Filling(k, s, len, c) && Ready(k, s, len, c, i) && Placed(k, s, s', len, c, i)
    requires GoodTables(k, s')
    ensures AllKept(k, s', len, c + 1)
  {
    hide Low, High, Rev, Code, Space, FirstCode, Pow2, Kept, Matches, Entered, Prefix, Filled;
    NotEntered(k, len, c, i);
    forall j, x: nat | 0 <= j < |k.lens| && Entered(k, j, len, c + 1) && Matches(k.lens, j, x)
      ensures Kept(k, s', j, x)
    {
      EnteredNext(k, len, c, i, j);
      if j == i {
        PlacedFound(k, s, s', len, c, i, x);
      } else if k.lens[j] <= k.root {
        PlacedKeepsShort(k, s, s', len, c, i, j, x);
      } else {
        PlacedKeepsLong(k, s, s', len, c, i, j, x);
      }
    }
  }

  /** Going on to the next length that has codes enters nothing: lines 252-255. */
  lemma NextLength(k: Job, s: Tables, len: nat, len': nat)
    requires Filling(k, s, len, Space(k.lens, len)) && len < len' <= k.max
    requires forall i :: 0 <= i < |k.lens| ==> !(len < k.lens[i] < len')
    ensures Filling(k, s, len', FirstCode(k.lens, len'))
  {
    hide Low, High, Rev, Code, Space, FirstCode, Pow2, Kept, Matches, Entered, GoodTables, GoodJob, Prefix;
    FirstFits(k, len');
    forall i | 0 <= i < |k.lens|
      ensures Entered(k, i, len', FirstCode(k.lens, len')) <==> Entered(k, i, len, Space(k.lens, len))
    {
      SameEntered(k, len, len', i);
    }
  }

  lemma FirstFits(k: Job, len: nat)
    requires len >= 1
    ensures FirstCode(k.lens, len) <= Space(k.lens, len)
  {
  }

  lemma SameEntered(k: Job, len: nat, len': nat, i: nat)
    requires 1 <= len < len' && i < |k.lens| && !(len < k.lens[i] < len')
    ensures Entered(k, i, len', FirstCode(k.lens, len')) <==> Entered(k, i, len, Space(k.lens, len))
  {
    if k.lens[i] >= 1 {
      CodeBounds(k.lens, i);
    }
  }

  /** The codes still to come have no smaller prefix than c. */
  lemma LaterPrefix(k: Job, len: nat, c: nat, i: nat)
    requires GoodJob(k) && k.root < len && FirstCode(k.lens, len) <= c <= Space(k.lens, len)
    requires i < |k.lens| && k.lens[i] > k.root && !Entered(k, i, len, c)
    ensures k.lens[i] >= len && High(c, len - k.root) <= Prefix(k, i)
  {
    hide Low, High, Space, Pow2, Occ, GoodJob;
    var a, d := Code(k.lens, i), k.lens[i] - len;
    CodeBounds(k.lens, i);
    if d == 0 {
      HighMono(c, a, len - k.root);
    } else {
      FirstAfter(k.lens, len, d);
      MulMono(c, Space(k.lens, len), Pow2(d));
      HighScaled(c, a, d);
      HighHigh(a, d, len - k.root);
      HighMono(c, High(a, d), len - k.root);
    }
  }

  lemma MulMono(a: nat, b: nat, p: nat)
    requires a <= b
    ensures a * p <= b * p
  {
  }

  /** Once the codes of at most b bits reach past the prefix p, no longer code has it. */
  lemma PastPrefix(k: Job, p: nat, b: nat, i: nat)
    requires GoodJob(k) && i < |k.lens| && k.root < b < k.lens[i]
    requires (p + 1) * Pow2(b - k.root) <= Space(k.lens, b)
    ensures Prefix(k, i) > p
  {
    hide Low, High, Space, Pow2, Occ, GoodJob;
    var a, d := Code(k.lens, i), k.lens[i] - b;
    CodeBounds(k.lens, i);
    FirstAfter(k.lens, b, d);
    HighScaled(Space(k.lens, b), a, d);
    HighHigh(a, d, b - k.root);
    HighMono((p + 1) * Pow2(b - k.root), High(a, d), b - k.root);
    HighPlus(0, p + 1, b - k.root);
  }

  /** A second-level table of curr bits holds every code that begins like c. */
  ghost predicate Suffices(k: Job, len: nat, c: nat, curr: nat)
    requires k.root < len
  {
    forall i :: 0 <= i < |k.lens| && k.lens[i] > k.root && !Entered(k, i, len, c) ==>
      Prefix(k, i) == High(c, len - k.root) ==> k.lens[i] <= k.root + curr
  }

  /** The free places that line 270 leaves in a table for codes of up to b bits. */
  function LeftOver(k: Job, len: nat, c: nat, b: nat): int
    requires k.root < len <= b
  {
    Pow2(b - k.root) + c * Pow2(b - len) - Space(k.lens, b)
  }

  lemma LeftStart(k: Job, len: nat, c: nat)
    requires k.root < len
    ensures LeftOver(k, len, c, len) == Pow2(len - k.root) - (Space(k.lens, len) - c)
  {
  }

  lemma LeftStep(k: Job, len: nat, c: nat, b: nat)
    requires k.root < len < b
    ensures LeftOver(k, len, c, b) == 2 * LeftOver(k, len, c, b - 1) - Occ(k.lens, b)
  {
    ScaleStep(c, b - len);
  }

  lemma PastFromLeft(k: Job, len: nat, c: nat, b: nat)
    requires k.root < len <= b && LeftOver(k, len, c, b) <= 0
    ensures (High(c, len - k.root) + 1) * Pow2(b - k.root) <= Space(k.lens, b)
  {
    hide Space, High, Low, Pow2;
    var p, d := High(c, len - k.root), len - k.root;
    Split(c, d);
    MulMono(Pow2(d) * p, c, Pow2(b - len));
    Pow2Add(d, b - len);
    MulSwap(Pow2(d), p, Pow2(b - len));
  }

  lemma MulSwap(a: nat, p: nat, b: nat)
    ensures (a * p) * b == p * (a * b) && (p + 1) * (a * b) == p * (a * b) + a * b
  {
  }

  /** The look-ahead of lines 266-274 ends with a large enough table. */
  lemma SizeFound(k: Job, len: nat, c: nat, b: nat)
    requires GoodJob(k) && k.root < len <= b <= k.max
    requires b == k.max || LeftOver(k, len, c, b) <= 0
    ensures Suffices(k, len, c, b - k.root)
  {
    hide Space, High, Code, LeftOver, Entered, Prefix, Pow2;
    if b < k.max {
      PastFromLeft(k, len, c, b);
      forall i | 0 <= i < |k.lens| && k.lens[i] > b ensures Prefix(k, i) > High(c, len - k.root) {
        PastPrefix(k, High(c, len - k.root), b, i);
      }
    }
  }

  /** Lines 258-287: symbol i does not belong in the current table, and one of curr bits is
      begun for it. */
  ghost predicate Begun(k: Job, s: Tables, s': Tables, len: nat, c: nat, curr: nat)
    requires k.root < len
  {
    var p := High(c, len - k.root);
    && Rev(p, k.root) < |s.table| && s.used + Pow2(curr) <= |s.table|
    && s' == Tables(s.table[Rev(p, k.root) := Entry(curr, k.root, s.used)], s.used + Pow2(curr), s.used, curr, true, p)
  }

  ghost predicate NeedsTable(k: Job, s: Tables, len: nat, c: nat, i: nat)
  {
    && i < |k.lens| && len > k.root && k.lens[i] == len && Code(k.lens, i) == c
    && (s.sub ==> s.p != Prefix(k, i))
  }

  /** No code entered so far begins with the new table's prefix. */
  lemma NewPrefix(k: Job, s: Tables, len: nat, c: nat, i: nat, j: nat)
    requires Filling(k, s, len, c) && NeedsTable(k, s, len, c, i)
    requires j < |k.lens| && k.lens[j] > k.root && Entered(k, j, len, c)
    ensures Prefix(k, j) < Prefix(k, i) && s.sub
  {
    hide Code, High, Space, Pow2, GoodTables, AllKept, FirstCode;
    NotEntered(k, len, c, i);
  }

  lemma NewKeepsShort(k: Job, s: Tables, s': Tables, len: nat, c: nat, curr: nat, i: nat, j: nat, x: nat)
    requires Filling(k, s, len, c) && NeedsTable(k, s, len, c, i) && Begun(k, s, s', len, c, curr)
    requires j < |k.lens| && k.lens[j] <= k.root && Matches(k.lens, j, x) && Kept(k, s, j, x)
    ensures Kept(k, s', j, x)
  {
    hide Low, High, Rev, Code, Space, FirstCode, Pow2, SymbolEntry, AllKept, InOrder, Prefix;
    var y, p := Rev(c, len), High(c, len - k.root);
    PrefixIs(k, i);
    CodeMatches(k, i);
    MatchPrefix(k, i, y);
    if Low(x, k.root) == Rev(p, k.root) {
      LowLow(x, k.root, k.lens[j]);
      LowLow(y, k.root, k.lens[j]);
      Unique(k, i, j, y);
    }
  }

  lemma PrefixIs(k: Job, i: nat)
    requires i < |k.lens| && k.lens[i] > k.root
    ensures Prefix(k, i) == High(Code(k.lens, i), k.lens[i] - k.root)
  {
  }

  lemma RevInjective(p: nat, q: nat, n: nat)
    requires p < Pow2(n) && q < Pow2(n) && Rev(p, n) == Rev(q, n)
    ensures p == q
  {
    hide Rev, Pow2;
    RevRev(p, n);
    RevRev(q, n);
  }

  lemma NewKeepsLong(k: Job, s: Tables, s': Tables, len: nat, c: nat, curr: nat, i: nat, j: nat, x: nat)
    requires Filling(k, s, len, c) && NeedsTable(k, s, len, c, i) && Begun(k, s, s', len, c, curr)
    requires j < |k.lens| && k.lens[j] > k.root && Entered(k, j, len, c) && Matches(k.lens, j, x) && Kept(k, s, j, x)
    ensures Kept(k, s', j, x)
  {
    hide Low, High, Rev, Code, Space, FirstCode, Pow2, SymbolEntry, AllKept, InOrder, Prefix, Entered, Matches, IsLink;
    NewPrefix(k, s, len, c, i, j);
    PrefixIs(k, i);
    CodeMatches(k, i);
    MatchPrefix(k, i, Rev(c, len));
    MatchPrefix(k, j, x);
    var p := High(c, len - k.root);
    if Low(x, k.root) == Rev(p, k.root) {
      RevInjective(p, Prefix(k, j), k.root);
    }
    RevBound(p, k.root);
    RevBound(s.p, k.root);
  }

  lemma NewTables(k: Job, s: Tables, s': Tables, len: nat, c: nat, curr: nat, i: nat)
    requires Filling(k, s, len, c) && NeedsTable(k, s, len, c, i) && Begun(k, s, s', len, c, curr)
    requires len <= k.root + curr <= k.max
    ensures GoodTables(k, s')
  {
    hide Low, High, Rev, Code, Space, FirstCode, Pow2, AllKept, InOrder, Prefix, Entered, Matches;
    PrefixIs(k, i);
    CodeMatches(k, i);
    MatchPrefix(k, i, Rev(c, len));
    RevBound(s'.p, k.root);
  }

  lemma NewAllKept(k: Job, s: Tables, s': Tables, len: nat, c: nat, curr: nat, i: nat)
    requires Filling(k, s, len, c) && NeedsTable(k, s, len, c, i) && Begun(k, s, s', len, c, curr)
    requires GoodTables(k, s')
    ensures AllKept(k, s', len, c)
  {
    hide Low, High, Rev, Code, Space, FirstCode, Pow2, Kept, Matches, Entered, Prefix, Begun;
    forall j, x: nat | 0 <= j < |k.lens| && Entered(k, j, len, c) && Matches(k.lens, j, x)
      ensures Kept(k, s', j, x)
    {
      if k.lens[j] <= k.root {
        NewKeepsShort(k, s, s', len, c, curr, i, j, x);
      } else {
        NewKeepsLong(k, s, s', len, c, curr, i, j, x);
      }
    }
  }

  lemma NewInOrder(k: Job, s: Tables, s': Tables, len: nat, c: nat, curr: nat, i: nat)
    requires Filling(k, s, len, c) && NeedsTable(k, s, len, c, i) && Begun(k, s, s', len, c, curr)
    requires Suffices(k, len, c, curr)
    ensures InOrder(k, s', len, c)
  {
    hide Low, High, Rev, Code, Space, FirstCode, Pow2, Kept, Matches, Entered, Prefix, AllKept, GoodTables, GoodJob;
    PrefixIs(k, i);
    forall j | 0 <= j < |k.lens| && k.lens[j] > k.root && Entered(k, j, len, c)
      ensures Prefix(k, j) < Prefix(k, i)
    {
      NewPrefix(k, s, len, c, i, j);
    }
    forall j | 0 <= j < |k.lens| && k.lens[j] > k.root && !Entered(k, j, len, c)
      ensures High(c, len - k.root) <= Prefix(k, j)
    {
      LaterPrefix(k, len, c, j);
    }
  }

  /** Beginning a second-level table keeps the invariant and makes room for the symbol. */
  lemma NewFilling(k: Job, s: Tables, s': Tables, len: nat, c: nat, curr: nat, i: nat)
    requires Filling(k, s, len, c) && NeedsTable(k, s, len, c, i) && Begun(k, s, s', len, c, curr)
    requires Suffices(k, len, c, curr) && len <= k.root + curr <= k.max
    ensures Filling(k, s', len, c) && Ready(k, s', len, c, i)
  {
    hide Low, High, Rev, Code, Space, FirstCode, Pow2, Kept, Matches, Entered, Prefix, GoodTables, GoodJob, InOrder,
      AllKept, Suffices;
    NewTables(k, s, s', len, c, curr, i);
    NewAllKept(k, s, s', len, c, curr, i);
    NewInOrder(k, s, s', len, c, curr, i);
    PrefixIs(k, i);
  }
}
