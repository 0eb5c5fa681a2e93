/** inflate_table of inftrees.c: the decoding tables of a canonical code. */
module InflateTable {
  import opened Powers
  import opened Bits
  import opened Canonical
  import opened TableSpec
  import opened TableSteps
  import opened TableLoop
  import opened TableRoom

  /** Line 204: the index that no root entry has. */
  const NO_LOW: nat := 0xFFFF_FFFF

  ghost predicate CountsAll(lens: seq<nat>, count: seq<nat>)
  {
    |count| == MAXBITS + 1 && forall b :: 0 <= b <= MAXBITS ==> count[b] == Occ(lens, b)
  }

  /** Lines 107-110. */
  method CountLengths(lens: seq<nat>) returns (count: seq<nat>)
    requires LengthsOk(lens)
    ensures CountsAll(lens, count)
  {
    count := seq(MAXBITS + 1, _ => 0);
    for sym := 0 to |lens|
      invariant CountsAll(lens[..sym], count)
    {
      count := count[lens[sym] := count[lens[sym]] + 1];
      OccNext(lens, sym);
    }
    assert lens[..|lens|] == lens;
  }

  /** All codes have between min and max bits, and both occur. */
  ghost predicate Bounds(lens: seq<nat>, min: nat, max: nat)
  {
    && 1 <= min <= max <= MAXBITS
    && (forall i :: 0 <= i < |lens| && lens[i] >= 1 ==> min <= lens[i] <= max)
    && Occ(lens, min) > 0 && Occ(lens, max) > 0
  }

  /** Lines 114-115. */
  method LongestLength(lens: seq<nat>, count: seq<nat>) returns (max: nat)
    requires LengthsOk(lens) && CountsAll(lens, count)
    ensures max == 0 <==> NoCodes(lens)
    ensures max <= MAXBITS && (max > 0 ==> Occ(lens, max) > 0)
    ensures forall i :: 0 <= i < |lens| ==> lens[i] <= max
  {
    max := MAXBITS;
    while max >= 1 && count[max] == 0
      invariant max <= MAXBITS
      invariant forall i :: 0 <= i < |lens| ==> lens[i] <= max
    {
      OccNone(lens, max);
      max := max - 1;
    }
    if max >= 1 {
      OccNone(lens, max);
    }
  }

  /** Lines 126-127. */
  method ShortestLength(lens: seq<nat>, count: seq<nat>, max: nat) returns (min: nat)
    requires CountsAll(lens, count) && 1 <= max <= MAXBITS && Occ(lens, max) > 0
    requires forall i :: 0 <= i < |lens| ==> lens[i] <= max
    ensures Bounds(lens, min, max)
  {
    min := 1;
    while min < max && count[min] == 0
      invariant 1 <= min <= max
      invariant forall i :: 0 <= i < |lens| && lens[i] >= 1 ==> min <= lens[i]
    {
      OccNone(lens, min);
      min := min + 1;
    }
  }

  /** Lines 131-136: the unused part of the code space, negative as soon as some length
      does not fit. */
  method CheckSpace(lens: seq<nat>, count: seq<nat>) returns (left: int)
    requires CountsAll(lens, count)
    ensures left < 0 <==> Space(lens, MAXBITS) > Pow2(MAXBITS)
    ensures left >= 0 ==> left == Pow2(MAXBITS) - Space(lens, MAXBITS)
  {
    left := 1;
    for len := 1 to MAXBITS + 1
      invariant left == Pow2(len - 1) - Space(lens, len - 1) && left >= 0
    {
      left := 2 * left - count[len];
      if left < 0 {
        if Space(lens, MAXBITS) <= Pow2(MAXBITS) {
          SpaceFits(lens, len, MAXBITS);
        }
        return;
      }
    }
  }

  ghost predicate Sorting(lens: seq<nat>, n: nat, offs: seq<nat>, work: seq<nat>)
    requires n <= |lens|
  {
    && |offs| == MAXBITS + 1
    && (forall b :: 1 <= b <= MAXBITS ==> offs[b] == Before(lens, b) + Occ(lens[..n], b))
    && (forall i :: 0 <= i < n && lens[i] >= 1 ==> Place(lens, i) < |work| && work[Place(lens, i)] == i)
  }

  lemma PlaceFits(lens: seq<nat>, i: nat)
    requires i < |lens| && 1 <= lens[i] <= MAXBITS
    ensures Place(lens, i) < |lens|
  {
    hide Occ;
    PlaceRange(lens, i);
    BeforeBound(lens, lens[i] + 1);
  }

  lemma SortStep(lens: seq<nat>, n: nat, offs: seq<nat>, work: seq<nat>)
    requires LengthsOk(lens) && n < |lens| && |lens| <= |work| && Sorting(lens, n, offs, work) && lens[n] >= 1
    ensures offs[lens[n]] < |work|
    ensures Sorting(lens, n + 1, offs[lens[n] := offs[lens[n]] + 1], work[offs[lens[n]] := n])
  {
    hide Before, Occ;
    OccNext(lens, n);
    PlaceFits(lens, n);
    forall i | 0 <= i < n && lens[i] >= 1 ensures Place(lens, i) != Place(lens, n) {
      PlaceDiffers(lens, i, n);
    }
  }

  /** Lines 141-147. */
  method SortSymbols(lens: seq<nat>, count: seq<nat>, work: array<nat>)
    requires LengthsOk(lens) && CountsAll(lens, count) && |lens| <= work.Length
    modifies work
    ensures Sorted(lens, work[..])
  {
    hide Occ;
    var offs: seq<nat> := seq(MAXBITS + 1, _ => 0);
    for len := 1 to MAXBITS
      invariant |offs| == MAXBITS + 1
      invariant forall b :: 1 <= b <= len ==> offs[b] == Before(lens, b)
    {
      offs := offs[len + 1 := offs[len] + count[len]];
    }
    OccEmpty(lens);
    for sym := 0 to |lens|
      invariant Sorting(lens, sym, offs, work[..])
    {
      if lens[sym] != 0 {
        SortStep(lens, sym, offs, work[..]);
        work[offs[lens[sym]]] := sym;
        offs := offs[lens[sym] := offs[lens[sym]] + 1];
      } else {
        OccNext(lens, sym);
      }
    }
  }

  /** One turn of the fill loop, at m * 2^step: only the entry at off is due. */
  lemma LowAt(m: nat, step: nat, r: nat)
    requires r < Pow2(step)
    ensures Low(m * Pow2(step) + r, step) == r
  {
    LowPlus(r, m, step, step);
    LowSmall(r, step);
  }

  ghost predicate FilledFrom(table: seq<Entry>, table': seq<Entry>, base: nat, size: nat, step: nat, off: nat,
                             e: Entry, fill: nat)
  {
    && |table'| == |table| && base + Pow2(size) <= |table|
    && (forall q :: 0 <= q < |table| && !(base <= q < base + Pow2(size) && Low(q - base, step) == off) ==>
        table'[q] == table[q])
    && (forall q :: fill <= q < Pow2(size) && Low(q, step) == off ==> table'[base + q] == e)
  }

  lemma FillStep(table: seq<Entry>, table': seq<Entry>, base: nat, size: nat, step: nat, off: nat, e: Entry, f: nat,
                 p: nat)
    requires off < p && f + p <= Pow2(size)
    requires forall q :: f <= q < f + p ==> Low(q, step) == q - f
    requires FilledFrom(table, table', base, size, step, off, e, f + p)
    ensures base + off + f < |table|
    ensures FilledFrom(table, table'[base + off + f := e], base, size, step, off, e, f)
  {
    hide Low, Pow2;
    assert Low(f + off, step) == off;
  }

  lemma FillTurn(m: nat, size: nat, step: nat, f: nat)
    requires step <= size && 1 <= m <= Pow2(size - step) && f + Pow2(step) == m * Pow2(step)
    ensures f == (m - 1) * Pow2(step) && f + Pow2(step) <= Pow2(size)
    ensures forall q :: f <= q < f + Pow2(step) ==> Low(q, step) == q - f
  {
    hide Low, Pow2;
    var p := Pow2(step);
    MulTurn(m, p);
    Pow2Add(size - step, step);
    MulMono(m, Pow2(size - step), p);
    forall q | f <= q < f + p ensures Low(q, step) == q - f {
      LowAt(m - 1, step, q - f);
    }
  }

  lemma MulTurn(m: nat, p: nat)
    requires m >= 1
    ensures m * p == (m - 1) * p + p
  {
  }

  /** Lines 231-237. */
  method Replicate(table: array<Entry>, next: nat, at: nat, curr: nat, step: nat, here: Entry)
    requires step <= curr && at < Pow2(step) && next + Pow2(curr) <= table.Length
    modifies table
    ensures Filled(old(table[..]), table[..], next, curr, step, at, here)
  {
    hide Low, Pow2;
    var incr: nat := Pow2(step);
    var fill: nat := Pow2(curr);
    ghost var m: nat := Pow2(curr - step);
    Pow2Add(curr - step, step);
    while fill != 0
      invariant fill == m * Pow2(step) && m <= Pow2(curr - step)
      invariant FilledFrom(old(table[..]), table[..], next, curr, step, at, here, fill)
    {
      MulTurn(m, incr);
      FillTurn(m, curr, step, fill - incr);
      FillStep(old(table[..]), table[..], next, curr, step, at, here, fill - incr, incr);
      fill := fill - incr;
      m := m - 1;
      table[next + at + fill] := here;
    }
  }

  /** Lines 240-248. */
  method BackwardsIncrement(huff: nat, len: nat) returns (r: nat)
    requires len >= 1 && huff < Pow2(len)
    ensures r == RevNext(huff, len)
  {
    hide Low, Pow2, RevNext;
    var incr: nat := Pow2(len - 1);
    ghost var b: int := len - 1;
    LowSmall(huff, len);
    while incr != 0 && huff / incr % 2 == 1
      invariant -1 <= b < len && incr == if b < 0 then 0 else Pow2(b)
      invariant RevNext(huff, len) == RevNext(Low(huff, b + 1), b + 1)
      decreases b
    {
      BitAt(huff, b);
      Pow2Half(b);
      incr := incr / 2;
      b := b - 1;
    }
    if incr != 0 {
      BitAt(huff, b);
      r := huff % incr + incr;
    } else {
      RevNextNone(Low(huff, 0));
      r := 0;
    }
  }

  lemma Pow2Half(b: nat)
    ensures Pow2(b) / 2 == if b == 0 then 0 else Pow2(b - 1)
  {
  }

  /** Lines 266-274: how many bits a second-level table that starts at the code c needs. */
  method TableSize(ghost k: Job, count: seq<nat>, len: nat, ghost c: nat, root: nat, max: nat) returns (curr: nat)
    requires GoodJob(k) && root == k.root && max == k.max && root < len && Counts(k, count, len, c)
    ensures Suffices(k, len, c, curr) && len <= root + curr <= max
    ensures root + curr == max || LeftOver(k, len, c, root + curr) <= 0
    ensures len < root + curr ==> LeftOver(k, len, c, root + curr - 1) > 0
  {
    hide Space, Pow2, Occ, Suffices, LeftOver, GoodJob;
    curr := len - root;
    var left: int := Pow2(curr);
    LeftStart(k, len, c);
    while curr + root < max
      invariant len <= curr + root <= max && (len < curr + root ==> LeftOver(k, len, c, curr + root - 1) > 0)
      invariant left == if curr + root == len then Pow2(len - root) else 2 * LeftOver(k, len, c, curr + root - 1)
    {
      if curr + root > len {
        LeftStep(k, len, c, curr + root);
      }
      left := left - count[curr + root];
      if left <= 0 {
        SizeFound(k, len, c, curr + root);
        return;
      }
      curr := curr + 1;
      left := 2 * left;
    }
    SizeFound(k, len, c, curr + root);
  }

  /** Lines 209 and 278: the space guaranteed by the caller, where it is checked. */
  function Limit(t: CodeType): nat
  {
    match t
    case CODES => 0x10000
    case LENS => ENOUGH_LENS
    case DISTS => ENOUGH_DISTS
  }

  /** The loop's variables describe the tables s and the place (len, c). */
  ghost predicate Here(k: Job, s: Tables, next: nat, curr: nat, drop: nat, low: nat, used: nat)
  {
    && s.next == next && s.curr == curr && s.used == used && Drop(k, s) == drop
    && low == if s.sub then Rev(s.p, k.root) else NO_LOW
  }

  /** Lines 215-237. */
  method EnterSymbol(ghost k: Job, ghost s: Tables, table: array<Entry>, t: CodeType, sym: nat, len: nat, ghost c: nat,
                     huff: nat, next: nat, curr: nat, drop: nat, low: nat, used: nat)
    returns (ghost s': Tables)
    requires t == k.t && Filling(k, s, len, c) && Ready(k, s, len, c, sym) && huff == Rev(c, len)
    requires Here(k, s, next, curr, drop, low, used) && s.table == table[..]
    modifies table
    ensures s'.table == table[..] && Here(k, s', next, curr, drop, low, used) && s'.sub == s.sub && s'.p == s.p
    ensures Filling(k, s', len, c + 1) && (forall q :: used <= q < table.Length ==> table[q] == old(table[..])[q])
  {
    hide Low, High, Rev, Code, Space, FirstCode, Pow2, AllKept, InOrder, SymbolEntry, Prefix;
    EnterFits(k, s, len, c, sym);
    var here := SymbolEntry(t, sym, len - drop);
    var at := High(huff, drop);
    Replicate(table, next, at, curr, len - drop, here);
    s' := s.(table := table[..]);
    PlacedFilling(k, s, s', len, c, sym);
  }

  lemma EnterFits(k: Job, s: Tables, len: nat, c: nat, i: nat)
    requires Filling(k, s, len, c) && Ready(k, s, len, c, i)
    ensures i < MaxCodes(k.t) && Drop(k, s) < len && len - Drop(k, s) <= s.curr
    ensures High(Rev(c, len), Drop(k, s)) < Pow2(len - Drop(k, s)) && s.next + Pow2(s.curr) <= s.used <= |s.table|
  {
    hide Low, High, Rev, Code, Space, FirstCode, Pow2, AllKept, SymbolEntry, Prefix;
    RevBound(c, len);
    HighFits(Rev(c, len), len - Drop(k, s), len);
  }

  /** Whether a new table is due: the test of line 258. */
  lemma DueTable(k: Job, s: Tables, len: nat, c: nat, i: nat, low: nat)
    requires Filling(k, s, len, c) && i < |k.lens| && k.lens[i] == len && Code(k.lens, i) == c
    requires low == if s.sub then Rev(s.p, k.root) else NO_LOW
    ensures len > k.root && Low(Rev(c, len), k.root) != low ==> NeedsTable(k, s, len, c, i)
    ensures !(len > k.root && Low(Rev(c, len), k.root) != low) ==> Ready(k, s, len, c, i)
  {
    hide Low, Rev, Code, Space, FirstCode, Pow2, AllKept, Prefix;
    if len > k.root {
      LowIsPrefix(k, i);
      if s.sub && Rev(Prefix(k, i), k.root) == low {
        RevInjective(s.p, Prefix(k, i), k.root);
      }
      SmallPow(k.root);
    }
  }

  lemma SmallPow(n: nat)
    requires n <= MAXBITS
    ensures Pow2(n) <= 0x8000
  {
    Pow2Mono(n, MAXBITS);
    assert Pow2(5) == 0x20 && Pow2(10) == 0x400 && Pow2(15) == 0x8000;
  }

  /** Lines 259-286: false when ENOUGH is not enough. */
  method StartTable(ghost k: Job, ghost s: Tables, table: array<Entry>, t: CodeType, root: nat, max: nat,
                    count: seq<nat>,
                    len: nat, ghost c: nat, huff: nat, ghost i: nat, used0: nat, ghost p: nat, ghost b: nat)
    returns (ok: bool, ghost s': Tables, next: nat, curr: nat, low: nat, used: nat)
    requires t == k.t && root == k.root && max == k.max && Filling(k, s, len, c) && NeedsTable(k, s, len, c, i)
    requires Room(k, s) && Counts(k, count, len, c) && s.table == table[..] && huff == Rev(c, len)
    requires used0 == s.used && Limit(t) <= table.Length && Whole(k) && len >= 1 && Due(k, s, len, c, p, b)
    modifies table
    ensures !ok ==> t != CODES && !Meant(t, |k.lens|, root)
    ensures ok ==> Thrifty(k, s', len, c) && (t != CODES ==> used <= Limit(t))
    ensures ok ==> s'.table == table[..] && Here(k, s', next, curr, root, low, used) && Room(k, s')
    ensures ok ==> Filling(k, s', len, c) && Ready(k, s', len, c, i) && used0 <= used
    ensures forall q :: used0 <= q < table.Length ==> table[q] == old(table[..])[q]
  {
    hide *;
    DueParts(k, s, len, c, i);
    curr := TableSize(k, count, len, c, root, max);
    next := used0;
    used := used0 + Pow2(curr);
    low := Low(huff, root);
    StartFits(k, s, len, c, curr, i);
    s' := Tables(s.table[low := Entry(curr, root, next)], used, next, curr, true, High(c, len - root));
    StartRoom(k, s, s', len, c, p, b);
    if (t == LENS && used > ENOUGH_LENS) || (t == DISTS && used > ENOUGH_DISTS) {
      ok := false;
      return;
    }
    UnderLimit(t, used, table.Length);
    WithinLimit(t, used);
    table[low] := Entry(curr, root, next);
    ok := true;
    Begins(k, s, s', len, c, curr, i, low, next, used);
    NewFilling(k, s, s', len, c, curr, i);
  }

  /** A complete code in use. */
  ghost predicate Whole(k: Job)
  {
    GoodJob(k) && Occ(k.lens, k.max) > 0 && Space(k.lens, k.max) == Pow2(k.max)
  }

  lemma StartRoom(k: Job, s: Tables, s': Tables, len: nat, c: nat, p: nat, b: nat)
    requires Whole(k) && len >= 1 && Due(k, s, len, c, p, b) && len <= k.root + s'.curr <= k.max
    requires c < Space(k.lens, len)
    requires s'.used == s.used + Pow2(s'.curr) && s'.sub && s'.p == High(c, len - k.root)
    requires k.root + s'.curr == k.max || LeftOver(k, len, c, k.root + s'.curr) <= 0
    requires len < k.root + s'.curr ==> LeftOver(k, len, c, k.root + s'.curr - 1) > 0
    ensures Thrifty(k, s', len, c)
    ensures Meant(k.t, |k.lens|, k.root) ==> s'.used <= if k.t == LENS then ENOUGH_LENS else ENOUGH_DISTS
  {
    hide Occ, Space, Pow2, High, Thrifty, Bounded, Sized, LeftOver;
    FirstUnder(p, len - k.root);
    PrefixFits(k, len, c, p);
    SizeIs(k, len, p, s'.curr);
    NewTable(k, s, s', len, c, b);
    if Meant(k.t, |k.lens|, k.root) {
      Enough(k, s', len, c);
    }
  }

  lemma PrefixFits(k: Job, len: nat, c: nat, p: nat)
    requires GoodJob(k) && k.root < len <= k.max && c == Places(p, len - k.root) && c < Space(k.lens, len)
    ensures p < Pow2(k.root)
  {
    hide Space, Pow2;
    SpaceSmall(k, len);
    Pow2Add(k.root, len - k.root);
    if p >= Pow2(k.root) {
      PlacesMono(Pow2(k.root), p, len - k.root);
    }
  }

  lemma DueParts(k: Job, s: Tables, len: nat, c: nat, i: nat)
    requires Filling(k, s, len, c) && NeedsTable(k, s, len, c, i)
    ensures GoodJob(k) && k.root < len && c < Space(k.lens, len)
  {
    hide Space, Code;
    CodeBounds(k.lens, i);
  }

  lemma UnderLimit(t: CodeType, used: nat, n: nat)
    requires Limit(t) <= n && used <= 0x10000
    requires !((t == LENS && used > ENOUGH_LENS) || (t == DISTS && used > ENOUGH_DISTS))
    ensures used <= n
  {
  }

  lemma StartFits(k: Job, s: Tables, len: nat, c: nat, curr: nat, i: nat)
    requires Filling(k, s, len, c) && NeedsTable(k, s, len, c, i) && Room(k, s) && k.root + curr <= k.max
    ensures k.root < len && s.used + Pow2(curr) <= 0x10000
    ensures Low(Rev(c, len), k.root) < s.used <= |s.table|
  {
    hide Low, Rev, Code, Space, FirstCode, Pow2, AllKept, Prefix, InOrder, Room;
    RoomNext(k, s, len, c, curr, i);
    SmallPow(k.root);
    SmallPow(k.max);
  }

  lemma Begins(k: Job, s: Tables, s': Tables, len: nat, c: nat, curr: nat, i: nat, low: nat, next: nat, used: nat)
    requires Filling(k, s, len, c) && NeedsTable(k, s, len, c, i) && Room(k, s) && k.root + curr <= k.max
    requires low == Low(Rev(c, len), k.root) && next == s.used && used == s.used + Pow2(curr) && used <= |s.table|
    requires low < |s.table|
    requires s' == Tables(s.table[low := Entry(curr, k.root, next)], used, next, curr, true, High(c, len - k.root))
    ensures Begun(k, s, s', len, c, curr) && Room(k, s') && Here(k, s', next, curr, k.root, low, used)
  {
    hide Low, Rev, Code, Space, FirstCode, Pow2, AllKept, High, Prefix, InOrder, GoodTables;
    RoomNext(k, s, len, c, curr, i);
    LowIsPrefix(k, i);
    PrefixIs(k, i);
  }

  /** What holds at the head of the main loop: symbol work[sym] is next and has its place. */
  ghost predicate Looping(k: Job, s: Tables, work: seq<nat>, count: seq<nat>, len: nat, c: nat, sym: nat, huff: nat)
  {
    && Filling(k, s, len, c) && Room(k, s) && At(k, len, c, sym, huff) && Counts(k, count, len, c)
    && sym < |work| && Ready(k, s, len, c, work[sym]) && Thrifty(k, s, len, c)
  }

  ghost predicate Task(k: Job, work: seq<nat>)
  {
    GoodJob(k) && Occ(k.lens, k.max) > 0 && Sorted(k.lens, work)
  }

  /** Lines 198-206. */
  lemma LoopStart(k: Job, work: seq<nat>, count: seq<nat>, table: seq<Entry>, min: nat, s: Tables)
    requires Task(k, work) && Bounds(k.lens, min, k.max) && CountsAll(k.lens, count)
    requires min <= k.root && Pow2(k.root) <= |table|
    requires s == Tables(table, Pow2(k.root), 0, k.root, false, 0)
    ensures Looping(k, s, work, count, min, 0, 0, 0)
  {
    hide Low, High, Code, Pow2;
    NothingBefore(k.lens, min);
    FirstIs(k.lens, min);
    SymbolAt(k, work, min, 0, 0, 0);
  }

  lemma {:induction false} NothingBefore(lens: seq<nat>, min: nat)
    requires min >= 1 && forall i :: 0 <= i < |lens| && lens[i] >= 1 ==> min <= lens[i]
    ensures Space(lens, min - 1) == 0 && Before(lens, min) == 0 && Rev(0, min) == 0
  {
    RevZero(min);
    if min > 1 {
      NothingBefore(lens, min - 1);
      OccNone(lens, min - 1);
    }
  }

  lemma {:induction false} RevZero(n: nat)
    ensures Rev(0, n) == 0
  {
    if n > 0 {
      RevZero(n - 1);
    }
  }

  /** Lines 250-255, before the last code: the next code, of the same or of a greater length. */
  lemma Advance(k: Job, s: Tables, work: seq<nat>, count: seq<nat>, len: nat, c: nat, sym: nat, huff: nat)
    requires Task(k, work) && At(k, len, c, sym, huff) && Counts(k, count, len, c) && Filling(k, s, len, c + 1)
    requires len < k.max || count[len] > 1
    ensures count[len] >= 1 && sym + 1 < |work| && work[sym + 1] < |k.lens| && k.lens[work[sym + 1]] >= 1
    ensures var count' := count[len := count[len] - 1];
      var len' := if count'[len] == 0 then k.lens[work[sym + 1]] else len;
      var c' := if count'[len] == 0 then FirstCode(k.lens, len') else c + 1;
      && Filling(k, s, len', c') && At(k, len', c', sym + 1, RevNext(huff, len)) && Counts(k, count', len', c')
      && k.lens[work[sym + 1]] == len' && Code(k.lens, work[sym + 1]) == c' && Skips(k, len, c, len', c')
  {
    hide *;
    AtParts(k, count, len, c, sym, huff);
    TaskParts(k, work);
    CountDown(k, count, len, c);
    var count' := count[len := count[len] - 1];
    if count'[len] == 0 {
      NextLen(k, work, len, c, sym, huff);
      var n := k.lens[work[sym + 1]];
      NextLength(k, s, len, n);
      NextCounts(k, count', len, n);
      SymbolAt(k, work, n, FirstCode(k.lens, n), sym + 1, RevNext(huff, len));
      SkipsUp(k, len, c, sym, huff, n, FirstCode(k.lens, n), RevNext(huff, len));
    } else {
      NextCode(k, len, c, sym, huff);
      SymbolAt(k, work, len, c + 1, sym + 1, RevNext(huff, len));
      SkipsUp(k, len, c, sym, huff, len, c + 1, RevNext(huff, len));
    }
  }

  lemma AtParts(k: Job, count: seq<nat>, len: nat, c: nat, sym: nat, huff: nat)
    requires At(k, len, c, sym, huff) && Counts(k, count, len, c)
    ensures |count| == MAXBITS + 1 && 1 <= len <= k.max <= MAXBITS && count[len] == Space(k.lens, len) - c
    ensures c < Space(k.lens, len) && huff == Rev(c, len) && huff < Pow2(len)
  {
  }

  lemma TaskParts(k: Job, work: seq<nat>)
    requires Task(k, work)
    ensures GoodJob(k) && Occ(k.lens, k.max) > 0 && Sorted(k.lens, work) && k.root <= k.max <= MAXBITS
    ensures |k.lens| <= MaxCodes(k.t)
  {
  }

  lemma LoopParts(k: Job, s: Tables, work: seq<nat>, count: seq<nat>, len: nat, c: nat, sym: nat, huff: nat)
    requires k.root <= k.max && Looping(k, s, work, count, len, c, sym, huff)
    ensures Filling(k, s, len, c) && Room(k, s) && At(k, len, c, sym, huff) && Counts(k, count, len, c)
    ensures sym < |work| && len >= 1 && Ready(k, s, len, c, work[sym]) && Thrifty(k, s, len, c)
  {
  }

  lemma MakeLoop(k: Job, s: Tables, work: seq<nat>, count: seq<nat>, len: nat, c: nat, sym: nat, huff: nat)
    requires k.root <= k.max
    requires Filling(k, s, len, c) && Room(k, s) && At(k, len, c, sym, huff) && Counts(k, count, len, c)
    requires sym < |work| && len >= 1 && Ready(k, s, len, c, work[sym]) && Thrifty(k, s, len, c)
    ensures Looping(k, s, work, count, len, c, sym, huff)
  {
  }

  lemma SameRoom(k: Job, s: Tables, s': Tables)
    requires k.root <= k.max && Room(k, s) && s'.used == s.used && s'.sub == s.sub && s'.p == s.p && s'.curr == s.curr
    ensures Room(k, s') && forall len: nat, c: nat :: len >= 1 && Thrifty(k, s, len, c) ==> Thrifty(k, s', len, c)
  {
  }

  lemma SameReady(k: Job, s: Tables, s': Tables, len: nat, c: nat, i: nat)
    requires Ready(k, s, len, c, i) && s'.sub == s.sub && s'.p == s.p
    ensures Ready(k, s', len, c, i)
  {
  }

  lemma WholeIs(k: Job, work: seq<nat>)
    requires Task(k, work) && Space(k.lens, k.max) == Pow2(k.max)
    ensures Whole(k)
  {
  }

  lemma HereParts(k: Job, s: Tables, next: nat, curr: nat, drop: nat, low: nat, used: nat)
    requires Here(k, s, next, curr, drop, low, used)
    ensures s.used == used && s.next == next && drop == Drop(k, s) && s.curr == curr
    ensures low == if s.sub then Rev(s.p, k.root) else NO_LOW
  {
  }

  /** Lines 197-288: the root table and all second-level tables. */
  method FillTables(ghost k: Job, t: CodeType, lens: seq<nat>, table: array<Entry>, work: seq<nat>, count0: seq<nat>,
                    root: nat, min: nat, max: nat)
    returns (ok: bool, ghost s: Tables, len: nat, huff: nat, next: nat, drop: nat, used: nat)
    requires k == Job(t, lens, root, max) && Task(k, work) && Bounds(lens, min, max) && CountsAll(lens, count0)
    requires min <= root && Pow2(root) <= table.Length
    requires root < max ==> Limit(t) <= table.Length && Space(lens, max) == Pow2(max)
    requires t != CODES ==> Pow2(root) <= Limit(t)
    modifies table
    ensures ok && t != CODES ==> used <= Limit(t)
    ensures !ok ==> t != CODES && root < max && !Meant(t, |lens|, root)
    ensures ok ==> s.table == table[..] && Filling(k, s, max, Space(lens, max)) && s.used == used && len == max
    ensures ok ==> huff == RevNext(Rev(Space(lens, max) - 1, max), max) && next == s.next && drop == Drop(k, s)
    ensures ok ==> forall q :: used <= q < table.Length ==> table[q] == old(table[..])[q]
  {
    hide *;
    var sym: nat, curr: nat, low: nat, count: seq<nat> := 0, root, NO_LOW, count0;
    ghost var c: nat := 0;
    TaskParts(k, work);
    huff, len, next, drop, used := 0, min, 0, 0, Pow2(root);
    s := Tables(table[..], used, 0, root, false, 0);
    LoopStart(k, work, count, table[..], min, s);
    HereStart(k, s, used);
    while true
      invariant Looping(k, s, work, count, len, c, sym, huff) && s.table == table[..]
      invariant Here(k, s, next, curr, drop, low, used) && (t != CODES ==> used <= Limit(t))
      invariant forall q :: used <= q < table.Length ==> table[q] == old(table[..])[q]
      decreases |work| - sym
    {
      LoopParts(k, s, work, count, len, c, sym, huff);
      AtParts(k, count, len, c, sym, huff);
      ghost var s0 := s;
      s := EnterSymbol(k, s, table, t, work[sym], len, c, huff, next, curr, drop, low, used);
      HereParts(k, s0, next, curr, drop, low, used);
      HereParts(k, s, next, curr, drop, low, used);
      SameRoom(k, s0, s);
      SameReady(k, s0, s, len, c, work[sym]);
      ghost var h, len0, c0, i0 := huff, len, c, work[sym];
      huff := BackwardsIncrement(huff, len);
      if count[len] == 1 && len == max {
        break;
      }
      Advance(k, s, work, count, len, c, sym, h);
      sym := sym + 1;
      count := count[len := count[len] - 1];
      if count[len] == 0 {
        len := lens[work[sym]];
        c := FirstCode(lens, len);
      } else {
        c := c + 1;
      }
      DueTable(k, s, len, c, work[sym], low);
      AtParts(k, count, len, c, sym, huff);
      ghost var p, b := Onward(k, s, len0, c0, i0, len, c, work[sym]);
      if len > root && Low(huff, root) != low {
        drop := root;
        WholeIs(k, work);
        ok, s, next, curr, low, used := StartTable(k, s, table, t, root, max, count, len, c, huff, work[sym], used,
                                                      p, b);
        if !ok {
          return;
        }
      }
      MakeLoop(k, s, work, count, len, c, sym, huff);
    }
    ok := true;
  }

  lemma HereStart(k: Job, s: Tables, used: nat)
    requires s.used == used && s.next == 0 && s.curr == k.root && !s.sub
    ensures Here(k, s, 0, k.root, 0, NO_LOW, used)
  {
  }

  /** The root table's index bits: as requested, but within the code lengths. */
  ghost predicate RootFor(lens: seq<nat>, bits: nat, root: nat)
  {
    if NoCodes(lens) then root == 1
    else
      && root >= 1
      && (exists i :: 0 <= i < |lens| && lens[i] >= root) && (exists i :: 0 <= i < |lens| && 1 <= lens[i] <= root)
      && (root < bits ==> forall i :: 0 <= i < |lens| ==> lens[i] <= root)
      && (root > bits ==> forall i :: 0 <= i < |lens| && lens[i] >= 1 ==> root <= lens[i])
  }

  /** The table is an exact decoder: whatever begins with a symbol's code gives that symbol,
      and whatever begins with none gives the invalid-code entry. */
  ghost predicate ExactDecoder(t: CodeType, lens: seq<nat>, table: seq<Entry>, root: nat)
  {
    && |lens| <= MaxCodes(t) && Pow2(root) <= |table|
    && (forall i, x: nat :: 0 <= i < |lens| && Matches(lens, i, x) ==> Decodes(t, lens, table, root, i, x))
    && (forall x: nat :: NoMatch(lens, x) ==> Lookup(table, root, x) == Hit(64, 0, 1))
    && (forall q :: 0 <= q < Pow2(root) ==> RootEntryOk(lens, table, root, table[q]))
  }

  /** A link in the root table has as many bits as the index and leads to a table in bounds; there
      are none where no code is longer than the index. */
  ghost predicate RootEntryOk(lens: seq<nat>, table: seq<Entry>, root: nat, e: Entry)
  {
    IsLink(e) ==> e.bits == root && e.val + Pow2(e.op) <= |table| && !RootCovers(lens, root)
  }

  /** The table space that inflate_table takes for granted. */
  ghost predicate SpaceFor(t: CodeType, lens: seq<nat>, bits: nat, n: nat)
  {
    match t
    case LENS => n >= ENOUGH_LENS
    case DISTS => n >= ENOUGH_DISTS
    case CODES =>
      n >= if RootCovers(lens, bits) then Pow2(if bits == 0 then 1 else bits) else 0x10000
  }

  lemma NoneDecoder(t: CodeType, lens: seq<nat>, table: seq<Entry>)
    requires NoCodes(lens) && |lens| <= MaxCodes(t)
    requires |table| >= 2 && table[0] == INVALID && table[1] == INVALID
    ensures ExactDecoder(t, lens, table, 1)
  {
    assert Pow2(1) == 2;
    forall x: nat ensures Lookup(table, 1, x) == Hit(64, 0, 1) {
      LowOne(x);
    }
    forall q | 0 <= q < Pow2(1) ensures RootEntryOk(lens, table, 1, table[q]) {
      assert table[q] == INVALID;
    }
  }

  /** A complete code's tables are an exact decoder. */
  lemma CompleteDecoder(k: Job, s: Tables)
    requires Filling(k, s, k.max, Space(k.lens, k.max)) && Space(k.lens, k.max) == Pow2(k.max)
    ensures ExactDecoder(k.t, k.lens, s.table, k.root)
  {
    hide Matches, Decodes, Lookup, Space, Pow2, AllKept, InOrder;
    forall i, x: nat | 0 <= i < |k.lens| && Matches(k.lens, i, x)
      ensures Decodes(k.t, k.lens, s.table, k.root, i, x)
    {
      AllFound(k, s, i, x);
    }
    forall x: nat ensures !NoMatch(k.lens, x) {
      var i := MatchExists(k.lens, x, k.max);
    }
    forall q | 0 <= q < Pow2(k.root) ensures RootEntryOk(k.lens, s.table, k.root, s.table[q]) {
      var i := MatchExists(k.lens, q, k.max);
      RootEntry(k, s, i, q);
    }
  }

  /** What the entry of the root table is that symbol i's code leads to. */
  lemma RootEntry(k: Job, s: Tables, i: nat, q: nat)
    requires Filling(k, s, k.max, Space(k.lens, k.max)) && i < |k.lens| && Matches(k.lens, i, q) && q < Pow2(k.root)
    ensures q < |s.table| && RootEntryOk(k.lens, s.table, k.root, s.table[q])
  {
    hide Low, High, Rev, Space, FirstCode, Pow2, InOrder, SymbolEntry, Prefix, Code;
    CodeBounds(k.lens, i);
    LowSmall(q, k.root);
    assert Entered(k, i, k.max, Space(k.lens, k.max));
    assert Kept(k, s, i, q);
    if k.lens[i] <= k.root {
      SymbolNoLink(k.t, i, k.lens[i]);
    } else {
      assert !RootCovers(k.lens, k.root);
    }
  }

  /** So are those of a single code of one bit, with the invalid-code entry for the other. */
  lemma LoneDecoder(k: Job, s: Tables, table: seq<Entry>)
    requires Filling(k, s, 1, Space(k.lens, 1)) && k.max == 1 && Space(k.lens, 1) == 1
    requires |s.table| >= 2 && table == s.table[1 := Entry(64, 1, 0)]
    ensures ExactDecoder(k.t, k.lens, table, k.root)
  {
    hide Matches, Decodes, Lookup, Low, Space, Occ, Pow2, AllKept, InOrder, Code;
    SpaceOne(k.lens);
    var a := NthOcc(k.lens, 1, 0);
    LoneCode(k.lens, a);
    LoneZero(k, s, a);
    forall i, x: nat | 0 <= i < |k.lens| && Matches(k.lens, i, x)
      ensures Decodes(k.t, k.lens, table, k.root, i, x)
    {
      AllFound(k, s, i, x);
      HasCode(k.lens, i, x);
      OnlyOne(k.lens, a, i);
      LoneLookup(s.table, table, x);
      SameDecodes(k.t, k.lens, s.table, table, k.root, i, x);
    }
    forall x: nat | NoMatch(k.lens, x) ensures Lookup(table, 1, x) == Hit(64, 0, 1) {
      assert !Matches(k.lens, a, x);
      LoneLookup(s.table, table, x);
    }
    LoneEntries(k.lens, table);
  }

  lemma LoneEntries(lens: seq<nat>, table: seq<Entry>)
    requires |table| >= 2 && !IsLink(table[0]) && table[1] == Entry(64, 1, 0)
    ensures forall q :: 0 <= q < Pow2(1) ==> RootEntryOk(lens, table, 1, table[q])
  {
    assert Pow2(1) == 2;
  }

  lemma LoneZero(k: Job, s: Tables, a: nat)
    requires Filling(k, s, 1, Space(k.lens, 1)) && k.max == 1
    requires a < |k.lens| && k.lens[a] == 1 && Matches(k.lens, a, 0)
    ensures |s.table| >= 2 && !IsLink(s.table[0])
  {
    hide InOrder, SymbolEntry, Space, Code;
    CodeBounds(k.lens, a);
    assert Kept(k, s, a, 0);
    LowOne(0);
    SymbolNoLink(k.t, a, 1);
  }

  lemma SpaceOne(lens: seq<nat>)
    ensures Space(lens, 1) == Occ(lens, 1) && Pow2(1) == 2
  {
    assert Space(lens, 0) == 0;
  }

  lemma HasCode(lens: seq<nat>, i: nat, x: nat)
    requires i < |lens| && Matches(lens, i, x)
    ensures lens[i] >= 1
  {
  }

  lemma SameDecodes(t: CodeType, lens: seq<nat>, table: seq<Entry>, table': seq<Entry>, root: nat, i: nat, x: nat)
    requires i < |lens| && i < MaxCodes(t) && Pow2(root) <= |table| == |table'|
    requires Decodes(t, lens, table, root, i, x) && Lookup(table', root, x) == Lookup(table, root, x)
    ensures Decodes(t, lens, table', root, i, x)
  {
  }

  lemma LoneLookup(table: seq<Entry>, table': seq<Entry>, x: nat)
    requires |table| >= Pow2(1) == 2 && table' == table[1 := Entry(64, 1, 0)] && !IsLink(table[0])
    ensures Lookup(table', 1, x) == if x % 2 == 0 then Lookup(table, 1, x) else Hit(64, 0, 1)
  {
    LowOne(x);
  }

  lemma LoneCode(lens: seq<nat>, a: nat)
    requires a < |lens| && lens[a] == 1 && Occ(lens[..a], 1) == 0
    ensures forall x: nat :: Matches(lens, a, x) <==> x % 2 == 0
  {
    assert Code(lens, a) == 0;
    assert Rev(0, 1) == 0;
    forall x: nat ensures Low(x, 1) == x % 2 {
      LowOne(x);
    }
  }

  lemma OnlyOne(lens: seq<nat>, a: nat, i: nat)
    requires a < |lens| && i < |lens| && lens[a] == 1 && 1 <= lens[i] <= 1 && Space(lens, 1) == 1
    ensures a == i
  {
    CodeBounds(lens, a);
    CodeBounds(lens, i);
    if a < i {
      CodeOrder(lens, a, i);
    } else if i < a {
      CodeOrder(lens, i, a);
    }
  }

  /** Lines 290-298: the remaining entry of an incomplete code. */
  lemma EndHuff(k: Job)
    requires GoodJob(k) && Occ(k.lens, k.max) > 0
    requires Space(k.lens, k.max) == Pow2(k.max) || (k.max == 1 && Space(k.lens, 1) == 1)
    ensures Space(k.lens, k.max) >= 1
    ensures RevNext(Rev(Space(k.lens, k.max) - 1, k.max), k.max) == if Space(k.lens, k.max) == Pow2(k.max) then 0 else 1
  {
    hide Rev, RevNext;
    FirstIs(k.lens, k.max);
    RevNextIsNext(Space(k.lens, k.max) - 1, k.max);
    assert Rev(1, 1) == 1 by { RevStep(1, 1); RevNone(0); }
  }

  lemma NoneSpace(t: CodeType, lens: seq<nat>, bits: nat, n: nat)
    requires SpaceFor(t, lens, bits, n) && NoCodes(lens)
    ensures n >= 2
  {
    Pow2Mono(1, if bits == 0 then 1 else bits);
    assert Pow2(1) == 2;
  }

  lemma LimitAtLeast(t: CodeType)
    ensures Limit(t) >= 2
  {
  }

  lemma NoneEnd(t: CodeType, lens: seq<nat>, bits: nat)
    requires NoCodes(lens)
    ensures !OverSubscribed(lens) && !Incomplete(t, lens) && RootFor(lens, bits, 1) && Pow2(1) == 2
  {
    hide Pow2;
    SpaceBeyond(lens, 0, MAXBITS);
    assert Space(lens, 0) == 0;
    SpaceOne(lens);
  }

  lemma BoundsRoot(lens: seq<nat>, bits: nat, min: nat, max: nat, r: nat)
    requires Bounds(lens, min, max) && LengthsOk(lens)
    requires r == if bits < min then min else if bits > max then max else bits
    ensures RootFor(lens, bits, r) && 1 <= min <= r <= max <= MAXBITS && !NoCodes(lens)
    ensures (RootCovers(lens, r) ==> r == max) && (r < max ==> !RootCovers(lens, bits))
    ensures r > bits ==> !RootCovers(lens, bits)
    ensures forall i :: 0 <= i < |lens| ==> lens[i] <= max
    ensures max != 1 <==> exists i :: 0 <= i < |lens| && lens[i] > 1
  {
    hide Occ;
    var a := NthOcc(lens, min, 0);
    var b := NthOcc(lens, max, 0);
    assert lens[a] == min && lens[b] == max;
  }

  lemma TableFits(t: CodeType, lens: seq<nat>, bits: nat, n: nat, r: nat, max: nat)
    requires SpaceFor(t, lens, bits, n) && 1 <= r <= max <= MAXBITS
    requires (r < max ==> !RootCovers(lens, bits)) && (r > bits ==> !RootCovers(lens, bits))
    ensures Pow2(r) <= Limit(t) ==> Pow2(r) <= n
    ensures r < max ==> Limit(t) <= n
    ensures t == CODES ==> Pow2(r) <= Limit(t)
    ensures Pow2(r) > Limit(t) && Pow2(bits) <= Limit(t) ==> !RootCovers(lens, bits)
  {
    hide Pow2, RootCovers;
    SmallPow(r);
    if r <= bits {
      Pow2Mono(r, bits);
    }
  }

  /** What the count of free codes says, at line 137. */
  lemma Outcome(t: CodeType, lens: seq<nat>, min: nat, max: nat, left: int)
    requires Bounds(lens, min, max) && !NoCodes(lens)
    requires forall i :: 0 <= i < |lens| ==> lens[i] <= max
    requires max != 1 <==> exists i :: 0 <= i < |lens| && lens[i] > 1
    requires left < 0 <==> Space(lens, MAXBITS) > Pow2(MAXBITS)
    requires left >= 0 ==> left == Pow2(MAXBITS) - Space(lens, MAXBITS)
    ensures left < 0 <==> OverSubscribed(lens)
    ensures left > 0 && (t == CODES || max != 1) <==> Incomplete(t, lens)
    ensures left >= 0 ==> Space(lens, max) <= Pow2(max)
    ensures left == 0 ==> Space(lens, max) == Pow2(max)
    ensures left > 0 && max == 1 ==> Space(lens, 1) == 1 && Pow2(1) == 2
  {
    hide Space, Pow2, Occ;
    SpaceAtMax(lens, max);
    SpaceOne(lens);
  }

  /** With the sizes of inflate.c the root table's index is not longer than asked for. */
  lemma MeantRoot(t: CodeType, lens: seq<nat>, bits: nat, min: nat, max: nat, r: nat)
    requires Meant(t, |lens|, bits) && Bounds(lens, min, max) && 1 <= min <= max
    requires Space(lens, max) == Pow2(max) || max == 1
    requires r == if bits < min then min else if bits > max then max else bits
    ensures Pow2(r) <= Limit(t) && (r < max ==> r == bits)
  {
    hide Space, Occ, Pow2;
    SomePowers();
    if bits < min {
      var k := Job(t, lens, bits, max);
      EveryPlace(k, min, 0);
      BeforeBound(lens, max + 1);
      NothingBefore(lens, min);
      Pow2Mono(bits + 1, min);
    } else {
      Pow2Mono(r, bits);
    }
  }

  lemma MakeTask(k: Job, work: seq<nat>, min: nat)
    requires |k.lens| <= MaxCodes(k.t) && min <= k.root <= k.max && Bounds(k.lens, min, k.max) && Sorted(k.lens, work)
    requires (forall i :: 0 <= i < |k.lens| ==> k.lens[i] <= k.max) && Space(k.lens, k.max) <= Pow2(k.max)
    ensures Task(k, work) && GoodJob(k) && Occ(k.lens, k.max) > 0 && Space(k.lens, k.max) >= 1
  {
  }

  lemma EndParts(k: Job, s: Tables)
    requires Filling(k, s, k.max, Space(k.lens, k.max))
    ensures Pow2(k.root) <= s.used <= |s.table|
    ensures k.root == k.max ==> s.next == 0 && Drop(k, s) == 0 && s.used == Pow2(k.root)
  {
  }

  /** inflate_table, with the entries of table from *table on. The results are the value
      returned, the index bits left in *bits and the advance of *table. */
  method BuildTable(t: CodeType, lens: seq<nat>, table: array<Entry>, bits: nat, work: array<nat>)
    returns (ret: int, root: nat, used: nat)
    requires LengthsOk(lens) && |lens| <= MaxCodes(t) && |lens| <= work.Length
    requires SpaceFor(t, lens, bits, table.Length)
    modifies table, work
    ensures ret == -1 || ret == 0 || ret == 1
    ensures ret == -1 <==> OverSubscribed(lens) || Incomplete(t, lens)
    ensures ret == 0 ==> ExactDecoder(t, lens, table[..], root) && RootFor(lens, bits, root)
    ensures ret == 0 ==> Pow2(root) <= used <= table.Length && (t != CODES ==> used <= Limit(t))
    ensures ret == 0 ==> forall q :: used <= q < table.Length ==> table[q] == old(table[..])[q]
    ensures ret == 0 && RootCovers(lens, root) ==> used == Pow2(root)
    ensures ret == 1 ==> t != CODES && (Pow2(bits) <= Limit(t) ==> !RootCovers(lens, bits))
    ensures ret == 1 ==> !Meant(t, |lens|, bits)
    ensures ret != 0 ==> root == bits && used == 0
  {
    hide *;
    root, used := bits, 0;
    var count: seq<nat> := CountLengths(lens);
    var max: nat := LongestLength(lens, count);
    if max == 0 {
      NoneSpace(t, lens, bits, table.Length);
      table[0], table[1] := INVALID, INVALID;
      NoneDecoder(t, lens, table[..]);
      NoneEnd(t, lens, bits);
      LimitAtLeast(t);
      return 0, 1, 2;
    }
    var min: nat := ShortestLength(lens, count, max);
    var r: nat := if bits > max then max else bits;
    r := if r < min then min else r;
    BoundsRoot(lens, bits, min, max, r);
    TableFits(t, lens, bits, table.Length, r, max);
    var left: int := CheckSpace(lens, count);
    Outcome(t, lens, min, max, left);
    if left < 0 || (left > 0 && (t == CODES || max != 1)) {
      return -1, bits, 0;
    }
    var ok: bool;
    ok, used := MakeTables(t, lens, table, work, count, r, min, max);
    if ok {
      return 0, r, used;
    }
    if Meant(t, |lens|, bits) {
      MeantRoot(t, lens, bits, min, max, r);
    }
    return 1, bits, 0;
  }

  /** Lines 140-301, for lengths that passed the tests. */
  method MakeTables(t: CodeType, lens: seq<nat>, table: array<Entry>, work: array<nat>, count: seq<nat>,
                    root: nat, min: nat, max: nat)
    returns (ok: bool, used: nat)
    requires LengthsOk(lens) && |lens| <= MaxCodes(t) && |lens| <= work.Length && CountsAll(lens, count)
    requires Bounds(lens, min, max) && min <= root <= max && forall i :: 0 <= i < |lens| ==> lens[i] <= max
    requires Space(lens, max) == Pow2(max) || (max == 1 && Space(lens, 1) == 1 && Pow2(1) == 2)
    requires t == CODES ==> Pow2(root) <= Limit(t)
    requires Pow2(root) <= Limit(t) ==> Pow2(root) <= table.Length
    requires root < max ==> Limit(t) <= table.Length
    modifies table, work
    ensures !ok ==> t != CODES && ((root < max && !Meant(t, |lens|, root)) || Pow2(root) > Limit(t))
    ensures ok ==> ExactDecoder(t, lens, table[..], root) && Pow2(root) <= used <= table.Length
    ensures ok ==> forall q :: used <= q < table.Length ==> table[q] == old(table[..])[q]
    ensures ok && root == max ==> used == Pow2(root)
    ensures ok && t != CODES ==> used <= Limit(t)
  {
    hide *;
    SortSymbols(lens, count, work);
    ghost var k := Job(t, lens, root, max);
    MakeTask(k, work[..], min);
    used := 0;
    if (t == LENS && Pow2(root) > ENOUGH_LENS) || (t == DISTS && Pow2(root) > ENOUGH_DISTS) {
      OverLimit(t, Pow2(root));
      return false, 0;
    }
    WithinLimit(t, Pow2(root));
    var len, huff, next, drop;
    ghost var s: Tables;
    ok, s, len, huff, next, drop, used := FillTables(k, t, lens, table, work[..], count, root, min, max);
    if ok {
      MarkInvalid(k, s, table, len, huff, next, drop);
      EndParts(k, s);
    }
  }

  /** Lines 290-298: the entry left over by a single code of one bit. */
  method MarkInvalid(ghost k: Job, ghost s: Tables, table: array<Entry>, len: nat, huff: nat, next: nat, drop: nat)
    requires GoodJob(k) && Filling(k, s, k.max, Space(k.lens, k.max)) && s.table == table[..] && Occ(k.lens, k.max) > 0
    requires Space(k.lens, k.max) == Pow2(k.max) || (k.max == 1 && Space(k.lens, 1) == 1 && Pow2(1) == 2)
    requires Space(k.lens, k.max) >= 1 && huff == RevNext(Rev(Space(k.lens, k.max) - 1, k.max), k.max)
    requires len == k.max && next == s.next && drop == Drop(k, s)
    modifies table
    ensures ExactDecoder(k.t, k.lens, table[..], k.root)
    ensures forall q :: s.used <= q < table.Length ==> table[q] == old(table[..])[q]
  {
    hide *;
    EndHuff(k);
    EndParts(k, s);
    LoneRoot(k);
    if huff != 0 {
      table[next + huff] := Entry(64, len - drop, 0);
      LoneDecoder(k, s, table[..]);
    } else {
      CompleteDecoder(k, s);
    }
  }

  lemma LoneRoot(k: Job)
    requires GoodJob(k)
    ensures k.max == 1 ==> k.root == 1
  {
  }

  lemma OverLimit(t: CodeType, n: nat)
    requires (t == LENS && n > ENOUGH_LENS) || (t == DISTS && n > ENOUGH_DISTS)
    ensures n > Limit(t)
  {
  }

  lemma WithinLimit(t: CodeType, n: nat)
    requires !((t == LENS && n > ENOUGH_LENS) || (t == DISTS && n > ENOUGH_DISTS))
    ensures t != CODES ==> n <= Limit(t)
  {
  }
}
