/** longest_match of deflate.c. */
module LongestMatch {
  import opened BitStreams
  import opened Tokens
  import opened Hashing
  import opened Lz77
  import opened LzWindow

  /** m is an earlier string with the same hash as the one at strstart, not too far back. */
  ghost predicate Candidate(c: Cfg, d: Dict, m: nat)
    requires Placed(c, d) && Ahead(d) >= MIN_MATCH
  {
    && 0 < m < d.strstart && d.strstart - m <= MaxDist(c) && d.base + m in d.ins
    && HashAt(c, d.total, d.base + m) == HashAt(c, d.total, Pos(d))
  }

  function Min(a: nat, b: nat): nat
  {
    if a <= b then a else b
  }

  /** The bytes from m and from strstart agree as far as n, or as far as there is input. */
  ghost predicate Agrees(d: Dict, m: nat, n: nat)
    requires m < d.strstart && 0 <= Ahead(d)
  {
    Equal(d.total, d.base + m, Pos(d), Min(n, Ahead(d)))
  }

  /** The strings at m and at strstart agree in more than n bytes of a possible match. */
  ghost predicate Longer(d: Dict, m: nat, n: nat)
  {
    n < Ahead(d) && n < MAX_MATCH && Equal(d.total, d.base + m, Pos(d), n + 1)
  }

  lemma LongerLess(d: Dict, m: nat, n: nat, l: nat)
    requires Longer(d, m, n) && l <= n
    ensures Longer(d, m, l)
  {
    var a, b := d.base + m, Pos(d);
    assert d.total[a..a + l + 1] == d.total[a..a + n + 1][..l + 1];
    assert d.total[b..b + l + 1] == d.total[b..b + n + 1][..l + 1];
  }

  /** A byte that differs ends the agreement. */
  lemma Differs(c: Cfg, d: Dict, m: nat, k: nat, n: nat)
    requires Shown(c, d) && m < d.strstart && k <= n && m + k < |d.window| && d.strstart + k < |d.window|
    requires d.window[m + k] != d.window[d.strstart + k]
    ensures !Longer(d, m, n)
  {
    if Longer(d, m, n) {
      LongerAt(d, m, n, k);
      WindowAt(c, d, m + k);
      WindowAt(c, d, d.strstart + k);
    }
  }

  lemma LongerAt(d: Dict, m: nat, n: nat, k: nat)
    requires Longer(d, m, n) && k <= n
    ensures Pos(d) + k < |d.total| && d.total[d.base + m + k] == d.total[Pos(d) + k]
  {
    var a, b := d.base + m, Pos(d);
    assert d.total[a..a + n + 1][k] == d.total[a + k] && d.total[b..b + n + 1][k] == d.total[b + k];
  }

  /** The strings that the loop looks at: at most n along the chain from cur, as far as limit. */
  function Chain(prev: seq<nat>, cur: nat, limit: nat, n: nat): seq<nat>
    requires |prev| > 0
    decreases n
  {
    if n == 0 then []
    else if prev[cur % |prev|] <= limit then [cur]
    else [cur] + Chain(prev, prev[cur % |prev|], limit, n - 1)
  }

  /** The chain from cur comes to its end, or to limit, within n strings. */
  predicate Uncut(prev: seq<nat>, cur: nat, limit: nat, n: nat)
    requires |prev| > 0
    decreases n
  {
    n >= 1 && (prev[cur % |prev|] <= limit || Uncut(prev, prev[cur % |prev|], limit, n - 1))
  }

  /** None of the strings agrees in more than n bytes. */
  ghost predicate NoneLonger(d: Dict, ms: seq<nat>, n: nat)
  {
    forall i :: 0 <= i < |ms| ==> !Longer(d, ms[i], n)
  }

  lemma NoneLongerStill(d: Dict, ms: seq<nat>, n: nat, m: nat)
    requires NoneLonger(d, ms, n) && n <= m
    ensures NoneLonger(d, ms, m)
  {
    hide Longer;
    forall i | 0 <= i < |ms| ensures !Longer(d, ms[i], m) {
      if Longer(d, ms[i], m) {
        LongerLess(d, ms[i], m, n);
      }
    }
  }

  /** The n bytes of the window at a and at b are equal. */
  predicate Same(window: seq<byte>, a: nat, b: nat, n: nat)
  {
    a + n <= |window| && b + n <= |window| && window[a..a + n] == window[b..b + n]
  }

  lemma SameMore(window: seq<byte>, a: nat, b: nat, n: nat)
    requires Same(window, a, b, n) && a + n < |window| && b + n < |window| && window[a + n] == window[b + n]
    ensures Same(window, a, b, n + 1)
  {
    assert window[a..a + n + 1] == window[a..a + n] + [window[a + n]];
    assert window[b..b + n + 1] == window[b..b + n] + [window[b + n]];
  }

  /** Lines 1347-1352: from the fourth byte on, eight at a time. */
  method Extend(window: seq<byte>, scan: nat, match_: nat) returns (len: nat)
    requires match_ < scan && scan + MAX_MATCH < |window|
    requires Same(window, match_, scan, 3)
    ensures 3 <= len <= MAX_MATCH && Same(window, match_, scan, len)
    ensures len < MAX_MATCH ==> window[match_ + len] != window[scan + len]
  {
    hide Same;
    len := 2;
    var equal := true;
    while equal && len < MAX_MATCH
      invariant 2 <= len <= MAX_MATCH && (equal ==> (MAX_MATCH - len) % 8 == 0)
      invariant equal ==> Same(window, match_, scan, len + 1)
      invariant !equal ==> len >= 3 && Same(window, match_, scan, len) && window[match_ + len] != window[scan + len]
      decreases MAX_MATCH - len, if equal then 1 else 0
    {
      ghost var l0 := len;
      var k: nat := 0;
      while k < 8 && equal
        invariant k <= 8 && len == l0 + k && len <= MAX_MATCH
        invariant equal ==> Same(window, match_, scan, len + 1)
        invariant !equal ==> len >= 3 && Same(window, match_, scan, len) && window[match_ + len] != window[scan + len]
        decreases 8 - k, if equal then 1 else 0
      {
        len, k := len + 1, k + 1;
        equal := window[match_ + len] == window[scan + len];
        if equal {
          SameMore(window, match_, scan, len);
        }
      }
    }
    if equal {
      SameLess(window, match_, scan, len + 1, len);
    }
  }

  lemma SameLess(window: seq<byte>, a: nat, b: nat, n: nat, l: nat)
    requires Same(window, a, b, n) && l <= n
    ensures Same(window, a, b, l)
  {
    assert window[a..a + l] == window[a..a + n][..l];
    assert window[b..b + l] == window[b..b + n][..l];
  }

  /** Equal first bytes and equal hashes: the third bytes are equal too. */
  lemma ThirdEqual(c: Cfg, d: Dict, m: nat)
    requires Placed(c, d) && Ahead(d) >= MIN_MATCH && Candidate(c, d, m)
    requires d.window[m] == d.window[d.strstart] && d.window[m + 1] == d.window[d.strstart + 1]
    ensures m + 2 < |d.window| && d.window[m + 2] == d.window[d.strstart + 2]
  {
    hide Hash3, ChainsOk;
    BaseHash(c, d);
    WindowAt(c, d, m);
    WindowAt(c, d, m + 1);
    WindowAt(c, d, m + 2);
    WindowAt(c, d, d.strstart);
    WindowAt(c, d, d.strstart + 1);
    WindowAt(c, d, d.strstart + 2);
    ThirdByte(c.shift, c.hb, d.window[m], d.window[m + 1], d.window[m + 2], d.window[d.strstart + 2]);
  }

  lemma WindowAgrees(c: Cfg, d: Dict, m: nat, n: nat)
    requires Shown(c, d) && m < d.strstart && Same(d.window, m, d.strstart, n)
    ensures Agrees(d, m, n)
  {
    hide Shown, Same;
    ShownAhead(c, d);
    var l := Min(n, Ahead(d));
    SameLess(d.window, m, d.strstart, n, l);
    SeenAt(c, d, m, l);
    SeenAt(c, d, d.strstart, l);
    SameSlices(d.window, m, d.strstart, l);
  }

  lemma ShownAhead(c: Cfg, d: Dict)
    requires Shown(c, d)
    ensures 0 <= Ahead(d)
  {
  }

  lemma SameSlices(window: seq<byte>, a: nat, b: nat, n: nat)
    requires Same(window, a, b, n)
    ensures a + n <= |window| && b + n <= |window| && window[a..a + n] == window[b..b + n]
  {
  }

  lemma SeenAt(c: Cfg, d: Dict, i: nat, n: nat)
    requires Shown(c, d) && i + n <= d.strstart + Ahead(d)
    ensures d.base + i + n <= |d.total| && d.window[i..i + n] == d.total[d.base + i..d.base + i + n]
  {
    SliceOfFirst(d.window, d.strstart + Ahead(d), i, n);
    SliceOfRest(d.total, d.base, i, n);
  }

  lemma SliceOfFirst(s: seq<byte>, e: nat, i: nat, n: nat)
    requires i + n <= e <= |s|
    ensures s[..e][i..i + n] == s[i..i + n]
  {
  }

  lemma SliceOfRest(s: seq<byte>, b: nat, i: nat, n: nat)
    requires b + i + n <= |s|
    ensures s[b..][i..i + n] == s[b + i..b + i + n]
  {
  }

  /** Lines 1330-1356: the length of the match at cur, or 0 where the quick tests show that it is no
      longer than best. */
  method Compare(c: Cfg, ghost d: Dict, window: seq<byte>, strstart: nat, cur: nat, best: nat) returns (len: nat)
    requires Placed(c, d) && Ahead(d) >= MIN_MATCH && Candidate(c, d, cur) && window == d.window
    requires strstart == d.strstart
    requires strstart + MAX_MATCH < |window| && 1 <= best <= MAX_MATCH
    ensures len <= MAX_MATCH && Agrees(d, cur, len)
    ensures !Longer(d, cur, if len > best then len else best)
  {
    hide ChainsOk, Hash3, Longer;
    if window[cur + best] != window[strstart + best] {
      Differs(c, d, cur, best, best);
      len := 0;
    } else if window[cur + best - 1] != window[strstart + best - 1] {
      Differs(c, d, cur, best - 1, best);
      len := 0;
    } else if window[cur] != window[strstart] {
      Differs(c, d, cur, 0, best);
      len := 0;
    } else if window[cur + 1] != window[strstart + 1] {
      Differs(c, d, cur, 1, best);
      len := 0;
    } else {
      ThirdEqual(c, d, cur);
      FirstThree(window, cur, strstart);
      len := Extend(window, strstart, cur);
      NoFurther(c, d, cur, len, if len > best then len else best);
    }
    WindowAgrees(c, d, cur, len);
  }

  lemma FirstThree(window: seq<byte>, a: nat, b: nat)
    requires a + 3 <= |window| && b + 3 <= |window|
    requires window[a] == window[b] && window[a + 1] == window[b + 1] && window[a + 2] == window[b + 2]
    ensures Same(window, a, b, 3)
  {
    assert window[a..a + 3] == [window[a], window[a + 1], window[a + 2]];
    assert window[b..b + 3] == [window[b], window[b + 1], window[b + 2]];
  }

  lemma NoFurther(c: Cfg, d: Dict, m: nat, len: nat, n: nat)
    requires Shown(c, d) && m < d.strstart && d.strstart + MAX_MATCH < |d.window| && len <= n && len <= MAX_MATCH
    requires len < MAX_MATCH ==> d.window[m + len] != d.window[d.strstart + len]
    ensures !Longer(d, m, n)
  {
    if len < MAX_MATCH {
      Differs(c, d, m, len, n);
    }
  }

  /** The chain leads from one candidate to the next. */
  lemma NextCandidate(c: Cfg, d: Dict, m: nat)
    requires Placed(c, d) && Ahead(d) >= MIN_MATCH && Candidate(c, d, m)
    ensures |d.prev| == c.W > 0
    ensures var n := d.prev[m % c.W];
      n > LimitOf(d.strstart, MaxDist(c)) ==> Candidate(c, d, n)
  {
    hide Hash3;
    assert PrevOk(c, d.total, Index(d), m);
  }

  /** How many strings may be looked at, lines 1272-1275. */
  function Budget(prevLength: nat, goodMatch: nat, maxChain: nat): nat
  {
    if prevLength >= goodMatch then maxChain / 4 else maxChain
  }

  function LimitOf(strstart: nat, maxDist: nat): nat
  {
    if strstart > maxDist then strstart - maxDist else 0
  }

  /** A candidate is sound, and the chain passes over no other after it. */
  lemma NearestCandidate(c: Cfg, d: Dict, cur: nat, p: nat)
    requires Placed(c, d) && Ahead(d) >= MIN_MATCH && 0 < cur && d.base + cur in d.ins && cur + c.W > d.strstart
    requires HashAt(c, d.total, d.base + cur) == HashAt(c, d.total, Pos(d))
    requires p in d.ins && p < d.base + cur && HashAt(c, d.total, p) == HashAt(c, d.total, Pos(d))
    ensures |d.prev| == c.W > 0 && p <= d.base + d.prev[cur % c.W]
  {
    hide Hash3, Sound;
    SoundParts(c, d.total, Index(d));
    assert NearestAt(c, d.total, Index(d), cur);
  }

  /** A chain that is not cut short holds every inserted string with the hash of its head that lies between
      limit and the head. */
  lemma {:induction false} ChainHolds(c: Cfg, d: Dict, cur: nat, limit: nat, n: nat, m: nat)
    requires Placed(c, d) && Ahead(d) >= MIN_MATCH && Candidate(c, d, cur)
    requires GoodCfg(c) && |d.prev| == c.W > 0 && limit == LimitOf(d.strstart, MaxDist(c))
    requires Uncut(d.prev, cur, limit, n)
    requires limit < m <= cur && d.base + m in d.ins && HashAt(c, d.total, d.base + m) == HashAt(c, d.total, Pos(d))
    ensures m in Chain(d.prev, cur, limit, n)
    decreases n
  {
    hide Placed, HashAt;
    CandidateIs(c, d, cur);
    if m < cur {
      NearestCandidate(c, d, cur, d.base + m);
      var next := d.prev[cur % c.W];
      NextCandidate(c, d, cur);
      ChainHolds(c, d, next, limit, n - 1, m);
    }
  }

  lemma CandidateIs(c: Cfg, d: Dict, m: nat)
    requires Placed(c, d) && Ahead(d) >= MIN_MATCH && Candidate(c, d, m)
    ensures GoodCfg(c) && 0 < m < d.strstart && m + c.W > d.strstart && d.base + m in d.ins
    ensures d.base + m + 3 <= |d.total| && Pos(d) + 3 <= |d.total|
    ensures HashAt(c, d.total, d.base + m) == HashAt(c, d.total, Pos(d))
  {
    hide Hash3;
  }

  /** No inserted string after limit agrees with the one at strstart in more than n bytes. */
  ghost predicate NoneInWindow(d: Dict, limit: nat, n: nat)
  {
    forall m: nat :: limit < m < d.strstart && d.base + m in d.ins ==> !Longer(d, m, n)
  }

  lemma LongerHash(c: Cfg, d: Dict, m: nat, n: nat)
    requires Longer(d, m, n) && n >= 2
    ensures d.base + m + 3 <= |d.total| && Pos(d) + 3 <= |d.total|
    ensures HashAt(c, d.total, d.base + m) == HashAt(c, d.total, Pos(d))
  {
    hide Hash3;
    LongerAt(d, m, n, 0);
    LongerAt(d, m, n, 1);
    LongerAt(d, m, n, 2);
  }

  /** The chain that begins where INSERT_STRING left off says all there is to say about the window. */
  lemma WindowSearched(c: Cfg, d: Dict, cur: nat, n: nat, len: nat)
    requires Placed(c, d) && Ahead(d) >= MIN_MATCH && Candidate(c, d, cur) && GoodCfg(c) && |d.prev| == c.W > 0
    requires cur == d.prev[d.strstart % c.W] && len >= 2
    requires Uncut(d.prev, cur, LimitOf(d.strstart, MaxDist(c)), n)
    requires NoneLonger(d, Chain(d.prev, cur, LimitOf(d.strstart, MaxDist(c)), n), len)
    ensures NoneInWindow(d, LimitOf(d.strstart, MaxDist(c)), len)
  {
    hide Placed, Candidate, Longer, HashAt, Uncut, Chain;
    var limit := LimitOf(d.strstart, MaxDist(c));
    forall m: nat | limit < m < d.strstart && d.base + m in d.ins ensures !Longer(d, m, len) {
      if Longer(d, m, len) {
        LongerHash(c, d, m, len);
        HeadNearest(c, d, m);
        ChainHolds(c, d, cur, limit, n, m);
        assert false;
      }
    }
  }

  lemma HeadNearest(c: Cfg, d: Dict, m: nat)
    requires Placed(c, d) && Ahead(d) >= MIN_MATCH && GoodCfg(c) && |d.prev| == c.W > 0
    requires 0 < m < d.strstart && d.base + m in d.ins && d.base + m + 3 <= |d.total|
    requires HashAt(c, d.total, d.base + m) == HashAt(c, d.total, Pos(d))
    ensures m <= d.prev[d.strstart % c.W]
  {
    hide HashAt, Sound;
    SoundParts(c, d.total, Index(d));
    assert NearestAt(c, d.total, Index(d), d.strstart);
  }

  /** What the search has found after the strings seen: a match of best bytes, longer than the prior one, first
      made by string k, when before was the best so far. */
  ghost predicate Sofar(d: Dict, seen: seq<nat>, prior: nat, best: nat, start: int, k: nat, before: nat, nice: nat)
  {
    && prior <= best && (best > prior ==> Improved(d, seen, prior, best, start, k, before, nice))
    && (best == prior || best < nice ==> NoneLonger(d, seen, best))
  }

  ghost predicate Improved(d: Dict, seen: seq<nat>, prior: nat, best: nat, start: int, k: nat, before: nat, nice: nat)
  {
    && k < |seen| && seen[k] == start && NoneLonger(d, seen[..k], before) && before < best
    && (before == prior || before < nice)
  }

  lemma SofarStart(d: Dict, prior: nat, start: int, nice: nat)
    ensures Sofar(d, [], prior, prior, start, 0, 0, nice)
  {
  }

  lemma SofarSame(d: Dict, seen: seq<nat>, prior: nat, best: nat, start: int, k: nat, before: nat, nice: nat, cur: nat)
    requires Sofar(d, seen, prior, best, start, k, before, nice) && (best == prior || best < nice)
    requires !Longer(d, cur, best)
    ensures Sofar(d, seen + [cur], prior, best, start, k, before, nice)
  {
    hide NoneLonger, Longer;
    NoneLongerNext(d, seen, best, cur, best);
    if best > prior {
      assert (seen + [cur])[..k] == seen[..k];
    }
  }

  lemma SofarBetter(d: Dict, seen: seq<nat>, prior: nat, best: nat, start: int, k: nat, before: nat, nice: nat,
                    cur: nat, l: nat)
    requires Sofar(d, seen, prior, best, start, k, before, nice) && (best == prior || best < nice)
    requires l > best && !Longer(d, cur, l)
    ensures Sofar(d, seen + [cur], prior, l, cur, |seen|, best, nice)
  {
    hide NoneLonger, Longer;
    NoneLongerNext(d, seen, best, cur, l);
    assert (seen + [cur])[..|seen|] == seen;
  }

  /** A search that ended early has seen only the beginning of the chain. */
  lemma SofarMore(d: Dict, seen: seq<nat>, prior: nat, best: nat, start: int, k: nat, before: nat, nice: nat,
                  more: seq<nat>)
    requires Sofar(d, seen, prior, best, start, k, before, nice) && best > prior && best >= nice
    ensures Sofar(d, seen + more, prior, best, start, k, before, nice)
  {
    hide NoneLonger;
    assert (seen + more)[..k] == seen[..k];
  }

  /** The loop of longest_match, lines 1320-1369. */
  method Search(c: Cfg, ghost d: Dict, window: seq<byte>, prev: seq<nat>, strstart: nat, curMatch: nat, prior: nat,
                matchStart: int, nice: nat, budget: nat, limit: nat)
    returns (best: nat, start: int, ghost k: nat, ghost before: nat)
    requires Placed(c, d) && Ahead(d) >= MIN_MATCH && Candidate(c, d, curMatch) && GoodCfg(c) && |d.prev| == c.W > 0
    requires window == d.window && prev == d.prev && strstart == d.strstart && strstart + MAX_MATCH < |window|
    requires 1 <= prior <= MAX_MATCH && nice <= MAX_MATCH && budget >= 1 && limit == LimitOf(strstart, MaxDist(c))
    ensures prior <= best <= MAX_MATCH
    ensures best > prior ==> 0 < start < strstart && strstart - start <= MaxDist(c) && Agrees(d, start, best)
    ensures Sofar(d, Chain(prev, curMatch, limit, budget), prior, best, start, k, before, nice)
  {
    hide *;
    var chain: nat, cur: nat := budget, curMatch;
    best, start, k, before := prior, matchStart, 0, 0;
    ghost var all: seq<nat>, seen: seq<nat> := Chain(prev, curMatch, limit, chain), [];
    CandidateRange(c, d, cur);
    SofarStart(d, prior, start, nice);
    JoinNone(all);
    while true
      invariant chain >= 1 && prior <= best <= MAX_MATCH && Candidate(c, d, cur) && cur < strstart
      invariant best > prior ==> 0 < start < strstart && strstart - start <= MaxDist(c) && Agrees(d, start, best)
      invariant Joined(all, seen, Chain(prev, cur, limit, chain)) && Sofar(d, seen, prior, best, start, k, before, nice)
      invariant best == prior || best < nice
      decreases chain
    {
      CandidateRange(c, d, cur);
      var l: nat := Compare(c, d, window, strstart, cur, best);
      ghost var rest := ChainSplit(prev, cur, limit, chain);
      JoinNext(all, seen, cur, rest);
      if l > best {
        SofarBetter(d, seen, prior, best, start, k, before, nice, cur, l);
        k, before, start, best := |seen|, best, cur, l;
        if l >= nice {
          SofarMore(d, seen + [cur], prior, best, start, k, before, nice, rest);
          JoinedIs(all, seen + [cur], rest);
          break;
        }
      } else {
        SofarSame(d, seen, prior, best, start, k, before, nice, cur);
      }
      NextCandidate(c, d, cur);
      seen := seen + [cur];
      cur := prev[cur % c.W];
      if cur <= limit {
        JoinedIs(all, seen, []);
        break;
      }
      CandidateRange(c, d, cur);
      chain := chain - 1;
      if chain == 0 {
        NoChain(prev, cur, limit);
        JoinedIs(all, seen, []);
        break;
      }
    }
  }

  ghost predicate Joined(all: seq<nat>, seen: seq<nat>, rest: seq<nat>)
  {
    all == seen + rest
  }

  lemma JoinNone(all: seq<nat>)
    ensures Joined(all, [], all)
  {
  }

  lemma JoinNext(all: seq<nat>, seen: seq<nat>, cur: nat, rest: seq<nat>)
    requires Joined(all, seen, [cur] + rest)
    ensures Joined(all, seen + [cur], rest)
  {
  }

  lemma JoinedIs(all: seq<nat>, seen: seq<nat>, rest: seq<nat>)
    requires Joined(all, seen, rest)
    ensures all == seen + rest && (rest == [] ==> all == seen)
  {
  }

  lemma ChainSplit(prev: seq<nat>, cur: nat, limit: nat, n: nat) returns (rest: seq<nat>)
    requires |prev| > 0 && n >= 1
    ensures Chain(prev, cur, limit, n) == [cur] + rest
    ensures rest == if prev[cur % |prev|] <= limit then [] else Chain(prev, prev[cur % |prev|], limit, n - 1)
  {
    rest := if prev[cur % |prev|] <= limit then [] else Chain(prev, prev[cur % |prev|], limit, n - 1);
    assert [cur] + [] == [cur];
  }

  /** longest_match, lines 1236-1377. cur is the head of the chain; a result above prevLength
      comes with a match of that length. Unless the result is long enough to be nice, none of the
      strings on the chain, which is cut short where prevLength is good, makes a longer match, and none before
      the match makes one as long; and if the chain is searched to its end, no inserted string in reach makes a
      longer one. */
  method FindLongest(c: Cfg, ghost d: Dict, window: seq<byte>, prev: seq<nat>, strstart: nat, lookahead: nat,
                     curMatch: nat, prevLength: nat, matchStart: int, goodMatch: nat, niceMatch: nat, maxChain: nat)
    returns (len: nat, start: int, ghost k: nat)
    requires Placed(c, d) && Ahead(d) == lookahead >= MIN_MATCH && Candidate(c, d, curMatch)
    requires window == d.window && prev == d.prev && strstart == d.strstart && strstart + MAX_MATCH < |window|
    requires 1 <= prevLength <= MAX_MATCH && niceMatch <= MAX_MATCH && maxChain >= 4
    requires |prev| == c.W > 0 && curMatch == prev[strstart % c.W]
    ensures GoodCfg(c) && |prev| == c.W > 0
    ensures len <= lookahead && len <= MAX_MATCH && len >= Min(prevLength, lookahead)
    ensures len > prevLength ==> 0 < start < strstart && MatchOk(c, d.total, d.base + start, Pos(d), len)
    ensures var chain := Chain(prev, curMatch, LimitOf(strstart, MaxDist(c)), Budget(prevLength, goodMatch, maxChain));
      && (len > prevLength ==> FirstOf(d, chain, k, start, len))
      && (len < Min(niceMatch, lookahead) || len <= prevLength ==> NoneLonger(d, chain, len))
    ensures
      && len < Min(niceMatch, lookahead) && prevLength >= 2
      && Uncut(prev, curMatch, LimitOf(strstart, MaxDist(c)), Budget(prevLength, goodMatch, maxChain))
      ==> NoneInWindow(d, LimitOf(strstart, MaxDist(c)), len)
  {
    hide Placed, Candidate, Agrees, NoneLonger, Longer, Chain, Uncut, NoneInWindow, Sofar, FirstOf;
    PlacedCfg(c, d);
    var chain: nat, nice: nat := maxChain, niceMatch;
    var limit: nat := LimitOf(strstart, MaxDist(c));
    if prevLength >= goodMatch {
      chain := chain / 4;
    }
    if nice > lookahead {
      nice := lookahead;
    }
    var best: nat;
    ghost var before: nat;
    best, start, k, before := Search(c, d, window, prev, strstart, curMatch, prevLength, matchStart, nice, chain,
                                     limit);
    len := if best <= lookahead then best else lookahead;
    if len > prevLength {
      AgreesMatch(c, d, start, best);
    }
    ghost var all := Chain(prev, curMatch, limit, chain);
    Outcome(d, all, prevLength, best, start, k, before, nice, len);
    ghost var n := Budget(prevLength, goodMatch, maxChain);
    if len < nice && prevLength >= 2 && Uncut(prev, curMatch, limit, n) {
      WindowSearched(c, d, curMatch, n, len);
    }
  }

  lemma Outcome(d: Dict, all: seq<nat>, prior: nat, best: nat, start: int, k: nat, before: nat, nice: nat, len: nat)
    requires Sofar(d, all, prior, best, start, k, before, nice) && nice <= Ahead(d)
    requires len == if best <= Ahead(d) then best else Ahead(d)
    ensures len > prior ==> FirstOf(d, all, k, start, len)
    ensures len < nice || len <= prior ==> NoneLonger(d, all, len)
  {
    hide NoneLonger, Longer;
    if len > prior {
      NoneLongerStill(d, all[..k], before, len - 1);
    }
    if len < best {
      LookaheadEnds(d, all, len);
    }
  }

  /** Element k is the first that makes a match of n bytes. */
  ghost predicate FirstOf(d: Dict, ms: seq<nat>, k: nat, start: int, n: nat)
  {
    k < |ms| && ms[k] == start && n >= 1 && NoneLonger(d, ms[..k], n - 1)
  }

  lemma LookaheadEnds(d: Dict, ms: seq<nat>, n: nat)
    requires n == Ahead(d)
    ensures NoneLonger(d, ms, n)
  {
  }

  lemma NoneLongerNext(d: Dict, ms: seq<nat>, n: nat, m: nat, n': nat)
    requires NoneLonger(d, ms, n) && n <= n' && !Longer(d, m, n')
    ensures NoneLonger(d, ms + [m], n')
  {
    hide Longer;
    NoneLongerStill(d, ms, n, n');
  }

  lemma NoChain(prev: seq<nat>, cur: nat, limit: nat)
    requires |prev| > 0
    ensures Chain(prev, cur, limit, 0) == []
  {
  }

  lemma PlacedCfg(c: Cfg, d: Dict)
    requires Placed(c, d)
    ensures GoodCfg(c) && |d.prev| == c.W > 0
  {
    hide Hash3;
  }

  lemma CandidateRange(c: Cfg, d: Dict, m: nat)
    requires Placed(c, d) && Ahead(d) >= MIN_MATCH && Candidate(c, d, m)
    ensures GoodCfg(c) && 0 < m < d.strstart && d.strstart - m <= MaxDist(c)
  {
    hide Hash3;
  }

  lemma AgreesMatch(c: Cfg, d: Dict, m: nat, n: nat)
    requires GoodCfg(c) && 0 < m < d.strstart && 0 <= Ahead(d) && Agrees(d, m, n) && d.strstart - m <= MaxDist(c)
    requires n <= MAX_MATCH
    ensures MatchOk(c, d.total, d.base + m, Pos(d), Min(n, Ahead(d)))
  {
  }
}
