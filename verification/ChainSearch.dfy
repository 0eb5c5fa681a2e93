/** The search along a hash chain, seen from the input: which strings it looks at, and what it leaves behind for
    the choice of the token. */
module ChainSearch {
  import opened BitStreams
  import opened Tokens
  import opened Hashing
  import opened Lz77
  import opened LzWindow
  import opened LongestMatch
  import opened Choices

  /** The chain of the string at strstart can be followed from cur. */
  ghost predicate Linking(c: Cfg, d: Dict, cur: nat, limit: nat)
  {
    && Placed(c, d) && Ahead(d) >= MIN_MATCH && Candidate(c, d, cur) && GoodCfg(c) && |d.prev| == c.W > 0
    && limit == LimitOf(d.strstart, MaxDist(c))
  }

  lemma LinkNext(c: Cfg, d: Dict, cur: nat, limit: nat)
    requires Linking(c, d, cur, limit)
    ensures |d.prev| == c.W > 0 && d.prev[cur % c.W] > limit ==> Linking(c, d, d.prev[cur % c.W], limit)
    ensures |d.prev| == c.W > 0 && (d.prev[cur % c.W] > limit ==> d.prev[cur % c.W] < cur)
  {
    hide Placed, Candidate;
    NextCandidate(c, d, cur);
    NextBelow(c, d, cur);
  }

  lemma NextBelow(c: Cfg, d: Dict, m: nat)
    requires Placed(c, d) && Ahead(d) >= MIN_MATCH && Candidate(c, d, m)
    ensures |d.prev| == c.W > 0 && (d.prev[m % c.W] > 0 ==> d.prev[m % c.W] < m)
  {
    hide Hash3;
    assert PrevOk(c, d.total, Index(d), m);
  }

  /** The chain goes from candidate to candidate, each further back. */
  lemma {:induction false} ChainCandidates(c: Cfg, d: Dict, cur: nat, limit: nat, n: nat, i: nat)
    requires Linking(c, d, cur, limit) && |d.prev| > 0 && i < |Chain(d.prev, cur, limit, n)|
    ensures Linking(c, d, Chain(d.prev, cur, limit, n)[i], limit)
    ensures Chain(d.prev, cur, limit, n)[i] <= cur && (i > 0 ==> Chain(d.prev, cur, limit, n)[i] < cur)
    decreases n
  {
    hide Linking;
    LinkNext(c, d, cur, limit);
    var rest := ChainSplit(d.prev, cur, limit, n);
    if i > 0 {
      ChainCandidates(c, d, d.prev[cur % |d.prev|], limit, n - 1, i - 1);
    }
  }

  lemma {:induction false} ChainDescends(c: Cfg, d: Dict, cur: nat, limit: nat, n: nat, i: nat, j: nat)
    requires Linking(c, d, cur, limit) && |d.prev| > 0 && i < j < |Chain(d.prev, cur, limit, n)|
    ensures Chain(d.prev, cur, limit, n)[i] > Chain(d.prev, cur, limit, n)[j]
    decreases n
  {
    hide Linking;
    LinkNext(c, d, cur, limit);
    if i == 0 {
      ChainCandidates(c, d, cur, limit, n, j);
    } else {
      var rest := ChainSplit(d.prev, cur, limit, n);
      ChainDescends(c, d, d.prev[cur % |d.prev|], limit, n - 1, i - 1, j - 1);
    }
  }

  lemma {:induction false} ChainSize(prev: seq<nat>, cur: nat, limit: nat, n: nat)
    requires |prev| > 0
    ensures |Chain(prev, cur, limit, n)| <= n && (n > 0 ==> |Chain(prev, cur, limit, n)| > 0)
    decreases n
  {
    if n > 0 {
      ChainSize(prev, prev[cur % |prev|], limit, n - 1);
    }
  }

  /** An inserted string with the same hash is on the chain, unless the chain was cut before it. */
  lemma {:induction false} ChainReaches(c: Cfg, d: Dict, cur: nat, limit: nat, n: nat, m: nat)
    requires Linking(c, d, cur, limit) && |d.prev| > 0 && n > 0
    requires limit < m <= cur && d.base + m in d.ins && d.base + m + 3 <= |d.total| && Pos(d) + 3 <= |d.total|
    requires HashAt(c, d.total, d.base + m) == HashAt(c, d.total, Pos(d))
    ensures var chain := Chain(d.prev, cur, limit, n); m in chain || (|chain| == n && m < chain[n - 1])
    decreases n
  {
    hide Linking, HashAt;
    ChainSize(d.prev, cur, limit, n);
    if m < cur {
      Nearer(c, d, cur, limit, m);
      LinkNext(c, d, cur, limit);
      var next := d.prev[cur % |d.prev|];
      var rest := ChainSplit(d.prev, cur, limit, n);
      if n > 1 {
        ChainReaches(c, d, next, limit, n - 1, m);
      } else {
        NoChain(d.prev, next, limit);
      }
    }
  }

  lemma Nearer(c: Cfg, d: Dict, cur: nat, limit: nat, m: nat)
    requires Linking(c, d, cur, limit) && m < cur
    requires d.base + m in d.ins && d.base + m + 3 <= |d.total| && Pos(d) + 3 <= |d.total|
    requires HashAt(c, d.total, d.base + m) == HashAt(c, d.total, Pos(d))
    ensures |d.prev| == c.W > 0 && m <= d.prev[cur % c.W]
  {
    hide Placed, HashAt;
    CandidateIs(c, d, cur);
    NearestCandidate(c, d, cur, d.base + m);
  }

  /** Window indices as positions. */
  function Absolute(base: nat, ms: seq<nat>): (r: seq<nat>)
    ensures |r| == |ms| && forall i :: 0 <= i < |ms| ==> r[i] == base + ms[i]
  {
    seq(|ms|, i requires 0 <= i < |ms| => base + ms[i])
  }

  /** The window has slid only when it was full, so that it always reaches as far back as a match may. */
  predicate SlidLate(c: Cfg, d: Dict)
    requires GoodCfg(c)
  {
    d.base == 0 || d.strstart >= MaxDist(c)
  }

  /** A search that begins where INSERT_STRING has just put the string at strstart. */
  ghost predicate Searching(c: Cfg, d: Dict, k: Look)
  {
    && Placed(c, d) && Ahead(d) >= 1 && GoodCfg(c) && |d.prev| == c.W && SlidLate(c, d) && k.seen == d.total
    && d.ins == (if Ahead(d) >= MIN_MATCH then k.ins + {Pos(d)} else k.ins) && forall q :: q in k.ins ==> q < Pos(d)
  }

  /** What Kin says in terms of the window. */
  lemma KinIndex(c: Cfg, d: Dict, k: Look, q: nat)
    requires Searching(c, d, k) && Ahead(d) >= MIN_MATCH && Kin(c, Pos(d), k, q) && Pos(d) - q < c.W - 262
    ensures var m := q - d.base;
      && LimitOf(d.strstart, MaxDist(c)) < m < d.strstart && q in d.ins && q + 3 <= |d.total|
      && HashAt(c, d.total, q) == HashAt(c, d.total, Pos(d)) && m <= d.prev[d.strstart % c.W]
  {
    hide Placed, HashAt;
    HeadNearest(c, d, q - d.base);
  }

  lemma KinOf(c: Cfg, d: Dict, k: Look, m: nat)
    requires Searching(c, d, k) && Ahead(d) >= MIN_MATCH && Candidate(c, d, m)
    ensures KinInReach(c, Pos(d), k, d.base + m)
  {
    hide Hash3;
  }

  lemma LatestChain(c: Cfg, d: Dict, k: Look, cur: nat, n: nat)
    requires Searching(c, d, k) && Ahead(d) >= MIN_MATCH && Candidate(c, d, cur) && n > 0
    requires cur == d.prev[d.strstart % c.W]
    requires k.strings == Absolute(d.base, Chain(d.prev, cur, LimitOf(d.strstart, MaxDist(c)), n))
    ensures Latest(c, Pos(d), k, n)
  {
    hide Searching, Candidate, Placed, Chain, HashAt, Kin, KinInReach, Linking;
    SearchingIs(c, d, k);
    var limit := LimitOf(d.strstart, MaxDist(c));
    MakeLinking(c, d, cur, limit);
    var chain := Chain(d.prev, cur, limit, n);
    ChainSize(d.prev, cur, limit, n);
    forall i | 0 <= i < |k.strings| ensures KinInReach(c, Pos(d), k, k.strings[i]) {
      ChainCandidates(c, d, cur, limit, n, i);
      LinkingIs(c, d, chain[i], limit);
      KinOf(c, d, k, chain[i]);
    }
    forall i, j | 0 <= i < j < |k.strings| ensures k.strings[i] > k.strings[j] {
      ChainDescends(c, d, cur, limit, n, i, j);
    }
    forall q: nat | Kin(c, Pos(d), k, q) && Pos(d) - q < c.W - 262 ensures q in k.strings || PastLast(k, n, q) {
      KinIndex(c, d, k, q);
      ChainReaches(c, d, cur, limit, n, q - d.base);
      if q - d.base in chain {
        var i :| 0 <= i < |chain| && chain[i] == q - d.base;
        assert k.strings[i] == q;
      }
    }
  }

  lemma SearchingIs(c: Cfg, d: Dict, k: Look)
    requires Searching(c, d, k)
    ensures Placed(c, d) && GoodCfg(c) && |d.prev| == c.W > 0 && k.seen == d.total && 1 <= Ahead(d) == |k.seen| - Pos(d)
    ensures forall q :: q in k.ins ==> q < Pos(d)
  {
    hide Placed;
  }

  lemma MakeLinking(c: Cfg, d: Dict, cur: nat, limit: nat)
    requires Placed(c, d) && Ahead(d) >= MIN_MATCH && Candidate(c, d, cur) && GoodCfg(c) && |d.prev| == c.W > 0
    requires limit == LimitOf(d.strstart, MaxDist(c))
    ensures Linking(c, d, cur, limit)
  {
    hide Placed, Candidate;
  }

  lemma LinkingIs(c: Cfg, d: Dict, cur: nat, limit: nat)
    requires Linking(c, d, cur, limit)
    ensures Placed(c, d) && Ahead(d) >= MIN_MATCH && Candidate(c, d, cur)
  {
    hide Placed, Candidate;
  }

  /** There is nothing to look at. */
  lemma LatestNone(c: Cfg, d: Dict, k: Look, head: nat, n: nat)
    requires Searching(c, d, k) && k.strings == []
    requires Ahead(d) >= MIN_MATCH ==>
      head == d.prev[d.strstart % c.W] && (head == 0 || d.strstart - head > MaxDist(c))
    ensures Latest(c, Pos(d), k, n)
  {
    hide Searching, Placed, HashAt, Kin, KinInReach;
    SearchingIs(c, d, k);
    if Ahead(d) >= MIN_MATCH {
      forall q: nat | Kin(c, Pos(d), k, q) ensures Pos(d) - q >= c.W - 262 {
        if Pos(d) - q < c.W - 262 {
          KinIndex(c, d, k, q);
          assert false;
        }
      }
    }
  }

  lemma AgreeIs(d: Dict, m: nat, n: nat)
    ensures Agree(d.total, d.base + m, Pos(d), n) <==> Longer(d, m, n)
  {
  }

  lemma NoneAgreeIs(d: Dict, ms: seq<nat>, n: nat)
    ensures NoneLonger(d, ms, n) ==> NoneAgree(d.total, Pos(d), Absolute(d.base, ms), n)
  {
    hide Longer, Agree;
    if NoneLonger(d, ms, n) {
      forall i | 0 <= i < |ms| ensures !Agree(d.total, Absolute(d.base, ms)[i], Pos(d), n) {
        AgreeIs(d, ms[i], n);
      }
    }
  }

  /** The search was made. */
  lemma LookMade(c: Cfg, t: Tuning, d: Dict, k: Look, cur: nat, len: nat, start: int, i: nat)
    requires Searching(c, d, k) && Ahead(d) >= MIN_MATCH && Candidate(c, d, cur) && cur == d.prev[d.strstart % c.W]
    requires 2 <= k.prior < t.maxLazy && k.prior <= 258 && t.maxChain >= 4 && len <= Ahead(d) && len <= 258
    requires var n := Budget(k.prior, t.goodMatch, t.maxChain);
      var chain := Chain(d.prev, cur, LimitOf(d.strstart, MaxDist(c)), n);
      && k.strings == Absolute(d.base, chain)
      && (len > k.prior ==> FirstOf(d, chain, i, start, len))
      && (len < Min(t.niceMatch, Ahead(d)) || len <= k.prior ==> NoneLonger(d, chain, len))
    requires len > k.prior ==> 0 < start < d.strstart && MatchOk(c, d.total, d.base + start, Pos(d), len)
    requires if len > k.prior then k.best == len && k.at == d.base + start else k.best == k.prior
    ensures LookOk(c, t, Pos(d), k)
  {
    hide Searching, Candidate, Placed, Chain, NoneLonger, NoneAgree, Latest, Nearest, FirstOf, MatchOk, Absolute;
    SearchingIs(c, d, k);
    var n := Budget(k.prior, t.goodMatch, t.maxChain);
    var chain := Chain(d.prev, cur, LimitOf(d.strstart, MaxDist(c)), n);
    LatestChain(c, d, k, cur, n);
    if len > k.prior {
      MakeNearest(c, d, k, chain, i, start, len);
      NoneAgreeIs(d, chain, len);
    } else {
      NoneLongerUp(d, chain, len, k.prior);
      NoneAgreeIs(d, chain, k.prior);
    }
  }

  lemma NoneLongerUp(d: Dict, ms: seq<nat>, n: nat, m: nat)
    requires NoneLonger(d, ms, n) && n <= m
    ensures NoneLonger(d, ms, m)
  {
    hide Longer, NoneLonger;
    NoneLongerStill(d, ms, n, m);
  }

  lemma MakeNearest(c: Cfg, d: Dict, k: Look, chain: seq<nat>, i: nat, start: int, len: nat)
    requires GoodCfg(c) && FirstOf(d, chain, i, start, len) && 0 < start < d.strstart
    requires MatchOk(c, d.total, d.base + start, Pos(d), len)
    requires k.strings == Absolute(d.base, chain) && k.seen == d.total && k.best == len && k.at == d.base + start
    ensures Nearest(Pos(d), k)
  {
    hide Longer, NoneLonger, NoneAgree;
    NoneAgreeIs(d, chain[..i], len - 1);
    assert k.strings[..i] == Absolute(d.base, chain[..i]);
    assert k.strings[i] == k.at;
  }

  /** No search was made: there was nothing to look at, or the length to beat was long enough. */
  lemma LookSkipped(c: Cfg, t: Tuning, d: Dict, k: Look, head: nat)
    requires Searching(c, d, k) && k.strings == [] && 2 <= k.prior == k.best <= 258
    requires k.prior < t.maxLazy && Ahead(d) >= MIN_MATCH ==>
      head == d.prev[d.strstart % c.W] && (head == 0 || d.strstart - head > MaxDist(c))
    ensures LookOk(c, t, Pos(d), k)
  {
    hide Searching, Latest, Nearest;
    SearchingIs(c, d, k);
    if k.prior < t.maxLazy {
      LatestNone(c, d, k, head, if k.prior >= t.goodMatch then t.maxChain / 4 else t.maxChain);
    }
  }

  lemma MakeSearching(c: Cfg, d: Dict, k: Look)
    requires Placed(c, d) && Ahead(d) >= 1 && GoodCfg(c) && |d.prev| == c.W && SlidLate(c, d) && k.seen == d.total
    requires d.ins == (if Ahead(d) >= MIN_MATCH then k.ins + {Pos(d)} else k.ins)
    requires forall q :: q in k.ins ==> q < Pos(d)
    ensures Searching(c, d, k)
  {
    hide Placed;
  }

  /** What longest_match has found, for the record. */
  lemma LookAt(c: Cfg, t: Tuning, d: Dict, k0: Look, cur: nat, len: nat, start: int, i: nat) returns (k: Look)
    requires Searching(c, d, k0) && Ahead(d) >= MIN_MATCH && Candidate(c, d, cur) && cur == d.prev[d.strstart % c.W]
    requires 2 <= k0.prior < t.maxLazy && k0.prior <= 258 && t.maxChain >= 4 && len <= Ahead(d) && len <= 258
    requires var n := Budget(k0.prior, t.goodMatch, t.maxChain);
      var chain := Chain(d.prev, cur, LimitOf(d.strstart, MaxDist(c)), n);
      && (len > k0.prior ==> FirstOf(d, chain, i, start, len))
      && (len < Min(t.niceMatch, Ahead(d)) || len <= k0.prior ==> NoneLonger(d, chain, len))
    requires len > k0.prior ==> 0 < start < d.strstart && MatchOk(c, d.total, d.base + start, Pos(d), len)
    ensures LookOk(c, t, Pos(d), k) && k.seen == k0.seen && k.ins == k0.ins && k.prior == k0.prior
    ensures if len > k.prior then k.best == len && k.at == d.base + start else k.best == k.prior
  {
    hide Candidate, Placed, Chain, NoneLonger, FirstOf, MatchOk, LookOk, Absolute;
    var n := Budget(k0.prior, t.goodMatch, t.maxChain);
    var chain := Chain(d.prev, cur, LimitOf(d.strstart, MaxDist(c)), n);
    k := Look(k0.seen, k0.ins, k0.prior, Absolute(d.base, chain), if len > k0.prior then len else k0.prior,
              if len > k0.prior then d.base + start else 0);
    LookMade(c, t, d, k, cur, len, start, i);
  }
}
