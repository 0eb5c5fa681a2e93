/** The dictionary of deflate.c on values: the sliding window, the hash chains and matches,
    all measured against the whole input so far. */
module Lz77 {
  import opened Powers
  import opened Bits
  import opened BitStreams
  import opened Tokens
  import opened Hashing

  const MIN_LOOKAHEAD: nat := MAX_MATCH + MIN_MATCH + 1

  /** w_size, hash_shift and hash_bits. */
  datatype Cfg = Cfg(W: nat, shift: nat, hb: nat)

  predicate GoodCfg(c: Cfg)
  {
    c.W >= 512 && c.W <= 32768 && GoodHash(c.shift, c.hb)
  }

  function MaxDist(c: Cfg): nat
    requires GoodCfg(c)
  {
    c.W - MIN_LOOKAHEAD
  }

  /** The hash of the string at p. */
  function HashAt(c: Cfg, total: seq<byte>, p: nat): nat
    requires p + 3 <= |total|
  {
    Hash3(c.shift, c.hb, total[p], total[p + 1], total[p + 2])
  }

  /** The hash chains. Window index m stands for position base + m of the input; ins holds
      the positions inserted so far, top bounds their indices. An entry of prev means
      something for the inserted strings less than a window size below top. */
  datatype Chains = Chains(head: seq<nat>, prev: seq<nat>, base: nat, top: nat, ins: set<nat>)

  ghost predicate Inserted(total: seq<byte>, k: Chains)
  {
    forall p :: p in k.ins ==> p + 3 <= |total| && p <= k.base + k.top
  }

  /** m is 0, that is NIL, or an inserted string with hash h. */
  ghost predicate Linked(c: Cfg, total: seq<byte>, k: Chains, m: nat, h: nat)
    requires Inserted(total, k)
  {
    m == 0 || (k.base + m in k.ins && HashAt(c, total, k.base + m) == h)
  }

  ghost predicate HeadsOk(c: Cfg, total: seq<byte>, k: Chains)
    requires Inserted(total, k)
  {
    forall h :: 0 <= h < |k.head| ==> Linked(c, total, k, k.head[h], h)
  }

  /** The chain goes on from m to an earlier string with the same hash, or ends. */
  ghost predicate PrevOk(c: Cfg, total: seq<byte>, k: Chains, m: nat)
    requires Inserted(total, k) && k.base + m in k.ins && |k.prev| == c.W > 0
  {
    var n := k.prev[m % c.W];
    n == 0 || (n < m && Linked(c, total, k, n, HashAt(c, total, k.base + m)))
  }

  ghost predicate PrevsOk(c: Cfg, total: seq<byte>, k: Chains)
    requires Inserted(total, k) && |k.prev| == c.W > 0
  {
    forall m: nat :: 0 < m && k.base + m in k.ins && m + c.W > k.top ==> PrevOk(c, total, k, m)
  }

  /** The head is the latest string with its hash. */
  ghost predicate HeadsLast(c: Cfg, total: seq<byte>, k: Chains)
    requires Inserted(total, k) && |k.head| == Pow2(c.hb)
  {
    forall p: nat :: p in k.ins ==> LastAt(c, total, k, p)
  }

  ghost predicate LastAt(c: Cfg, total: seq<byte>, k: Chains, p: nat)
    requires Inserted(total, k) && |k.head| == Pow2(c.hb) && p in k.ins
  {
    HashRange(c, total, p);
    p <= k.base + k.head[HashAt(c, total, p)]
  }

  /** The chain passes over no string with the same hash. */
  ghost predicate NearestAt(c: Cfg, total: seq<byte>, k: Chains, m: nat)
    requires Inserted(total, k) && k.base + m in k.ins && |k.prev| == c.W > 0
  {
    forall p: nat :: p in k.ins && p < k.base + m && HashAt(c, total, p) == HashAt(c, total, k.base + m) ==>
      p <= k.base + k.prev[m % c.W]
  }

  ghost predicate PrevsNearest(c: Cfg, total: seq<byte>, k: Chains)
    requires Inserted(total, k) && |k.prev| == c.W > 0
  {
    forall m: nat :: 0 < m && k.base + m in k.ins && m + c.W > k.top ==> NearestAt(c, total, k, m)
  }

  ghost predicate Sound(c: Cfg, total: seq<byte>, k: Chains)
  {
    && GoodCfg(c) && |k.head| == Pow2(c.hb) && |k.prev| == c.W
    && Inserted(total, k) && HeadsOk(c, total, k) && PrevsOk(c, total, k)
  }

  /** Complete as far back as window index 1: index 0 stands for the end of a chain. */
  ghost predicate Whole(c: Cfg, total: seq<byte>, k: Chains)
    requires Sound(c, total, k)
  {
    HeadsLast(c, total, k) && PrevsNearest(c, total, k)
  }

  ghost predicate ChainsOk(c: Cfg, total: seq<byte>, k: Chains)
  {
    Sound(c, total, k) && Whole(c, total, k)
  }

  lemma SoundParts(c: Cfg, total: seq<byte>, k: Chains)
    requires Sound(c, total, k)
    ensures GoodCfg(c) && |k.head| == Pow2(c.hb) && |k.prev| == c.W && Inserted(total, k)
  {
  }

  lemma ModDiffers(m: nat, n: nat, w: nat)
    requires m < n < m + w
    ensures m % w != n % w
  {
    var a, b, q, r := m / w, n / w, m % w, n % w;
    DivMod(m, w);
    DivMod(n, w);
    if a < b {
      MulGap(w, a, b);
    } else if b < a {
      MulGap(w, b, a);
    }
  }

  lemma DivMod(x: nat, w: nat)
    requires w > 0
    ensures x == x % w + w * (x / w) && x % w < w
  {
  }

  lemma ModSame(m: nat, w: nat)
    requires w > 0
    ensures (m + w) % w == m % w
  {
    var q, r := m / w, m % w;
    DivMod(m, w);
    assert w * (q + 1) == w * q + w;
    DivModUnique(m + w, w, q + 1, r);
  }

  /** INSERT_STRING, lines 184-187, for a string not yet inserted. */
  function Insert(c: Cfg, k: Chains, str: nat, h: nat): Chains
    requires |k.prev| == c.W > 0 && h < |k.head|
  {
    var top := if str > k.top then str else k.top;
    Chains(k.head[h := str], k.prev[str % c.W := k.head[h]], k.base, top, k.ins + {k.base + str})
  }

  lemma InsertOk(c: Cfg, total: seq<byte>, k: Chains, str: nat)
    requires ChainsOk(c, total, k) && k.base + str + 3 <= |total| && k.top < str + c.W
    requires forall p :: p in k.ins ==> p < k.base + str
    ensures |k.prev| == c.W > 0 && HashAt(c, total, k.base + str) < |k.head|
    ensures ChainsOk(c, total, Insert(c, k, str, HashAt(c, total, k.base + str)))
  {
    hide Hash3, Sound, Whole, Insert;
    InsertSound(c, total, k, str);
    InsertWhole(c, total, k, str);
  }

  lemma InsertSound(c: Cfg, total: seq<byte>, k: Chains, str: nat)
    requires Sound(c, total, k) && k.base + str + 3 <= |total| && k.top < str + c.W
    requires forall p :: p in k.ins ==> p < k.base + str
    ensures |k.prev| == c.W > 0 && HashAt(c, total, k.base + str) < |k.head|
    ensures Sound(c, total, Insert(c, k, str, HashAt(c, total, k.base + str)))
  {
    hide Hash3;
    var p := k.base + str;
    HashRange(c, total, p);
    var h := HashAt(c, total, p);
    var k' := Insert(c, k, str, h);
    forall m: nat | 0 < m && k'.base + m in k'.ins && m + c.W > k'.top ensures PrevOk(c, total, k', m) {
      if m != str {
        ModDiffers(m, str, c.W);
        assert PrevOk(c, total, k, m);
      } else {
        assert Linked(c, total, k, k.head[h], h);
      }
    }
    forall g | 0 <= g < |k'.head| ensures Linked(c, total, k', k'.head[g], g) {
      assert g != h ==> Linked(c, total, k, k.head[g], g);
    }
  }

  /** The new string is the latest, and goes on to the latest before it. */
  lemma InsertWhole(c: Cfg, total: seq<byte>, k: Chains, str: nat)
    requires ChainsOk(c, total, k) && k.base + str + 3 <= |total| && k.top < str + c.W
    requires forall p :: p in k.ins ==> p < k.base + str
    requires |k.prev| == c.W > 0 && HashAt(c, total, k.base + str) < |k.head|
    requires Sound(c, total, Insert(c, k, str, HashAt(c, total, k.base + str)))
    ensures Whole(c, total, Insert(c, k, str, HashAt(c, total, k.base + str)))
  {
    hide Hash3, HeadsOk, PrevsOk;
    var h := HashAt(c, total, k.base + str);
    var k' := Insert(c, k, str, h);
    forall p: nat | p in k'.ins ensures LastAt(c, total, k', p) {
      HashRange(c, total, p);
      assert p != k.base + str ==> LastAt(c, total, k, p);
    }
    forall m: nat | 0 < m && k'.base + m in k'.ins && m + c.W > k'.top ensures NearestAt(c, total, k', m) {
      if m != str {
        ModDiffers(m, str, c.W);
        assert NearestAt(c, total, k, m);
      } else {
        forall p: nat | p in k.ins && HashAt(c, total, p) == h ensures p <= k.base + k.head[h] {
          assert LastAt(c, total, k, p);
        }
      }
    }
  }

  lemma HashRange(c: Cfg, total: seq<byte>, p: nat)
    requires p + 3 <= |total|
    ensures HashAt(c, total, p) < Pow2(c.hb)
  {
  }

  /** More input changes nothing. */
  lemma GrowOk(c: Cfg, total: seq<byte>, k: Chains, more: seq<byte>)
    requires ChainsOk(c, total, k)
    ensures ChainsOk(c, total + more, k)
  {
    hide Sound, Whole;
    GrowSound(c, total, k, more);
    GrowWhole(c, total, k, more);
  }

  lemma GrowSound(c: Cfg, total: seq<byte>, k: Chains, more: seq<byte>)
    requires Sound(c, total, k)
    ensures Sound(c, total + more, k)
  {
    hide Hash3, Pow2;
    forall h | 0 <= h < |k.head| ensures Linked(c, total + more, k, k.head[h], h) {
      assert Linked(c, total, k, k.head[h], h);
    }
    forall m: nat | 0 < m && k.base + m in k.ins && m + c.W > k.top ensures PrevOk(c, total + more, k, m) {
      assert PrevOk(c, total, k, m);
    }
  }

  lemma SameHash(c: Cfg, total: seq<byte>, more: seq<byte>, p: nat)
    requires p + 3 <= |total|
    ensures HashAt(c, total + more, p) == HashAt(c, total, p)
  {
    hide Hash3;
  }

  lemma GrowWhole(c: Cfg, total: seq<byte>, k: Chains, more: seq<byte>)
    requires ChainsOk(c, total, k) && Sound(c, total + more, k)
    ensures Whole(c, total + more, k)
  {
    hide Hash3, Pow2, HashAt, HeadsOk, PrevsOk;
    forall p: nat | p in k.ins ensures LastAt(c, total + more, k, p) {
      SameHash(c, total, more, p);
      assert LastAt(c, total, k, p);
    }
    forall m: nat | 0 < m && k.base + m in k.ins && m + c.W > k.top ensures NearestAt(c, total + more, k, m) {
      assert NearestAt(c, total, k, m);
      SameHash(c, total, more, k.base + m);
      forall p: nat | p in k.ins ensures HashAt(c, total + more, p) == HashAt(c, total, p) {
        SameHash(c, total, more, p);
      }
    }
  }

  /** Moving on leaves fewer entries to vouch for. */
  lemma AdvanceOk(c: Cfg, total: seq<byte>, k: Chains, top: nat)
    requires ChainsOk(c, total, k) && k.top <= top
    ensures ChainsOk(c, total, k.(top := top))
  {
    hide Sound, Whole;
    AdvanceSound(c, total, k, top);
    AdvanceWhole(c, total, k, top);
  }

  lemma AdvanceSound(c: Cfg, total: seq<byte>, k: Chains, top: nat)
    requires Sound(c, total, k) && k.top <= top
    ensures Sound(c, total, k.(top := top))
  {
    hide Hash3, Pow2;
    var k' := k.(top := top);
    forall h | 0 <= h < |k.head| ensures Linked(c, total, k', k.head[h], h) {
      assert Linked(c, total, k, k.head[h], h);
    }
    forall m: nat | 0 < m && k.base + m in k.ins && m + c.W > top ensures PrevOk(c, total, k', m) {
      assert PrevOk(c, total, k, m);
    }
  }

  lemma AdvanceWhole(c: Cfg, total: seq<byte>, k: Chains, top: nat)
    requires ChainsOk(c, total, k) && k.top <= top && Sound(c, total, k.(top := top))
    ensures Whole(c, total, k.(top := top))
  {
    hide HashAt, Pow2, HeadsOk, PrevsOk;
    var k' := k.(top := top);
    forall p: nat | p in k.ins ensures LastAt(c, total, k', p) {
      assert LastAt(c, total, k, p);
    }
    forall m: nat | 0 < m && k.base + m in k.ins && m + c.W > top ensures NearestAt(c, total, k', m) {
      assert NearestAt(c, total, k, m);
    }
  }

  /** slide_hash, lines 201-225: an index below the window size becomes NIL. */
  function Slid(m: nat, w: nat): nat
  {
    if m >= w then m - w else 0
  }

  ghost predicate SlidSeq(a: seq<nat>, a': seq<nat>, w: nat)
  {
    |a'| == |a| && forall i :: 0 <= i < |a| ==> a'[i] == Slid(a[i], w)
  }

  /** The chains after the window has slid. */
  ghost predicate SlidChains(c: Cfg, k: Chains, k': Chains)
  {
    && SlidSeq(k.head, k'.head, c.W) && SlidSeq(k.prev, k'.prev, c.W) && k.top >= c.W
    && k'.base == k.base + c.W && k'.top == k.top - c.W && k'.ins == k.ins
  }

  lemma SlideOk(c: Cfg, total: seq<byte>, k: Chains, k': Chains)
    requires ChainsOk(c, total, k) && SlidChains(c, k, k')
    ensures ChainsOk(c, total, k')
  {
    hide Sound, Whole, SlidChains;
    SlideSound(c, total, k, k');
    SlideLast(c, total, k, k');
    SlideNearest(c, total, k, k');
    WholeIs(c, total, k');
  }

  lemma WholeIs(c: Cfg, total: seq<byte>, k: Chains)
    requires Sound(c, total, k) && Inserted(total, k) && |k.head| == Pow2(c.hb) && |k.prev| == c.W > 0
    requires HeadsLast(c, total, k) && PrevsNearest(c, total, k)
    ensures Whole(c, total, k)
  {
    hide Sound, HeadsLast, PrevsNearest, Inserted, Pow2;
  }

  lemma SlideSound(c: Cfg, total: seq<byte>, k: Chains, k': Chains)
    requires Sound(c, total, k) && SlidChains(c, k, k')
    ensures Sound(c, total, k')
  {
    hide Hash3, Pow2;
    forall h | 0 <= h < |k'.head| ensures Linked(c, total, k', k'.head[h], h) {
      assert Linked(c, total, k, k.head[h], h);
    }
    forall m: nat | 0 < m && k'.base + m in k'.ins && m + c.W > k'.top ensures PrevOk(c, total, k', m) {
      ModSame(m, c.W);
      assert k.base + (m + c.W) == k'.base + m;
      assert PrevOk(c, total, k, m + c.W);
    }
  }

  lemma SlideLast(c: Cfg, total: seq<byte>, k: Chains, k': Chains)
    requires ChainsOk(c, total, k) && SlidChains(c, k, k') && Sound(c, total, k')
    ensures Inserted(total, k') && |k'.head| == Pow2(c.hb) && HeadsLast(c, total, k')
  {
    hide HashAt, Pow2, HeadsOk, PrevsOk, PrevsNearest;
    forall p: nat | p in k'.ins ensures LastAt(c, total, k', p) {
      HashRange(c, total, p);
      assert LastAt(c, total, k, p);
    }
  }

  /** An index that becomes 0 was no greater than the window size. */
  lemma SlideNearest(c: Cfg, total: seq<byte>, k: Chains, k': Chains)
    requires ChainsOk(c, total, k) && SlidChains(c, k, k') && Sound(c, total, k')
    ensures Inserted(total, k') && |k'.prev| == c.W > 0 && PrevsNearest(c, total, k')
  {
    hide HashAt, Pow2, HeadsOk, PrevsOk, HeadsLast;
    forall m: nat | 0 < m && k'.base + m in k'.ins && m + c.W > k'.top ensures NearestAt(c, total, k', m) {
      ModSame(m, c.W);
      assert k.base + (m + c.W) == k'.base + m;
      assert NearestAt(c, total, k, m + c.W);
    }
  }

  /** The len bytes at m and at q agree. */
  ghost predicate Equal(total: seq<byte>, m: nat, q: nat, len: nat)
  {
    m < q && q + len <= |total| && total[m..m + len] == total[q..q + len]
  }

  /** A match of len bytes at q. */
  ghost predicate MatchOk(c: Cfg, total: seq<byte>, m: nat, q: nat, len: nat)
    requires GoodCfg(c)
  {
    Equal(total, m, q, len) && q - m <= MaxDist(c) && len <= MAX_MATCH
  }

  /** Copying from where the match is gives the input. */
  lemma {:induction false} CopyIsInput(total: seq<byte>, m: nat, q: nat, len: nat)
    requires Equal(total, m, q, len)
    ensures CopyBack(total[..q], len, q - m) == total[..q + len]
    decreases len
  {
    if len > 0 {
      var out := total[..q];
      assert total[m..m + len][0] == total[q..q + len][0];
      assert out + [out[|out| - (q - m)]] == total[..q + 1];
      assert total[m + 1..m + len] == total[m..m + len][1..];
      assert total[q + 1..q + len] == total[q..q + len][1..];
      assert total[m + 1..m + 1 + (len - 1)] == total[q + 1..q + 1 + (len - 1)];
      CopyIsInput(total, m + 1, q + 1, len - 1);
    }
  }

  /** One more token takes the output one step along the input. */
  lemma TokenIsInput(c: Cfg, total: seq<byte>, done: nat, out: seq<byte>, ts: seq<Token>, t: Token, next: nat)
    requires GoodCfg(c) && Expandable(out, ts) && done <= next <= |total| && Expand(out, ts) == total[..done]
    requires match t
      case Lit(b) => next == done + 1 && b == total[done]
      case Match(len, dist) => next == done + len && 1 <= dist <= done && Equal(total, done - dist, done, len)
    ensures Expandable(out, ts + [t]) && Expand(out, ts + [t]) == total[..next]
  {
    hide CopyBack;
    match t {
      case Lit(b) => assert total[..done] + [b] == total[..next];
      case Match(len, dist) => CopyIsInput(total, done - dist, done, len);
    }
    OneToken(total[..done], t);
    ExpandConcat(out, ts, [t]);
  }

  lemma OneToken(out: seq<byte>, t: Token)
    requires t.Match? ==> 1 <= t.dist <= |out|
    ensures Expandable(out, [t]) && Expand(out, [t]) == ExpandOne(out, t)
  {
    hide CopyBack;
    var o := ExpandOne(out, t);
    assert [t][1..] == [];
    assert Expandable(o, []) && Expand(o, []) == o;
  }
}
