/** What the record of tokens says about the input: it stands for it, and every literal and every match in it has
    its reason. */
module Reasons {
  import opened BitStreams
  import opened Tokens
  import opened Hashing
  import opened Lz77
  import opened LongestMatch
  import opened Choices

  lemma {:induction false} LogAt(c: Cfg, t: Tuning, fast: bool, log: seq<Sent>, j: nat)
    requires Log(c, t, fast, log) && j < |log|
    ensures if fast then FastOk(c, t, log[j]) else SlowOk(c, t, log[j])
    ensures Follows(t, log[..j], log[j].here, log[j].p)
    decreases |log|
  {
    hide SlowOk, FastOk, Follows;
    var n := |log| - 1;
    if j < n {
      LogAt(c, t, fast, log[..n], j);
      assert log[..n][..j] == log[..j];
    }
  }

  lemma {:induction false} LogBegins(c: Cfg, t: Tuning, fast: bool, log: seq<Sent>, j: nat)
    requires Log(c, t, fast, log) && j <= |log|
    ensures Log(c, t, fast, log[..j])
    decreases |log|
  {
    hide SlowOk, FastOk, Follows;
    if j < |log| {
      LogBegins(c, t, fast, log[..|log| - 1], j);
      assert log[..|log| - 1][..j] == log[..j];
    } else {
      assert log[..j] == log;
    }
  }

  function TokensIn(log: seq<Sent>): (r: seq<Token>)
    ensures |r| == |log| && forall i :: 0 <= i < |log| ==> r[i] == log[i].token
  {
    seq(|log|, i requires 0 <= i < |log| => log[i].token)
  }

  /** A token stands for the input at its place. */
  lemma SentIsInput(c: Cfg, t: Tuning, fast: bool, total: seq<byte>, s: Sent)
    requires if fast then FastOk(c, t, s) else SlowOk(c, t, s)
    requires s.here.seen <= total
    ensures match s.token
      case Lit(b) => s.p < |total| && b == total[s.p]
      case Match(len, dist) => s.p + len <= |total| && 1 <= dist <= s.p && Equal(total, s.p - dist, s.p, len)
  {
    hide Latest, NoneAgree;
    var k := s.here;
    if s.token.Match? {
      SliceBegins(k.seen, total, k.at, k.best);
      SliceBegins(k.seen, total, s.p, k.best);
    }
  }

  lemma SliceBegins(s: seq<byte>, total: seq<byte>, a: nat, n: nat)
    requires s <= total && a + n <= |s|
    ensures total[a..a + n] == s[a..a + n]
  {
  }

  /** The tokens expand to the input that they were chosen for. */
  lemma {:induction false} LogExpands(c: Cfg, t: Tuning, fast: bool, log: seq<Sent>, total: seq<byte>)
    requires GoodCfg(c) && Log(c, t, fast, log) && SeenIn(total, log)
    ensures End(log) <= |total| && Expandable([], TokensIn(log)) && Expand([], TokensIn(log)) == total[..End(log)]
    decreases |log|
  {
    hide SlowOk, FastOk, Expandable, Expand, Reads;
    if log == [] {
      assert TokensIn(log) == [];
      NothingSent();
    } else {
      var n := |log| - 1;
      LogExpands(c, t, fast, log[..n], total);
      SentIsInput(c, t, fast, total, log[n]);
      TokenIsInput(c, total, log[n].p, [], TokensIn(log[..n]), log[n].token, End(log));
      assert TokensIn(log) == TokensIn(log[..n]) + [log[n].token];
    }
  }

  lemma NothingSent()
    ensures Expandable([], []) && Expand([], []) == []
  {
  }

  /** deflate_slow sends a literal only where no string looked at agrees in three bytes, or where the match found
      is not worth it, or where the next position has a longer match. */
  lemma LiteralReason(c: Cfg, t: Tuning, log: seq<Sent>, j: nat)
    requires Log(c, t, false, log) && j < |log| && log[j].token.Lit?
    ensures var s := log[j];
      && LookOk(c, t, s.p, s.here)
      && (|| (s.here.prior == 2 && NoneAgree(s.here.seen, s.p, s.here.strings, 2))
          || (s.here.prior == 2 < s.here.best && Nearest(s.p, s.here) && Discarded(t, s.p, s.here))
          || (&& s.later.Seen? && Nearest(s.p + 1, s.later.look)
              && s.later.look.best > Found(t, s.p, s.here) && !Discarded(t, s.p + 1, s.later.look)))
  {
    hide Follows, Latest, Nearest, NoneAgree;
    LogAt(c, t, false, log, j);
  }

  /** It sends a match only where none of the strings looked at is longer, unless it is nice, none nearer is as
      long, and the next position has no longer one that is worth it, unless the match is long enough not to
      look there. */
  lemma MatchReason(c: Cfg, t: Tuning, log: seq<Sent>, j: nat)
    requires Log(c, t, false, log) && j < |log| && log[j].token.Match?
    ensures var s := log[j];
      && LookOk(c, t, s.p, s.here) && Nearest(s.p, s.here) && !Discarded(t, s.p, s.here)
      && s.token == Match(s.here.best, s.p - s.here.at) && s.here.best > s.here.prior
      && (s.here.best >= Min(t.niceMatch, |s.here.seen| - s.p)
          || NoneAgree(s.here.seen, s.p, s.here.strings, s.here.best))
      && s.later.Seen? && LookOk(c, t, s.p + 1, s.later.look)
      && (|| s.here.best >= t.maxLazy || NoneAgree(s.later.look.seen, s.p + 1, s.later.look.strings, s.here.best)
          || (s.later.look.best > s.here.best && Discarded(t, s.p + 1, s.later.look)))
  {
    hide Follows, Latest, Nearest, NoneAgree;
    LogAt(c, t, false, log, j);
  }

  /** deflate_fast sends a literal only where no string looked at agrees in three bytes, and otherwise the nearest
      match of the greatest length, unless it is nice. */
  lemma FastReason(c: Cfg, t: Tuning, log: seq<Sent>, j: nat)
    requires Log(c, t, true, log) && j < |log|
    ensures var s := log[j];
      && LookOk(c, t, s.p, s.here) && s.here.prior == 2
      && match s.token
         case Lit(_) => NoneAgree(s.here.seen, s.p, s.here.strings, 2)
         case Match(len, dist) =>
           && Nearest(s.p, s.here) && len == s.here.best && dist == s.p - s.here.at
           && (len >= Min(t.niceMatch, |s.here.seen| - s.p) || NoneAgree(s.here.seen, s.p, s.here.strings, len))
  {
    hide Follows, Latest, Nearest, NoneAgree;
    LogAt(c, t, true, log, j);
  }

  /** Where the strings run out before the search does, it was a search of the whole dictionary. */
  lemma SearchedAll(c: Cfg, p: nat, k: Look, n: nat, m: nat, q: nat)
    requires Latest(c, p, k, n) && |k.strings| < n && NoneAgree(k.seen, p, k.strings, m) && m >= 2
    requires 0 < q < p && q in k.ins && p - q < c.W - 262
    ensures !Agree(k.seen, q, p, m)
  {
    hide Hash3, Agree;
    if p + 3 <= |k.seen| && Kin(c, p, k, q) {
      assert q in k.strings;
      NoneAgreeOf(k.seen, p, k.strings, m, q);
    } else if Agree(k.seen, q, p, m) {
      AgreeHash(c, k.seen, q, p, m);
      assert false;
    }
  }

  lemma NoneAgreeOf(seen: seq<byte>, p: nat, qs: seq<nat>, n: nat, q: nat)
    requires NoneAgree(seen, p, qs, n) && q in qs
    ensures !Agree(seen, q, p, n)
  {
    hide Agree;
  }

  lemma AgreeHash(c: Cfg, seen: seq<byte>, q: nat, p: nat, m: nat)
    requires Agree(seen, q, p, m) && m >= 2
    ensures p + 3 <= |seen| && HashAt(c, seen, q) == HashAt(c, seen, p)
  {
    hide Hash3;
    assert seen[q..q + m + 1][0] == seen[p..p + m + 1][0];
    assert seen[q..q + m + 1][1] == seen[p..p + m + 1][1];
    assert seen[q..q + m + 1][2] == seen[p..p + m + 1][2];
  }

  /** Every position of the input belongs to one token. */
  lemma {:induction false} TokenAt(c: Cfg, t: Tuning, fast: bool, log: seq<Sent>, q: nat) returns (i: nat)
    requires Log(c, t, fast, log) && q < End(log)
    ensures i < |log| && log[i].p <= q < log[i].p + Size(log[i].token)
    decreases |log|
  {
    hide SlowOk, FastOk, Reads;
    var n := |log| - 1;
    if q < log[n].p {
      i := TokenAt(c, t, fast, log[..n], q);
    } else {
      i := n;
    }
  }

  /** The input that had been read when deflate_slow came past q. */
  function ReadAt(s: Sent, q: nat): seq<byte>
  {
    if q > s.p && s.later.Seen? then s.later.look.seen else s.here.seen
  }

  /** In terms of the input alone: where deflate_slow sends a literal for want of a match, and has not stopped
      searching early, no string that began less than W - 262 bytes before it agrees in three bytes, unless fewer
      than three bytes of that string had been read when it was passed. */
  lemma NoMatchMissed(c: Cfg, t: Tuning, log: seq<Sent>, j: nat, q: nat) returns (i: nat)
    requires Log(c, t, false, log) && j < |log| && log[j].token.Lit? && log[j].here.best == 2 < t.maxLazy
    requires |log[j].here.strings| < if 2 >= t.goodMatch then t.maxChain / 4 else t.maxChain
    requires 0 < q < log[j].p && log[j].p - q < c.W - 262
    ensures i < j && log[i].p <= q < log[i].p + Size(log[i].token)
    ensures !Agree(log[j].here.seen, q, log[j].p, 2) || q + 3 > |ReadAt(log[i], q)|
  {
    hide Log, Latest, Agree, Nearest;
    var s := log[j];
    LogAt(c, t, false, log, j);
    LogBegins(c, t, false, log, j);
    i := TokenAt(c, t, false, log[..j], q);
    SlowLooks(c, t, s);
    assert Covered(t, log[..j][i], s.here.ins);
    LogAt(c, t, false, log, i);
    MatchLater(c, t, log[i]);
    if q in s.here.ins {
      SearchedAll(c, s.p, s.here, if 2 >= t.goodMatch then t.maxChain / 4 else t.maxChain, 2, q);
    }
  }

  lemma SlowLooks(c: Cfg, t: Tuning, s: Sent)
    requires SlowOk(c, t, s) && s.token.Lit? && s.here.best == 2 < t.maxLazy
    ensures s.here.prior == 2 && NoneAgree(s.here.seen, s.p, s.here.strings, 2)
    ensures Latest(c, s.p, s.here, if 2 >= t.goodMatch then t.maxChain / 4 else t.maxChain)
  {
    hide Latest, Nearest, NoneAgree;
  }

  lemma MatchLater(c: Cfg, t: Tuning, s: Sent)
    requires SlowOk(c, t, s)
    ensures s.token.Match? ==> s.later.Seen?
  {
    hide LookOk;
  }
}
