/** Why deflate_fast and deflate_slow send what they send: for every token which strings were compared with the
    one at its place, and what came of it. */
module Choices {
  import opened BitStreams
  import opened Tokens
  import opened Hashing
  import opened Lz77
  import opened LzWindow
  import opened LongestMatch

  /** max_lazy_match, good_match, nice_match, max_chain_length and the strategy Z_FILTERED. */
  datatype Tuning = Tuning(maxLazy: nat, goodMatch: nat, niceMatch: nat, maxChain: nat, filtered: bool)

  /** A search for a match: the input read by then, the positions of the strings in the dictionary, the length to
      beat, the strings looked at, and the longest match found, if it is longer than prior. */
  datatype Look = Look(seen: seq<byte>, ins: set<nat>, prior: nat, strings: seq<nat>, best: nat, at: nat)

  /** The strings at q and at p agree in more than n bytes of a possible match. */
  ghost predicate Agree(seen: seq<byte>, q: nat, p: nat, n: nat)
  {
    q < p && n < 258 && p + n < |seen| && seen[q..q + n + 1] == seen[p..p + n + 1]
  }

  ghost predicate NoneAgree(seen: seq<byte>, p: nat, qs: seq<nat>, n: nat)
  {
    forall i :: 0 <= i < |qs| ==> !Agree(seen, qs[i], p, n)
  }

  /** A string in the dictionary, other than the first of the input, with the hash of the one at p. */
  ghost predicate Kin(c: Cfg, p: nat, k: Look, q: nat)
    requires p + 3 <= |k.seen|
  {
    0 < q < p && q in k.ins && HashAt(c, k.seen, q) == HashAt(c, k.seen, p)
  }

  /** The strings looked at are the n latest in reach. */
  ghost predicate Latest(c: Cfg, p: nat, k: Look, n: nat)
  {
    if p + 3 > |k.seen| then k.strings == []
    else
      && |k.strings| <= n && (forall i :: 0 <= i < |k.strings| ==> KinInReach(c, p, k, k.strings[i]))
      && (forall i, j :: 0 <= i < j < |k.strings| ==> k.strings[i] > k.strings[j])
      && forall q: nat :: Kin(c, p, k, q) && p - q < c.W - 262 ==> q in k.strings || PastLast(k, n, q)
  }

  ghost predicate KinInReach(c: Cfg, p: nat, k: Look, q: nat)
    requires p + 3 <= |k.seen|
  {
    Kin(c, p, k, q) && p - q <= c.W - 262
  }

  /** n later strings were looked at. */
  ghost predicate PastLast(k: Look, n: nat, q: nat)
  {
    |k.strings| == n > 0 && q < k.strings[n - 1]
  }

  /** The match found is the nearest of its length. */
  ghost predicate Nearest(p: nat, k: Look)
  {
    && k.at < p && k.best >= 1 && p + k.best <= |k.seen| && k.seen[k.at..k.at + k.best] == k.seen[p..p + k.best]
    && exists i :: 0 <= i < |k.strings| && k.strings[i] == k.at && NoneAgree(k.seen, p, k.strings[..i], k.best - 1)
  }

  /** The search at p was made as it should, and unless the match found is nice enough there is no longer one
      among the strings looked at. */
  ghost predicate LookOk(c: Cfg, t: Tuning, p: nat, k: Look)
  {
    && p < |k.seen| && 2 <= k.prior <= k.best <= 258 && (forall q :: q in k.ins ==> q < p)
    && (if k.prior >= t.maxLazy then k.strings == []
        else Latest(c, p, k, if k.prior >= t.goodMatch then t.maxChain / 4 else t.maxChain))
    && (k.best > k.prior ==> Nearest(p, k))
    && (k.best == k.prior || k.best < Min(t.niceMatch, |k.seen| - p) ==> NoneAgree(k.seen, p, k.strings, k.best))
  }

  /** deflate.c, lines 1970-1981: short matches are not worth it for filtered data, nor are the shortest from afar. */
  predicate Discarded(t: Tuning, p: nat, k: Look)
  {
    k.best <= 5 && (t.filtered || (k.best == 3 && p - k.at > 4096))
  }

  /** The length that is kept, 2 for none. */
  function Found(t: Tuning, p: nat, k: Look): nat
  {
    if k.best > k.prior && !Discarded(t, p, k) then k.best else 2
  }

  datatype Later = Unseen | Seen(look: Look)

  /** A token sent for the input at p, with the search there and, if it was made before the token was sent, the
      search at the next position. */
  datatype Sent = Sent(token: Token, p: nat, here: Look, later: Later)

  function Size(t: Token): nat
  {
    match t
    case Lit(_) => 1
    case Match(len, _) => len
  }

  function End(log: seq<Sent>): nat
  {
    if log == [] then 0 else log[|log| - 1].p + Size(log[|log| - 1].token)
  }

  /** The search at the end of the log has been made. */
  predicate Continues(log: seq<Sent>)
  {
    log != [] && log[|log| - 1].token.Lit? && log[|log| - 1].later.Seen?
  }

  /** The strings of a token are in the dictionary, unless there were fewer than three bytes of them. deflate_fast
      leaves out those inside a match that is long or comes near the end of the input. */
  ghost predicate Covered(t: Tuning, s: Sent, ins: set<nat>)
  {
    && (s.p in ins || s.p + 3 > |s.here.seen|)
    && (s.token.Match? && s.later.Seen? ==>
          forall q :: s.p < q < s.p + s.token.len ==> q in ins || q + 3 > |s.later.look.seen|)
    && (s.token.Match? && s.later.Unseen? && s.token.len <= t.maxLazy && s.p + s.token.len + 3 <= |s.here.seen| ==>
          forall q :: s.p < q < s.p + s.token.len ==> q in ins)
  }

  ghost predicate Reads(t: Tuning, log: seq<Sent>, ins: set<nat>)
  {
    forall i :: 0 <= i < |log| ==> Covered(t, log[i], ins)
  }

  /** The search that follows the log at p. */
  ghost predicate Follows(t: Tuning, log: seq<Sent>, k: Look, p: nat)
  {
    && p == End(log) && Reads(t, log, k.ins)
    && if Continues(log) then k == log[|log| - 1].later.look else k.prior == 2
  }

  /** deflate_slow sends a literal where no match was found, or a longer one at the next position; and a match
      where none longer was found at the next position. */
  ghost predicate SlowOk(c: Cfg, t: Tuning, s: Sent)
  {
    && LookOk(c, t, s.p, s.here)
    && (s.later.Seen? ==>
          LookOk(c, t, s.p + 1, s.later.look) && s.later.look.prior == Found(t, s.p, s.here))
    && match s.token
       case Lit(b) =>
         && b == s.here.seen[s.p]
         && if Found(t, s.p, s.here) == 2 then s.here.prior == 2
            else s.later.Seen? && Found(t, s.p + 1, s.later.look) > Found(t, s.p, s.here)
       case Match(len, dist) =>
         && len == Found(t, s.p, s.here) >= 3 && dist == s.p - s.here.at
         && s.later.Seen? && Found(t, s.p + 1, s.later.look) == 2
  }

  /** deflate_fast sends a match where it finds one. */
  ghost predicate FastOk(c: Cfg, t: Tuning, s: Sent)
  {
    && LookOk(c, t, s.p, s.here) && s.here.prior == 2 && s.later.Unseen?
    && match s.token
       case Lit(b) => b == s.here.seen[s.p] && s.here.best == 2
       case Match(len, dist) => len == s.here.best >= 3 && dist == s.p - s.here.at
  }

  /** All the tokens so far. */
  ghost predicate Log(c: Cfg, t: Tuning, fast: bool, log: seq<Sent>)
    decreases |log|
  {
    log == [] ||
    (var n := |log| - 1;
     && Log(c, t, fast, log[..n]) && (if fast then FastOk(c, t, log[n]) else SlowOk(c, t, log[n]))
     && Follows(t, log[..n], log[n].here, log[n].p))
  }

  /** What was seen is the beginning of the input. */
  ghost predicate SeenIn(total: seq<byte>, log: seq<Sent>)
  {
    forall i :: 0 <= i < |log| ==>
      log[i].here.seen <= total && (log[i].later.Seen? ==> log[i].later.look.seen <= total)
  }

  /** The last tokens of the log. */
  ghost predicate Recent(log: seq<Sent>, toks: seq<Token>)
  {
    |toks| <= |log| && forall i :: 0 <= i < |toks| ==> toks[i] == log[|log| - |toks| + i].token
  }

  lemma RecentNext(log: seq<Sent>, toks: seq<Token>, s: Sent)
    requires Recent(log, toks)
    ensures Recent(log + [s], toks + [s.token])
  {
  }

  /** Between two turns of deflate_slow: one more position has been searched if a literal or match is waiting. */
  ghost predicate Keeps(c: Cfg, t: Tuning, total: seq<byte>, log: seq<Sent>, k: Look, avail: bool, mlen: nat, mat: int,
                        pos: nat, ins: set<nat>)
  {
    && Log(c, t, false, log) && SeenIn(total, log) && Reads(t, log, ins)
    && if avail then
         && pos >= 1 && LookOk(c, t, pos - 1, k) && k.seen <= total && Follows(t, log, k, pos - 1)
         && (pos - 1 in ins || pos + 2 > |k.seen|) && mlen == Found(t, pos - 1, k)
         && (mlen >= 3 ==> mat == k.at) && (mlen == 2 ==> k.prior == 2)
       else End(log) == pos && !Continues(log) && mlen == 2
  }

  lemma KeepsGrows(c: Cfg, t: Tuning, total: seq<byte>, log: seq<Sent>, k: Look, avail: bool, mlen: nat, mat: int,
                   pos: nat, ins: set<nat>, total': seq<byte>, ins': set<nat>)
    requires Keeps(c, t, total, log, k, avail, mlen, mat, pos, ins) && total <= total' && ins <= ins'
    ensures Keeps(c, t, total', log, k, avail, mlen, mat, pos, ins')
  {
    hide LookOk, Log, Follows;
    ReadsMore(t, log, ins, ins');
    SeenMore(total, total', log);
  }

  lemma ReadsMore(t: Tuning, log: seq<Sent>, ins: set<nat>, ins': set<nat>)
    requires Reads(t, log, ins) && ins <= ins'
    ensures Reads(t, log, ins')
  {
    forall i | 0 <= i < |log| ensures Covered(t, log[i], ins') {
      assert Covered(t, log[i], ins);
    }
  }

  lemma SeenMore(total: seq<byte>, total': seq<byte>, log: seq<Sent>)
    requires SeenIn(total, log) && total <= total'
    ensures SeenIn(total', log)
  {
  }

  lemma ReadsNext(t: Tuning, log: seq<Sent>, s: Sent, ins: set<nat>)
    requires Reads(t, log, ins) && Covered(t, s, ins)
    ensures Reads(t, log + [s], ins)
  {
    hide Covered;
  }

  lemma SeenNext(total: seq<byte>, log: seq<Sent>, s: Sent)
    requires SeenIn(total, log) && s.here.seen <= total && (s.later.Seen? ==> s.later.look.seen <= total)
    ensures SeenIn(total, log + [s])
  {
  }

  lemma LogNext(c: Cfg, t: Tuning, fast: bool, log: seq<Sent>, s: Sent)
    requires Log(c, t, fast, log) && (if fast then FastOk(c, t, s) else SlowOk(c, t, s)) && Follows(t, log, s.here, s.p)
    ensures Log(c, t, fast, log + [s]) && End(log + [s]) == s.p + Size(s.token)
    ensures Continues(log + [s]) <==> s.token.Lit? && s.later.Seen?
  {
    hide FastOk, SlowOk, Follows;
    assert (log + [s])[..|log|] == log;
  }

  /** Lines 2026-2032: nothing waits yet. */
  lemma KeepsWaiting(c: Cfg, t: Tuning, total: seq<byte>, log: seq<Sent>, k: Look, mlen: nat, mat: int, pos: nat,
                     ins: set<nat>, k': Look, mlen': nat, mat': int, ins': set<nat>)
    requires Keeps(c, t, total, log, k, false, mlen, mat, pos, ins)
    requires LookOk(c, t, pos, k') && k'.seen == total && k'.ins == ins && k'.prior == 2
    requires mlen' == Found(t, pos, k') && (mlen' >= 3 ==> mat' == k'.at)
    requires ins <= ins' && (pos in ins' || pos + 3 > |total|)
    ensures Keeps(c, t, total, log, k', true, mlen', mat', pos + 1, ins')
  {
    hide LookOk, Log;
    ReadsMore(t, log, ins, ins');
  }

  /** Lines 2013-2025: the byte before pos goes out. */
  lemma KeepsLit(c: Cfg, t: Tuning, total: seq<byte>, log: seq<Sent>, k: Look, mlen: nat, mat: int, pos: nat,
                 ins: set<nat>, k': Look, mlen': nat, mat': int, ins': set<nat>)
    requires Keeps(c, t, total, log, k, true, mlen, mat, pos, ins)
    requires LookOk(c, t, pos, k') && k'.seen == total && k'.ins == ins && k'.prior == mlen
    requires mlen' == Found(t, pos, k') && (mlen' >= 3 ==> mat' == k'.at) && (mlen == 2 || mlen' > mlen)
    requires ins <= ins' && (pos in ins' || pos + 3 > |total|)
    ensures 1 <= pos <= |total|
    ensures var s := Sent(Lit(total[pos - 1]), pos - 1, k, Seen(k'));
      Keeps(c, t, total, log + [s], k', true, mlen', mat', pos + 1, ins')
  {
    hide Log, Covered, LookOk;
    LookByte(c, t, total, pos - 1, k);
    FoundRange(c, t, pos - 1, k);
    var s := Sent(Lit(total[pos - 1]), pos - 1, k, Seen(k'));
    assert (log + [s])[|log|] == s;
    LogNext(c, t, false, log, s);
    SeenNext(total, log, s);
    LitCovered(t, s, ins);
    ReadsNext(t, log, s, ins);
    ReadsMore(t, log + [s], ins, ins');
  }

  lemma FoundRange(c: Cfg, t: Tuning, p: nat, k: Look)
    requires LookOk(c, t, p, k)
    ensures Found(t, p, k) == 2 || (k.prior < Found(t, p, k) == k.best && 3 <= k.best <= 258)
  {
    hide Latest, Nearest, NoneAgree;
  }

  lemma LookByte(c: Cfg, t: Tuning, total: seq<byte>, p: nat, k: Look)
    requires LookOk(c, t, p, k) && k.seen <= total
    ensures p < |total| && p < |k.seen| && total[p] == k.seen[p]
  {
    hide Latest, Nearest, NoneAgree;
  }

  lemma LitCovered(t: Tuning, s: Sent, ins: set<nat>)
    requires s.token.Lit? && (s.p in ins || s.p + 3 > |s.here.seen|)
    ensures Covered(t, s, ins)
  {
  }

  /** Lines 1986-2009: the match before pos goes out. */
  lemma KeepsMatch(c: Cfg, t: Tuning, total: seq<byte>, log: seq<Sent>, k: Look, mlen: nat, mat: int, pos: nat,
                   ins: set<nat>, k': Look, k'': Look, mat': int, ins': set<nat>)
    requires Keeps(c, t, total, log, k, true, mlen, mat, pos, ins) && mlen >= 3
    requires LookOk(c, t, pos, k') && k'.seen == total && k'.prior == mlen && Found(t, pos, k') <= mlen
    requires ins <= ins' && forall q :: pos <= q < pos - 1 + mlen ==> q in ins' || q + 3 > |total|
    ensures pos >= 1 && mat < pos && mat >= 0
    ensures var s := Sent(Match(mlen, pos - 1 - mat), pos - 1, k, Seen(k'));
      Keeps(c, t, total, log + [s], k'', false, 2, mat', pos - 1 + mlen, ins')
  {
    hide Log, Covered, LookOk;
    FoundMatch(c, t, pos - 1, k);
    FoundLater(c, t, pos, k');
    var s := Sent(Match(mlen, pos - 1 - mat), pos - 1, k, Seen(k'));
    LogNext(c, t, false, log, s);
    SeenNext(total, log, s);
    MatchCovered(t, s, ins');
    ReadsMore(t, log, ins, ins');
    ReadsNext(t, log, s, ins');
  }

  lemma FoundMatch(c: Cfg, t: Tuning, p: nat, k: Look)
    requires LookOk(c, t, p, k) && Found(t, p, k) >= 3
    ensures k.at < p && k.best > k.prior && k.best == Found(t, p, k)
  {
    hide Latest, NoneAgree;
  }

  lemma FoundLater(c: Cfg, t: Tuning, p: nat, k: Look)
    requires LookOk(c, t, p, k) && Found(t, p, k) <= k.prior
    ensures Found(t, p, k) == 2
  {
    hide Latest, Nearest, NoneAgree;
  }

  lemma MatchCovered(t: Tuning, s: Sent, ins: set<nat>)
    requires s.token.Match? && s.later.Seen? && (s.p in ins || s.p + 3 > |s.here.seen|)
    requires forall q :: s.p < q < s.p + s.token.len ==> q in ins || q + 3 > |s.later.look.seen|
    ensures Covered(t, s, ins)
  {
  }

  /** Lines 2036-2040: the last byte of the input. */
  lemma KeepsLast(c: Cfg, t: Tuning, total: seq<byte>, log: seq<Sent>, k: Look, mat: int, pos: nat, ins: set<nat>)
    requires Keeps(c, t, total, log, k, true, 2, mat, pos, ins)
    ensures 1 <= pos <= |total|
    ensures var s := Sent(Lit(total[pos - 1]), pos - 1, k, Unseen);
      Keeps(c, t, total, log + [s], k, false, 2, mat, pos, ins)
  {
    hide Log, Covered, LookOk;
    LookByte(c, t, total, pos - 1, k);
    var s := Sent(Lit(total[pos - 1]), pos - 1, k, Unseen);
    LogNext(c, t, false, log, s);
    SeenNext(total, log, s);
    LitCovered(t, s, ins);
    ReadsNext(t, log, s, ins);
  }

  /** The length and start of a search, as the fields match_length and match_start hold them. */
  predicate Kept(t: Tuning, p: nat, k: Look, mlen: nat, mat: int)
  {
    if Found(t, p, k) > 2 then mlen == Found(t, p, k) && mat == k.at else mlen <= k.prior
  }

  lemma KeptIs(c: Cfg, t: Tuning, p: nat, k: Look, mlen: nat, mat: int)
    requires LookOk(c, t, p, k) && Kept(t, p, k, mlen, mat)
    ensures 2 <= k.prior && if mlen > k.prior then 3 <= mlen == Found(t, p, k) && mat == k.at else Found(t, p, k) == 2
  {
    hide LookOk;
    FoundRange(c, t, p, k);
    PriorRange(c, t, p, k);
  }

  lemma PriorRange(c: Cfg, t: Tuning, p: nat, k: Look)
    requires LookOk(c, t, p, k)
    ensures 2 <= k.prior <= k.best <= 258
  {
    hide Latest, Nearest, NoneAgree;
  }

  /** Between two turns of deflate_fast. */
  ghost predicate KeepsFast(c: Cfg, t: Tuning, total: seq<byte>, log: seq<Sent>, pos: nat, ins: set<nat>)
  {
    Log(c, t, true, log) && SeenIn(total, log) && Reads(t, log, ins) && End(log) == pos && !Continues(log)
  }

  lemma FastGrows(c: Cfg, t: Tuning, total: seq<byte>, log: seq<Sent>, pos: nat, ins: set<nat>, total': seq<byte>,
                  ins': set<nat>)
    requires KeepsFast(c, t, total, log, pos, ins) && total <= total' && ins <= ins'
    ensures KeepsFast(c, t, total', log, pos, ins')
  {
    hide Log;
    ReadsMore(t, log, ins, ins');
    SeenMore(total, total', log);
  }

  /** Lines 1902-1907. */
  lemma FastLit(c: Cfg, t: Tuning, total: seq<byte>, log: seq<Sent>, pos: nat, ins: set<nat>, k: Look, ins': set<nat>)
    requires KeepsFast(c, t, total, log, pos, ins)
    requires LookOk(c, t, pos, k) && k.seen == total && k.ins == ins && k.prior == k.best == 2
    requires ins <= ins' && (pos in ins' || pos + 3 > |total|)
    ensures pos < |total|
    ensures KeepsFast(c, t, total, log + [Sent(Lit(total[pos]), pos, k, Unseen)], pos + 1, ins')
  {
    hide Log, LookOk, Covered;
    LookByte(c, t, total, pos, k);
    var s := Sent(Lit(total[pos]), pos, k, Unseen);
    LogNext(c, t, true, log, s);
    SeenNext(total, log, s);
    LitCovered(t, s, ins');
    ReadsMore(t, log, ins, ins');
    ReadsNext(t, log, s, ins');
  }

  /** Lines 1864-1900. */
  lemma FastMatched(c: Cfg, t: Tuning, total: seq<byte>, log: seq<Sent>, pos: nat, ins: set<nat>, k: Look,
                    ins': set<nat>)
    requires KeepsFast(c, t, total, log, pos, ins)
    requires LookOk(c, t, pos, k) && k.seen == total && k.ins == ins && k.prior == 2 < k.best
    requires ins <= ins' && pos in ins'
    requires k.best <= t.maxLazy && pos + k.best + 3 <= |total| ==> forall q :: pos < q < pos + k.best ==> q in ins'
    ensures k.at < pos
    ensures KeepsFast(c, t, total, log + [Sent(Match(k.best, pos - k.at), pos, k, Unseen)], pos + k.best, ins')
  {
    hide Log, LookOk, Covered;
    NearestAt(c, t, pos, k);
    var s := Sent(Match(k.best, pos - k.at), pos, k, Unseen);
    LogNext(c, t, true, log, s);
    SeenNext(total, log, s);
    FastCovered(t, s, ins');
    ReadsMore(t, log, ins, ins');
    ReadsNext(t, log, s, ins');
  }

  lemma NearestAt(c: Cfg, t: Tuning, p: nat, k: Look)
    requires LookOk(c, t, p, k) && k.best > k.prior
    ensures k.at < p && Nearest(p, k)
  {
    hide Latest, NoneAgree;
  }

  lemma FastCovered(t: Tuning, s: Sent, ins: set<nat>)
    requires s.token.Match? && s.later.Unseen? && s.p in ins
    requires s.token.len <= t.maxLazy && s.p + s.token.len + 3 <= |s.here.seen| ==>
      forall q :: s.p < q < s.p + s.token.len ==> q in ins
    ensures Covered(t, s, ins)
  {
  }

  lemma KeepsEnd(c: Cfg, t: Tuning, total: seq<byte>, log: seq<Sent>, k: Look, mlen: nat, mat: int, pos: nat,
                 ins: set<nat>)
    requires Keeps(c, t, total, log, k, false, mlen, mat, pos, ins)
    ensures End(log) == pos
  {
  }

  lemma FastEnd(c: Cfg, t: Tuning, total: seq<byte>, log: seq<Sent>, pos: nat, ins: set<nat>)
    requires KeepsFast(c, t, total, log, pos, ins)
    ensures End(log) == pos
  {
  }

  /** The search at pos has been made, and the string there is in the dictionary. */
  ghost predicate Looked(c: Cfg, t: Tuning, total: seq<byte>, pos: nat, ins: set<nat>, k: Look, mlen: nat, mat: int)
  {
    && LookOk(c, t, pos, k) && k.seen == total && Kept(t, pos, k, mlen, mat)
    && k.ins <= ins && (pos in ins || pos + 3 > |total|)
  }

  lemma LookedNone(c: Cfg, t: Tuning, total: seq<byte>, pos: nat, ins: set<nat>, k: Look, mlen: nat, mat: int)
    requires Looked(c, t, total, pos, ins, k, mlen, mat) && mlen <= k.prior
    ensures LookOk(c, t, pos, k) && k.seen == total && Found(t, pos, k) == 2 <= k.prior && k.ins <= ins
    ensures pos in ins || pos + 3 > |total|
  {
    hide LookOk, Kept, Found;
    KeptIs(c, t, pos, k, mlen, mat);
  }

  lemma LookedFound(c: Cfg, t: Tuning, total: seq<byte>, pos: nat, ins: set<nat>, k: Look, mlen: nat, mat: int)
    requires Looked(c, t, total, pos, ins, k, mlen, mat) && 2 <= mlen && (k.prior < 3 || mlen > k.prior)
    ensures LookOk(c, t, pos, k) && k.seen == total && mlen == Found(t, pos, k) && k.ins <= ins
    ensures (mlen >= 3 ==> mat == k.at) && 2 <= k.prior && (k.prior == 2 || mlen > k.prior)
    ensures pos in ins || pos + 3 > |total|
  {
    hide LookOk, Kept, Found;
    KeptIs(c, t, pos, k, mlen, mat);
  }

  lemma KeepsLog(c: Cfg, t: Tuning, total: seq<byte>, log: seq<Sent>, k: Look, avail: bool, mlen: nat, mat: int,
                 pos: nat, ins: set<nat>)
    requires Keeps(c, t, total, log, k, avail, mlen, mat, pos, ins)
    ensures Log(c, t, false, log) && SeenIn(total, log)
  {
    hide Log, SeenIn;
  }

  lemma FastLog(c: Cfg, t: Tuning, total: seq<byte>, log: seq<Sent>, pos: nat, ins: set<nat>)
    requires KeepsFast(c, t, total, log, pos, ins)
    ensures Log(c, t, true, log) && SeenIn(total, log)
  {
    hide Log, SeenIn;
  }
}
