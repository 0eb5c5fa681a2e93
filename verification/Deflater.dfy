/** deflate.c: fill_window, deflate_fast and deflate_slow, from the input to the blocks. */
module Deflater {
  import opened Powers
  import opened BitStreams
  import opened Tokens
  import opened Hashing
  import opened Lz77
  import opened LzWindow
  import opened LongestMatch
  import opened Choices
  import opened ChainSearch
  import opened BitWriter
  import opened StreamSpec
  import opened BlockWriter
  import opened BlockFlush

  const TOO_FAR: nat := 4096

  /** block_state, lines 64-69. */
  datatype Result = NeedMore | BlockDone | FinishStarted | FinishDone

  /** The tokens since the last flush stand for the input between blockAbs and done. */
  ghost predicate SentOk(total: seq<byte>, blockAbs: int, done: int, toks: seq<Token>)
  {
    && 0 <= blockAbs <= done <= |total| && Expandable(total[..blockAbs], toks)
    && Expand(total[..blockAbs], toks) == total[..done]
  }

  lemma SentToken(c: Cfg, total: seq<byte>, blockAbs: int, done: int, toks: seq<Token>, t: Token, next: int)
    requires GoodCfg(c) && SentOk(total, blockAbs, done, toks) && done <= next <= |total|
    requires match t
      case Lit(b) => next == done + 1 && b == total[done]
      case Match(len, dist) => next == done + len && 1 <= dist <= done && Equal(total, done - dist, done, len)
    ensures SentOk(total, blockAbs, next, toks + [t])
  {
    hide Expandable, Expand, Equal;
    TokenIsInput(c, total, done, total[..blockAbs], toks, t, next);
  }

  lemma SentGrows(total: seq<byte>, blockAbs: int, done: int, toks: seq<Token>, more: seq<byte>)
    requires SentOk(total, blockAbs, done, toks)
    ensures SentOk(total + more, blockAbs, done, toks)
  {
    hide Expandable, Expand;
    assert (total + more)[..blockAbs] == total[..blockAbs] && (total + more)[..done] == total[..done];
  }

  lemma SentNothing(total: seq<byte>, done: nat)
    requires done <= |total|
    ensures SentOk(total, done, done, [])
  {
  }

  /** Matches have 3 to 258 bytes and reach back no further than MAX_DIST. */
  predicate Near(c: Cfg, ts: seq<Token>)
  {
    GoodCfg(c) && forall i :: 0 <= i < |ts| && ts[i].Match? ==>
      MIN_MATCH <= ts[i].len <= MAX_MATCH && 1 <= ts[i].dist <= MaxDist(c)
  }

  /** A match found one byte back, waiting for a better one. mstart may be negative after the
      window has slid; base + mstart is the position that counts. */
  ghost predicate PendingOk(c: Cfg, d: Dict, avail: bool, mlen: nat, mstart: int)
    requires GoodCfg(c)
  {
    && (avail ==> d.strstart >= 1) && 2 <= mlen <= MAX_MATCH
    && (mlen >= MIN_MATCH ==>
          avail && 0 <= d.base + mstart && Pos(d) >= 1 && MatchOk(c, d.total, d.base + mstart, Pos(d) - 1, mlen))
  }

  class Deflate {
    const cfg: Cfg
    const block: Block
    const maxLazy: nat
    const goodMatch: nat
    const niceMatch: nat
    const maxChain: nat
    const filtered: bool
    const fixed: bool
    var window: seq<byte>
    var head: seq<nat>
    var prev: seq<nat>
    var insH: nat
    var strstart: nat
    var lookahead: nat
    var insert: nat
    var matchLength: nat
    var matchStart: int
    var matchAvailable: bool
    var blockStart: int
    /** next_in[0 .. avail_in] */
    var input: seq<byte>
    ghost var base: nat
    ghost var total: seq<byte>
    ghost var ins: set<nat>
    /** All tokens so far and why they were chosen, and the search at the position that waits. */
    ghost var log: seq<Sent>
    ghost var look: Look

    ghost function D(): Dict
      reads this
    {
      Dict(window, head, prev, insH, strstart, insert, base, total, ins)
    }

    ghost function Tuned(): Tuning
    {
      Tuning(maxLazy, goodMatch, niceMatch, maxChain, filtered)
    }

    /** The configuration that deflateInit2_ and configuration_table give. */
    predicate Configured()
    {
      GoodCfg(cfg) && niceMatch <= MAX_MATCH && maxChain >= 4 && maxLazy >= MIN_MATCH && block.litBufsize >= 2
    }

    /** The dictionary between two turns of a loop. */
    ghost predicate Dictionary()
      reads this
    {
      && Configured() && Ready(cfg, D()) && lookahead == Ahead(D()) && strstart <= 2 * cfg.W - 4
      && SlidLate(cfg, D())
    }

    /** One of the bytes before strstart is still to be sent if matchAvailable. */
    ghost function Done(): int
      reads this
    {
      base + strstart - if matchAvailable then 1 else 0
    }

    /** The input up to done has been turned into tokens, and that before the block into bits. */
    ghost predicate Out(done: int)
      reads this`total, this`base, this`blockStart, this`log, block, block.w, block.l, block.d, block.bl
    {
      && block.Valid() && SentOk(total, base + blockStart, done, block.Toks()) && Near(cfg, block.Toks())
      && Recent(log, block.Toks())
      && Conveys(block.w.Written(), total[..base + blockStart], false, MaxDist(cfg))
    }

    /** There is room for one more token in the buffers; one place always stays free. */
    ghost predicate Room()
      reads block`lBuf
    {
      |block.lBuf| + 1 < block.litBufsize
    }

    /** The tokens so far were chosen as they should be. */
    ghost predicate Logged()
      reads this
    {
      Keeps(cfg, Tuned(), total, log, look, matchAvailable, matchLength, base + matchStart, base + strstart, ins)
    }

    ghost predicate Valid()
      reads this, block, block.w, block.l, block.d, block.bl
    {
      && Dictionary() && Out(Done()) && PendingOk(cfg, D(), matchAvailable, matchLength, matchStart) && Logged()
      && Room()
    }

    /** lm_init, lines 1194-1220. */
    constructor (cfg: Cfg, block: Block, maxLazy: nat, goodMatch: nat, niceMatch: nat, maxChain: nat, filtered: bool,
                 fixed: bool)
      requires GoodCfg(cfg) && niceMatch <= MAX_MATCH && maxChain >= 4 && maxLazy >= MIN_MATCH && block.litBufsize >= 2
      requires block.Valid() && block.lBuf == [] && block.Toks() == [] && block.w.Written() == []
      ensures Valid() && FastValid() && total == [] && input == [] && this.block == block && this.cfg == cfg
    {
      hide Ready, Conveys, SentOk, PendingOk, Block.Valid, Block.Toks, Writer.Written, Pow2, LookOk;
      this.cfg, this.block, this.maxLazy, this.goodMatch, this.niceMatch, this.maxChain :=
        cfg, block, maxLazy, goodMatch, niceMatch, maxChain;
      this.filtered, this.fixed := filtered, fixed;
      window := seq(2 * cfg.W, _ => 0);
      head := seq(Pow2(cfg.hb), _ => 0);
      prev := seq(cfg.W, _ => 0);
      insH, strstart, lookahead, insert := 0, 0, 0, 0;
      matchLength, matchStart, matchAvailable, blockStart := MIN_MATCH - 1, 0, false, 0;
      input := [];
      base, total, ins := 0, [], {};
      log, look := [], Look([], {}, 2, [], 2, 0);
      new;
      EmptyReady(cfg, D());
      ConveysNothing(MaxDist(cfg));
      SentNothing([], 0);
    }

    /** The state that deflate_fast or deflate_slow leaves. */
    ghost predicate Running(fast: bool)
      reads this, block, block.w, block.l, block.d, block.bl
    {
      if fast then FastValid() else Valid()
    }

    /** More input from the caller. */
    method Supply(data: seq<byte>, ghost fast: bool)
      requires Running(fast)
      modifies this`input
      ensures Running(fast) && input == old(input) + data
    {
      hide Ready, Conveys, SentOk, PendingOk, Block.Valid, Configured, Keeps, KeepsFast, Recent, SlidLate, Near;
      input := input + data;
    }

    /** slide_hash, lines 201-225. */
    method SlideHash()
      modifies this`head, this`prev
      ensures SlidSeq(old(head), head, cfg.W) && SlidSeq(old(prev), prev, cfg.W)
    {
      head := SlideAll(head, cfg.W);
      prev := SlideAll(prev, cfg.W);
    }

    /** Lines 1510-1518. */
    method SlideWindow()
      requires GoodCfg(cfg) && Base(cfg, D()) && lookahead == Ahead(D())
      modifies this`window, this`head, this`prev, this`strstart, this`matchStart, this`blockStart, this`base
      ensures Base(cfg, D()) && Ahead(D()) == old(Ahead(D())) && Pos(D()) == old(Pos(D()))
      ensures strstart < cfg.W + MaxDist(cfg) && (strstart == old(strstart) || strstart >= MaxDist(cfg))
      ensures base + matchStart == old(base + matchStart) && base + blockStart == old(base + blockStart)
    {
      hide ChainsOk, SlidSeq;
      if strstart >= cfg.W + MaxDist(cfg) {
        ghost var d := D();
        StartBound(cfg, d);
        var end: nat := strstart + lookahead;
        window := window[cfg.W..end] + window[end - cfg.W..];
        matchStart, strstart, blockStart := matchStart - cfg.W, strstart - cfg.W, blockStart - cfg.W;
        base := base + cfg.W;
        SlideHash();
        SlideBase(cfg, d, D());
      }
    }

    /** read_buf, lines 1164-1189. */
    method ReadBuf()
      requires GoodCfg(cfg) && Base(cfg, D()) && lookahead == Ahead(D())
      modifies this`window, this`lookahead, this`input, this`total
      ensures Base(cfg, D()) && lookahead == Ahead(D()) && total + input == old(total + input) && old(total) <= total
      ensures |total| - |old(total)| == Min(|old(input)|, 2 * cfg.W - strstart - old(lookahead))
    {
      hide ChainsOk;
      var end: nat := strstart + lookahead;
      var n: nat := if |input| > 2 * cfg.W - end then 2 * cfg.W - end else |input|;
      ghost var d := D();
      window := window[..end] + input[..n] + window[end + n..];
      assert window[..end + n] == d.window[..end] + input[..n];
      ReadBase(cfg, d, input[..n], window);
      lookahead := lookahead + n;
      total := total + input[..n];
      assert input == input[..n] + input[n..];
      input := input[n..];
    }

    /** Lines 1546-1552: one string of those left over. */
    method CatchOne()
      requires Catching(cfg, D()) && insert > 0
      modifies this`insH, this`insert, this`head, this`prev, this`ins
      ensures insert == old(insert) - 1 && old(ins) <= ins
      ensures if Ahead(D()) + insert < MIN_MATCH then Ready(cfg, D()) else Catching(cfg, D())
    {
      hide Base, Catching, Ready, Update, Primed, Hash3;
      CatchStep(cfg, D());
      CatchBound(cfg, D());
      var str: nat := strstart - insert;
      insH := Update(cfg.shift, cfg.hb, insH, window[str + 2]);
      prev := prev[str % cfg.W := head[insH]];
      head := head[insH := str];
      ins := ins + {base + str};
      insert := insert - 1;
    }

    /** Lines 1538-1556. */
    method CatchUp()
      requires GoodCfg(cfg) && Base(cfg, D()) && InsBelow(D(), Pos(D()) - insert) && lookahead == Ahead(D())
      modifies this`insH, this`insert, this`head, this`prev, this`ins
      ensures Ready(cfg, D()) && old(ins) <= ins
    {
      hide Base, Catching, Ready, Update, Primed, Hash3;
      if lookahead + insert >= MIN_MATCH {
        CatchStart(cfg, D());
        InsertBound(cfg, D());
        var str: nat := strstart - insert;
        insH := Update(cfg.shift, cfg.hb, window[str], window[str + 1]);
        while insert != 0
          invariant Catching(cfg, D()) && lookahead == Ahead(D()) && old(ins) <= ins
        {
          CatchOne();
          if lookahead + insert < MIN_MATCH {
            return;
          }
        }
        CatchEnd(cfg, D());
      } else {
        NotCatching(cfg, D());
      }
    }

    /** fill_window, lines 1482-1561: slides when the window is nearly full, and reads until there
        is enough lookahead or no input left. One turn of its loop always brings that about, since
        a read stops only at the end of the input or of the window. */
    method Refill()
      requires Configured() && Ready(cfg, D()) && lookahead == Ahead(D()) < MIN_LOOKAHEAD
      modifies this`window, this`head, this`prev, this`strstart, this`matchStart, this`blockStart, this`base
      modifies this`lookahead, this`input, this`total, this`insH, this`insert, this`ins
      ensures Ready(cfg, D()) && lookahead == Ahead(D())
      ensures total + input == old(total + input) && old(total) <= total && Pos(D()) == old(Pos(D()))
      ensures strstart < cfg.W + MaxDist(cfg) && (lookahead >= MIN_LOOKAHEAD || input == [])
      ensures base + blockStart == old(base + blockStart) && base + matchStart == old(base + matchStart)
      ensures (strstart == old(strstart) || strstart >= MaxDist(cfg)) && old(ins) <= ins
    {
      hide Ready, Base, InsBelow;
      ghost var d := D();
      ReadyParts(cfg, d);
      SlideWindow();
      SlideReady(cfg, d, D());
      if input != [] {
        ReadyParts(cfg, D());
        ghost var d1 := D();
        ReadBuf();
        BelowSame(d1, D());
        CatchUp();
      }
    }

    /** INSERT_STRING at strstart, lines 184-187: hashHead heads the chain of earlier strings. */
    method InsertString() returns (hashHead: nat)
      requires Ready(cfg, D()) && Ahead(D()) >= MIN_MATCH
      modifies this`insH, this`head, this`prev, this`ins
      ensures Placed(cfg, D()) && GoodCfg(cfg)
      ensures hashHead != 0 && strstart - hashHead <= MaxDist(cfg) ==> Candidate(cfg, D(), hashHead)
      ensures |prev| == cfg.W > 0 && hashHead == prev[strstart % cfg.W] && ins == old(ins) + {Pos(D())}
    {
      hide Ready, Placed, Update, Hash3, Candidate;
      ReadyParts(cfg, D());
      PlaceString(cfg, D());
      ghost var d := D();
      insH := Update(cfg.shift, cfg.hb, insH, window[strstart + 2]);
      hashHead := head[insH];
      prev := prev[strstart % cfg.W := hashHead];
      head := head[insH := strstart];
      ins := ins + {Pos(d)};
      HeadCandidate(cfg, D(), hashHead);
    }

    /** Lines 1951-1954 and 1848-1851. */
    method Place() returns (hashHead: nat)
      requires Ready(cfg, D()) && lookahead == Ahead(D())
      modifies this`insH, this`head, this`prev, this`ins
      ensures Placed(cfg, D()) && GoodCfg(cfg) && (hashHead != 0 ==> Ahead(D()) >= MIN_MATCH)
      ensures hashHead != 0 && strstart - hashHead <= MaxDist(cfg) ==> Candidate(cfg, D(), hashHead)
      ensures |prev| == cfg.W > 0 && (Ahead(D()) >= MIN_MATCH ==> hashHead == prev[strstart % cfg.W])
      ensures ins == if Ahead(D()) >= MIN_MATCH then old(ins) + {Pos(D())} else old(ins)
    {
      hide Ready, Placed, Candidate;
      ReadyParts(cfg, D());
      hashHead := 0;
      if lookahead >= MIN_MATCH {
        hashHead := InsertString();
      } else {
        PlaceNothing(cfg, D());
      }
    }

    /** _tr_tally_lit: true when the block is full. */
    method EmitLit(b: byte, ghost done: int, ghost s: Sent) returns (full: bool)
      requires GoodCfg(cfg) && Out(done) && 0 <= done < |total| && b == total[done] && s.token == Lit(b)
      requires Room()
      modifies this`log, block`dBuf, block`lBuf, block.l`fc, block.d`fc
      ensures Out(done + 1) && log == old(log) + [s] && (!full ==> Room())
    {
      hide SentOk, Conveys, Block.Valid, Block.Toks, Writer.Written, Recent;
      block.ValidParts();
      SentToken(cfg, total, base + blockStart, done, block.Toks(), TokenOf(0, b), done + 1);
      RecentNext(log, block.Toks(), s);
      full := block.Tally(0, b);
      log := log + [s];
    }

    /** _tr_tally_dist, for a match of len bytes dist back. */
    method EmitMatch(dist: nat, len: nat, ghost done: nat, ghost s: Sent) returns (full: bool)
      requires GoodCfg(cfg) && Out(done) && MIN_MATCH <= len && 1 <= dist <= done && s.token == Match(len, dist)
      requires Room()
      requires MatchOk(cfg, total, done - dist, done, len)
      modifies this`log, block`dBuf, block`lBuf, block.l`fc, block.d`fc
      ensures Out(done + len) && log == old(log) + [s] && (!full ==> Room())
    {
      hide SentOk, Conveys, Block.Valid, Block.Toks, Writer.Written, Equal, Recent;
      block.ValidParts();
      MatchRange(total, done - dist, done, len);
      SentToken(cfg, total, base + blockStart, done, block.Toks(), TokenOf(dist, len - 3), done + len);
      RecentNext(log, block.Toks(), s);
      full := block.Tally(dist, len - 3);
      log := log + [s];
    }

    /** FLUSH_BLOCK_ONLY, lines 1605-1614: the tokens so far become a block. */
    method FlushOnly(last: bool)
      requires GoodCfg(cfg) && Out(base + strstart) && Shown(cfg, D()) && strstart <= 2 * cfg.W - 4
      modifies this`blockStart, block`dBuf, block`lBuf, block.w, block.l, block.d, block.bl
      modifies block.l.heap, block.d.heap, block.bl.heap
      ensures !last ==> Out(base + strstart) && blockStart == strstart
      ensures last ==> block.Valid() && Delivers(block.w.Written(), total[..base + strstart], MaxDist(cfg))
      ensures last ==> block.w.Written() == BytesBits(block.w.pending)
      ensures block.lBuf == []
    {
      hide SentOk, Conveys, Block.Valid, Block.Toks, Writer.Written, Expandable, Expand, Delivers, BytesBits, Measured,
        Block.Holds, Least, PicksLeast, BlockIs;
      block.ValidParts();
      ghost var p: nat := base + strstart;
      SentParts(total, base + blockStart, p, block.Toks());
      var haveBuf := blockStart >= 0;
      var buf: seq<byte> := [];
      if haveBuf {
        buf := window[blockStart..strstart];
        SeenAt(cfg, D(), blockStart, strstart - blockStart);
        assert total[..p] == total[..base + blockStart] + buf;
      }
      var kind;
      ghost var opt, stat, sent, codes;
      kind, opt, stat, sent, codes := block.FlushBlock(buf, haveBuf, strstart - blockStart, last, fixed,
                                                total[..base + blockStart], MaxDist(cfg));
      blockStart := strstart;
      SentNothing(total, p);
    }

    /** Lines 1958-1982: looks for a match at strstart that is longer than the one before it. */
    method LazyMatch(hashHead: nat, ghost before: set<nat>) returns (prevLength: nat, prevMatch: int, ghost k: Look)
      requires Configured() && Placed(cfg, D()) && 1 <= lookahead == Ahead(D()) && strstart + MAX_MATCH < |window|
      requires 2 <= matchLength <= MAX_MATCH && (hashHead != 0 ==> Ahead(D()) >= MIN_MATCH) && SlidLate(cfg, D())
      requires hashHead != 0 && strstart - hashHead <= MaxDist(cfg) ==> Candidate(cfg, D(), hashHead)
      requires |prev| == cfg.W > 0 && (Ahead(D()) >= MIN_MATCH ==> hashHead == prev[strstart % cfg.W])
      requires ins == if Ahead(D()) >= MIN_MATCH then before + {Pos(D())} else before
      requires forall q :: q in before ==> q < Pos(D())
      modifies this`matchLength, this`matchStart
      ensures prevLength == old(matchLength) && prevMatch == old(matchStart) && 2 <= matchLength <= MAX_MATCH
      ensures matchLength > prevLength ==>
        0 <= base + matchStart && MatchOk(cfg, total, base + matchStart, Pos(D()), matchLength)
      ensures LookOk(cfg, Tuned(), Pos(D()), k) && k.seen == total && k.ins == before && k.prior == prevLength
      ensures Kept(Tuned(), Pos(D()), k, matchLength, base + matchStart)
    {
      hide Placed, Candidate, MatchOk, LookOk, Chain, NoneLonger, FirstOf, Searching, Absolute, Uncut, NoneInWindow;
      prevLength, prevMatch := matchLength, matchStart;
      matchLength := MIN_MATCH - 1;
      k := Look(total, before, prevLength, [], prevLength, 0);
      MakeSearching(cfg, D(), k);
      if hashHead != 0 && prevLength < maxLazy && strstart - hashHead <= MaxDist(cfg) {
        ghost var i;
        matchLength, matchStart, i := FindLongest(cfg, D(), window, prev, strstart, lookahead, hashHead, prevLength,
                                                  matchStart, goodMatch, niceMatch, maxChain);
        k := LookAt(cfg, Tuned(), D(), k, hashHead, matchLength, matchStart, i);
        if matchLength <= 5 && (filtered || (matchLength == MIN_MATCH && strstart - matchStart > TOO_FAR)) {
          matchLength := MIN_MATCH - 1;
        }
      } else {
        LookSkipped(cfg, Tuned(), D(), k, hashHead);
      }
    }

    /** strstart++ past a string that is in the dictionary. */
    method Forward()
      requires Placed(cfg, D()) && Ahead(D()) >= 1
      modifies this`strstart
      ensures Ready(cfg, D()) && strstart == old(strstart) + 1
    {
      hide Placed, Ready;
      MoveOn(cfg, D());
      strstart := strstart + 1;
    }

    /** Lines 2001-2009: inserts the strings inside a match that began at strstart - 1. */
    method InsertMatched(prevLength: nat, maxInsert: int)
      requires Placed(cfg, D()) && MIN_MATCH <= prevLength <= Ahead(D()) + 1
      requires maxInsert == strstart + Ahead(D()) - MIN_MATCH
      modifies this`strstart, this`insH, this`head, this`prev, this`ins
      ensures Ready(cfg, D()) && strstart == old(strstart) + prevLength - 1
      ensures old(ins) <= ins
      ensures forall q :: old(Pos(D())) < q < Pos(D()) ==> q in ins || q + 3 > |total|
    {
      hide Placed, Ready, Candidate;
      var n: nat := prevLength - 2;
      ghost var s0, a0 := strstart, Ahead(D());
      while n != 0
        invariant Placed(cfg, D()) && strstart == s0 + (prevLength - 2 - n) && n <= prevLength - 2
        invariant Ahead(D()) == a0 - (strstart - s0) && old(ins) <= ins
        invariant forall q :: base + s0 < q <= base + strstart ==> q in ins || q + 3 > |total|
      {
        Forward();
        if strstart <= maxInsert {
          var unused := InsertString();
        } else {
          PlaceNothing(cfg, D());
        }
        n := n - 1;
      }
      Forward();
    }

    /** Lines 1987-2009: the match before strstart is sent. */
    method SendPrevious(prevLength: nat, prevMatch: int, ghost s: Sent) returns (full: bool)
      requires GoodCfg(cfg) && Placed(cfg, D()) && lookahead == Ahead(D()) && Out(base + strstart - 1)
      requires prevLength >= MIN_MATCH && 0 <= base + prevMatch && strstart >= 1
      requires MatchOk(cfg, total, base + prevMatch, Pos(D()) - 1, prevLength)
      requires s.token == Match(prevLength, strstart - 1 - prevMatch) && Room()
      modifies this`strstart, this`insH, this`head, this`prev, this`ins, this`lookahead, this`matchAvailable
      modifies this`matchLength, this`log
      modifies block`dBuf, block`lBuf, block.l`fc, block.d`fc
      ensures Ready(cfg, D()) && lookahead == Ahead(D()) && strstart == old(strstart) + prevLength - 1
      ensures Out(base + strstart) && !matchAvailable && matchLength == MIN_MATCH - 1
      ensures log == old(log) + [s] && old(ins) <= ins && (!full ==> Room())
      ensures forall q :: old(Pos(D())) < q < Pos(D()) ==> q in ins || q + 3 > |total|
    {
      hide Placed, Ready, SentOk, Conveys, Block.Valid, Block.Toks, Writer.Written, Equal, Recent;
      MatchRange(total, base + prevMatch, base + strstart - 1, prevLength);
      var maxInsert := strstart + lookahead - MIN_MATCH;
      full := EmitMatch(strstart - 1 - prevMatch, prevLength, base + strstart - 1, s);
      lookahead := lookahead - (prevLength - 1);
      InsertMatched(prevLength, maxInsert);
      matchAvailable, matchLength := false, MIN_MATCH - 1;
    }

    /** FLUSH_BLOCK when the block is full. The result says that the caller's output space, which
        this model leaves open, ran out. */
    method FlushFull(full: bool) returns (leave: bool)
      requires GoodCfg(cfg) && Ready(cfg, D()) && Out(base + strstart) && strstart <= 2 * cfg.W - 4
      requires block.litBufsize >= 2 && (!full ==> Room())
      modifies this`blockStart, block`dBuf, block`lBuf, block.w, block.l, block.d, block.bl
      modifies block.l.heap, block.d.heap, block.bl.heap
      ensures Out(base + strstart) && Room()
    {
      hide Ready, Out, Shown;
      leave := false;
      if full {
        ReadyShown(cfg, D());
        FlushOnly(false);
        leave := *;
      }
    }

    /** Lines 1987-2011: the match before strstart is sent, and the block flushed if it is full. */
    method TurnMatch(prevLength: nat, prevMatch: int, ghost s: Sent) returns (leave: bool)
      requires GoodCfg(cfg) && Placed(cfg, D()) && lookahead == Ahead(D()) && Out(base + strstart - 1)
      requires MIN_MATCH <= prevLength && 0 <= base + prevMatch && strstart >= 1
      requires strstart + MIN_LOOKAHEAD <= 2 * cfg.W
      requires MatchOk(cfg, total, base + prevMatch, Pos(D()) - 1, prevLength)
      requires s.token == Match(prevLength, strstart - 1 - prevMatch) && Room() && block.litBufsize >= 2
      modifies this`strstart, this`insH, this`head, this`prev, this`ins, this`lookahead, this`matchAvailable
      modifies this`matchLength, this`log
      modifies this`blockStart, block`dBuf, block`lBuf, block.w, block.l, block.d, block.bl
      modifies block.l.heap, block.d.heap, block.bl.heap
      ensures Ready(cfg, D()) && lookahead == Ahead(D()) && strstart == old(strstart) + prevLength - 1
      ensures Out(base + strstart) && !matchAvailable && matchLength == MIN_MATCH - 1
      ensures log == old(log) + [s] && old(ins) <= ins && Room()
      ensures forall q :: old(Pos(D())) < q < Pos(D()) ==> q in ins || q + 3 > |total|
    {
      hide Placed, Ready, Out, Equal, Shown;
      var full := SendPrevious(prevLength, prevMatch, s);
      leave := FlushFull(full);
    }

    /** Lines 2018-2025: the byte before strstart is sent as it is. */
    method TurnLit(ghost s: Sent) returns (leave: bool)
      requires GoodCfg(cfg) && Placed(cfg, D()) && lookahead == Ahead(D()) >= 1 && Out(base + strstart - 1)
      requires strstart >= 1 && strstart + MIN_LOOKAHEAD <= 2 * cfg.W
      requires base + strstart <= |total| && s.token == Lit(total[base + strstart - 1])
      requires Room() && block.litBufsize >= 2
      modifies this`log, this`strstart, this`lookahead, this`blockStart, block`dBuf, block`lBuf, block.w, block.l
      modifies block.d, block.bl
      modifies block.l.heap, block.d.heap, block.bl.heap
      ensures Ready(cfg, D()) && lookahead == Ahead(D()) && strstart == old(strstart) + 1 && Out(base + strstart - 1)
      ensures log == old(log) + [s] && Room()
    {
      hide Placed, Ready, Out, Equal, Shown;
      PlacedShown(cfg, D());
      WindowAt(cfg, D(), strstart - 1);
      var full := EmitLit(window[strstart - 1], base + strstart - 1, s);
      if full {
        FlushOnly(false);
      }
      Forward();
      lookahead := lookahead - 1;
      leave := *;
    }

    /** Lines 1951-1982: puts the string at strstart into the dictionary and looks for a match. */
    method SlowLook() returns (prevLength: nat, prevMatch: int, ghost k: Look)
      requires Configured() && Ready(cfg, D()) && 1 <= lookahead == Ahead(D()) && strstart + MAX_MATCH < |window|
      requires 2 <= matchLength <= MAX_MATCH && SlidLate(cfg, D())
      modifies this`insH, this`head, this`prev, this`ins, this`matchLength, this`matchStart
      ensures Placed(cfg, D()) && prevLength == old(matchLength) && prevMatch == old(matchStart)
      ensures 2 <= matchLength <= MAX_MATCH
      ensures matchLength > prevLength ==>
        0 <= base + matchStart && MatchOk(cfg, total, base + matchStart, Pos(D()), matchLength)
      ensures k.ins == old(ins) && k.prior == prevLength
      ensures Looked(cfg, Tuned(), total, base + strstart, ins, k, matchLength, base + matchStart)
    {
      hide Placed, Ready, MatchOk, Candidate, LookOk, Kept, Base;
      ReadyParts(cfg, D());
      ghost var before := ins;
      BelowHere(D());
      var hashHead: nat := Place();
      prevLength, prevMatch, k := LazyMatch(hashHead, before);
    }

    /** Lines 1986-2011. */
    method DecideMatch(prevLength: nat, prevMatch: int, ghost k: Look) returns (leave: bool)
      requires GoodCfg(cfg) && Placed(cfg, D()) && lookahead == Ahead(D()) && strstart + MIN_LOOKAHEAD <= 2 * cfg.W
      requires Out(base + strstart - 1) && strstart >= 1 && matchAvailable && prevLength >= MIN_MATCH
      requires 0 <= base + prevMatch && MatchOk(cfg, total, base + prevMatch, Pos(D()) - 1, prevLength)
      requires Keeps(cfg, Tuned(), total, log, look, true, prevLength, base + prevMatch, Pos(D()), k.ins)
      requires Looked(cfg, Tuned(), total, Pos(D()), ins, k, matchLength, base + matchStart) && k.prior == prevLength
      requires matchLength <= prevLength && Room() && block.litBufsize >= 2
      modifies this`strstart, this`insH, this`head, this`prev, this`ins, this`lookahead, this`matchAvailable
      modifies this`matchLength, this`log
      modifies this`blockStart, block`dBuf, block`lBuf, block.w, block.l, block.d, block.bl
      modifies block.l.heap, block.d.heap, block.bl.heap
      ensures Ready(cfg, D()) && lookahead == Ahead(D()) && strstart == old(strstart) + prevLength - 1
      ensures Out(base + strstart) && !matchAvailable && matchLength == MIN_MATCH - 1
      ensures Logged() && old(log) <= log && Room()
    {
      hide Placed, Ready, Out, MatchOk, Keeps, LookOk, Kept, Looked, Shown;
      ghost var p, log0 := Pos(D()), log;
      MatchShort(cfg, total, base + prevMatch, base + strstart - 1, prevLength);
      LookedNone(cfg, Tuned(), total, p, ins, k, matchLength, base + matchStart);
      ghost var s := Sent(Match(prevLength, strstart - 1 - prevMatch), p - 1, look, Seen(k));
      leave := TurnMatch(prevLength, prevMatch, s);
      KeepsMatch(cfg, Tuned(), total, log0, look, prevLength, base + prevMatch, p, k.ins, k, look, base + matchStart,
                 ins);
    }

    /** Lines 2013-2025. */
    method DecideLit(prevLength: nat, prevMatch: int, ghost k: Look) returns (leave: bool)
      requires GoodCfg(cfg) && Placed(cfg, D()) && lookahead == Ahead(D()) >= 1 && strstart + MIN_LOOKAHEAD <= 2 * cfg.W
      requires Out(base + strstart - 1) && strstart >= 1 && matchAvailable
      requires Keeps(cfg, Tuned(), total, log, look, true, prevLength, base + prevMatch, Pos(D()), k.ins)
      requires Looked(cfg, Tuned(), total, Pos(D()), ins, k, matchLength, base + matchStart) && k.prior == prevLength
      requires 2 <= matchLength && (prevLength < MIN_MATCH || matchLength > prevLength)
      requires Room() && block.litBufsize >= 2
      modifies this`log, this`look, this`strstart, this`lookahead, this`blockStart, block`dBuf, block`lBuf, block.w
      modifies block.l, block.d, block.bl
      modifies block.l.heap, block.d.heap, block.bl.heap
      ensures Ready(cfg, D()) && lookahead == Ahead(D()) && strstart == old(strstart) + 1 && Out(base + strstart - 1)
      ensures Logged() && old(log) <= log && Room()
    {
      hide Placed, Ready, Out, Keeps, LookOk, Kept, Looked, Shown, Found;
      ghost var p, log0 := Pos(D()), log;
      LookedFound(cfg, Tuned(), total, p, ins, k, matchLength, base + matchStart);
      KeepsLit(cfg, Tuned(), total, log0, look, prevLength, base + prevMatch, p, k.ins, k, matchLength,
               base + matchStart, ins);
      leave := TurnLit(Sent(Lit(total[p - 1]), p - 1, look, Seen(k)));
      look := k;
    }

    /** Lines 2026-2032. */
    method DecideLater(prevLength: nat, prevMatch: int, ghost k: Look)
      requires GoodCfg(cfg) && Placed(cfg, D()) && lookahead == Ahead(D()) >= 1 && !matchAvailable
      requires Keeps(cfg, Tuned(), total, log, look, false, prevLength, base + prevMatch, Pos(D()), k.ins)
      requires Looked(cfg, Tuned(), total, Pos(D()), ins, k, matchLength, base + matchStart) && k.prior == prevLength
      requires 2 <= matchLength && prevLength < MIN_MATCH
      modifies this`look, this`strstart, this`lookahead, this`matchAvailable
      ensures Ready(cfg, D()) && lookahead == Ahead(D()) && strstart == old(strstart) + 1 && matchAvailable
      ensures Logged()
    {
      hide Placed, Ready, Keeps, LookOk, Kept, Looked, Found;
      ghost var p := Pos(D());
      LookedFound(cfg, Tuned(), total, p, ins, k, matchLength, base + matchStart);
      KeepsWaiting(cfg, Tuned(), total, log, look, prevLength, base + prevMatch, p, k.ins, k, matchLength,
                   base + matchStart, ins);
      matchAvailable, look := true, k;
      Forward();
      lookahead := lookahead - 1;
    }

    /** Lines 1986-2033: the match before strstart, the byte before strstart, or nothing yet. */
    method Decide(prevLength: nat, prevMatch: int, ghost k: Look) returns (leave: bool)
      requires Configured() && Placed(cfg, D()) && lookahead == Ahead(D()) >= 1 && strstart + MIN_LOOKAHEAD <= 2 * cfg.W
      requires Out(Done()) && (matchAvailable ==> strstart >= 1) && 2 <= matchLength <= MAX_MATCH
      requires prevLength >= MIN_MATCH ==>
        matchAvailable && 0 <= base + prevMatch && MatchOk(cfg, total, base + prevMatch, Pos(D()) - 1, prevLength)
      requires matchLength > prevLength || (matchLength >= MIN_MATCH && prevLength < MIN_MATCH) ==>
        0 <= base + matchStart && MatchOk(cfg, total, base + matchStart, Pos(D()), matchLength)
      requires Keeps(cfg, Tuned(), total, log, look, matchAvailable, prevLength, base + prevMatch, Pos(D()), k.ins)
      requires Looked(cfg, Tuned(), total, Pos(D()), ins, k, matchLength, base + matchStart) && k.prior == prevLength
      requires Room()
      modifies this`strstart, this`insH, this`head, this`prev, this`ins, this`lookahead, this`matchAvailable
      modifies this`matchLength, this`log, this`look
      modifies this`blockStart, block`dBuf, block`lBuf, block.w, block.l, block.d, block.bl
      modifies block.l.heap, block.d.heap, block.bl.heap
      ensures Ready(cfg, D()) && lookahead == Ahead(D()) < old(lookahead) && strstart <= 2 * cfg.W - 4
      ensures Out(Done()) && PendingOk(cfg, D(), matchAvailable, matchLength, matchStart)
      ensures Logged() && strstart >= old(strstart) && old(log) <= log && Room()
    {
      hide Placed, Ready, Out, MatchOk, PendingOk, Keeps, Looked;
      leave := false;
      if prevLength >= MIN_MATCH && matchLength <= prevLength {
        MatchShort(cfg, total, base + prevMatch, base + strstart - 1, prevLength);
        leave := DecideMatch(prevLength, prevMatch, k);
      } else if matchAvailable {
        leave := DecideLit(prevLength, prevMatch, k);
      } else {
        DecideLater(prevLength, prevMatch, k);
      }
      MakePending(cfg, D(), matchAvailable, matchLength, matchStart);
    }

    /** Lines 1951-2033 of the loop in deflate_slow. */
    method SlowTurn() returns (leave: bool)
      requires Valid() && lookahead >= 1 && strstart + MIN_LOOKAHEAD <= 2 * cfg.W
      modifies this, block`dBuf, block`lBuf, block.w, block.l, block.d, block.bl
      modifies block.l.heap, block.d.heap, block.bl.heap
      ensures Valid() && total == old(total) && input == old(input) && lookahead < old(lookahead) && old(log) <= log
    {
      hide Placed, Ready, Out, MatchOk, PendingOk, Keeps, Looked, Base;
      ReadyParts(cfg, D());
      PendingParts(cfg, D(), matchAvailable, matchLength, matchStart);
      var prevLength: nat, prevMatch: int;
      ghost var k;
      prevLength, prevMatch, k := SlowLook();
      leave := Decide(prevLength, prevMatch, k);
    }

    /** Lines 2041 and 1910: everything read has been looked at. */
    method EndTurns()
      requires Configured() && Ready(cfg, D()) && lookahead == Ahead(D()) == 0 && strstart <= 2 * cfg.W - 4
      modifies this`insert
      ensures Ready(cfg, D())
    {
      hide Ready;
      SetInsert(cfg, D());
      insert := if strstart < MIN_MATCH - 1 then strstart else MIN_MATCH - 1;
    }

    /** Lines 2042-2048 and 1911-1917: the last block, or the block so far if there is anything in it. */
    method FinishBlock(finish: bool) returns (r: Result)
      requires Configured() && Ready(cfg, D()) && lookahead == Ahead(D()) == 0 && strstart <= 2 * cfg.W - 4
      requires Out(base + strstart)
      modifies this`blockStart, block`dBuf, block`lBuf, block.w, block.l, block.d, block.bl
      modifies block.l.heap, block.d.heap, block.bl.heap
      ensures finish <==> r == FinishStarted || r == FinishDone
      ensures !finish ==> Out(base + strstart) && Conveys(block.w.Written(), total, false, MaxDist(cfg)) && Room()
      ensures finish ==> Delivers(block.w.Written(), total, MaxDist(cfg))
      ensures finish ==> block.w.Written() == BytesBits(block.w.pending)
    {
      hide Ready, Shown, SentOk, Conveys, Delivers, Block.Valid, Block.Toks, Writer.Written, BytesBits;
      ReadyShown(cfg, D());
      assert total[..base + strstart] == total;
      var full: bool := *;
      if finish {
        FlushOnly(true);
        return if full then FinishStarted else FinishDone;
      }
      r := BlockDone;
      if block.lBuf != [] {
        FlushOnly(false);
        if full {
          r := NeedMore;
        }
      } else {
        block.ValidParts();
        block.ShapeParts();
        SentEmpty(total, base + blockStart, base + strstart, block.Toks(), block.dBuf, block.lBuf);
      }
    }

    /** deflate_slow, lines 1926-2049. Whatever was sent decodes to the input, and at the end of the
        input to all of it. */
    method DeflateSlow(noFlush: bool, finish: bool) returns (r: Result)
      requires Valid() && !(noFlush && finish)
      modifies this, block`dBuf, block`lBuf, block.w, block.l, block.d, block.bl
      modifies block.l.heap, block.d.heap, block.bl.heap
      ensures total + input == old(total + input)
      ensures r == NeedMore || r == BlockDone ==> Valid()
      ensures finish ==> r != BlockDone && (r == NeedMore ==> |input| + lookahead < old(|input| + lookahead))
      ensures r == BlockDone ==> input == [] && Conveys(block.w.Written(), total, false, MaxDist(cfg))
      ensures r == FinishStarted || r == FinishDone ==>
        finish && input == [] && Delivers(block.w.Written(), total, MaxDist(cfg))
      ensures r == FinishStarted || r == FinishDone ==> block.w.Written() == BytesBits(block.w.pending)
      ensures Logged() && old(log) <= log && (r != NeedMore ==> End(log) == |total|)
    {
      hide Ready, Out, Conveys, Delivers, PendingOk, Writer.Written, BytesBits, Block.Valid, Keeps;
      while true
        invariant Valid() && total + input == old(total + input) && |input| + lookahead <= old(|input| + lookahead)
        invariant old(log) <= log
        decreases |input| + lookahead
      {
        if lookahead < MIN_LOOKAHEAD {
          FillWindow();
          if lookahead < MIN_LOOKAHEAD && noFlush {
            return NeedMore;
          }
          if lookahead == 0 {
            break;
          }
        }
        ReadyParts(cfg, D());
        var leave := SlowTurn();
        if leave {
          return NeedMore;
        }
      }
      r := EndSlow(finish);
    }

    /** Lines 2036-2040: the last byte of the input, if it waits. */
    method SendLast()
      requires GoodCfg(cfg) && Ready(cfg, D()) && lookahead == Ahead(D()) == 0 && Out(Done())
      requires matchLength == MIN_MATCH - 1 && (matchAvailable ==> strstart >= 1) && Logged() && Room()
      modifies this`matchAvailable, this`log, block`dBuf, block`lBuf, block.l`fc, block.d`fc
      ensures !matchAvailable && Out(base + strstart) && Logged() && old(log) <= log
    {
      hide Ready, Out, Shown, Keeps;
      if matchAvailable {
        ReadyShown(cfg, D());
        WindowAt(cfg, D(), strstart - 1);
        KeepsLast(cfg, Tuned(), total, log, look, base + matchStart, base + strstart, ins);
        var full := EmitLit(window[strstart - 1], base + strstart - 1,
                            Sent(Lit(total[base + strstart - 1]), base + strstart - 1, look, Unseen));
        matchAvailable := false;
      }
    }

    /** Lines 2036-2048. */
    method EndSlow(finish: bool) returns (r: Result)
      requires Valid() && lookahead == 0
      modifies this`matchAvailable, this`insert, this`blockStart, block`dBuf, block`lBuf, block.w, block.l, block.d
      modifies this`log, block.bl
      modifies block.l.heap, block.d.heap, block.bl.heap
      ensures finish <==> r == FinishStarted || r == FinishDone
      ensures Logged() && End(log) == |total| && old(log) <= log
      ensures !finish ==> Valid() && Conveys(block.w.Written(), total, false, MaxDist(cfg))
      ensures finish ==> Delivers(block.w.Written(), total, MaxDist(cfg))
      ensures finish ==> block.w.Written() == BytesBits(block.w.pending)
    {
      hide Ready, Out, Conveys, Delivers, Writer.Written, BytesBits, Block.Valid, PendingOk, Shown, Keeps;
      NoneWaiting(cfg, D(), matchAvailable, matchLength, matchStart);
      SendLast();
      r := CloseSlow(finish);
    }

    /** Lines 2041-2048. */
    method CloseSlow(finish: bool) returns (r: Result)
      requires Dictionary() && lookahead == 0 && Out(base + strstart) && Logged() && !matchAvailable
      requires matchLength == MIN_MATCH - 1
      modifies this`insert, this`blockStart, block`dBuf, block`lBuf, block.w, block.l, block.d
      modifies block.bl
      modifies block.l.heap, block.d.heap, block.bl.heap
      ensures finish <==> r == FinishStarted || r == FinishDone
      ensures Logged() && End(log) == |total|
      ensures !finish ==> Valid() && Conveys(block.w.Written(), total, false, MaxDist(cfg))
      ensures finish ==> Delivers(block.w.Written(), total, MaxDist(cfg))
      ensures finish ==> block.w.Written() == BytesBits(block.w.pending)
    {
      hide Ready, Out, Conveys, Delivers, Writer.Written, BytesBits, Block.Valid, PendingOk, Shown, Keeps;
      KeepsEnd(cfg, Tuned(), total, log, look, matchLength, base + matchStart, base + strstart, ins);
      EndTurns();
      MakePending(cfg, D(), false, matchLength, matchStart);
      r := FinishBlock(finish);
    }

    /** Between two turns of deflate_fast nothing waits. */
    ghost predicate FastValid()
      reads this, block, block.w, block.l, block.d, block.bl
    {
      && Dictionary() && Out(base + strstart) && matchLength < MIN_MATCH && !matchAvailable && FastLogged()
      && Room()
    }

    ghost predicate FastLogged()
      reads this
    {
      KeepsFast(cfg, Tuned(), total, log, base + strstart, ins)
    }

    /** Lines 1856-1863. */
    method FastMatch(hashHead: nat, ghost before: set<nat>) returns (ghost k: Look)
      requires Configured() && Placed(cfg, D()) && 1 <= lookahead == Ahead(D()) && strstart + MAX_MATCH < |window|
      requires matchLength < MIN_MATCH && (hashHead != 0 ==> Ahead(D()) >= MIN_MATCH) && SlidLate(cfg, D())
      requires hashHead != 0 && strstart - hashHead <= MaxDist(cfg) ==> Candidate(cfg, D(), hashHead)
      requires |prev| == cfg.W > 0 && (Ahead(D()) >= MIN_MATCH ==> hashHead == prev[strstart % cfg.W])
      requires ins == if Ahead(D()) >= MIN_MATCH then before + {Pos(D())} else before
      requires forall q :: q in before ==> q < Pos(D())
      modifies this`matchLength, this`matchStart
      ensures matchLength <= lookahead || matchLength < MIN_MATCH
      ensures matchLength >= MIN_MATCH ==>
        && lookahead >= MIN_MATCH && 0 < matchStart < strstart
        && MatchOk(cfg, total, base + matchStart, Pos(D()), matchLength)
      ensures LookOk(cfg, Tuned(), Pos(D()), k) && k.seen == total && k.ins == before && k.prior == 2 <= k.best
      ensures if matchLength >= MIN_MATCH then k.best == matchLength && k.at == base + matchStart else k.best == 2
    {
      hide Placed, Candidate, MatchOk, LookOk, Chain, NoneLonger, FirstOf, Searching, Absolute, Uncut, NoneInWindow;
      k := Look(total, before, 2, [], 2, 0);
      MakeSearching(cfg, D(), k);
      if hashHead != 0 && strstart - hashHead <= MaxDist(cfg) {
        ghost var i;
        matchLength, matchStart, i := FindLongest(cfg, D(), window, prev, strstart, lookahead, hashHead, MIN_MATCH - 1,
                                                  matchStart, goodMatch, niceMatch, maxChain);
        k := LookAt(cfg, Tuned(), D(), k, hashHead, matchLength, matchStart, i);
      } else {
        LookSkipped(cfg, Tuned(), D(), k, hashHead);
      }
    }

    /** Lines 1878-1886: all strings of a short match go into the dictionary. */
    method InsertShort()
      requires Placed(cfg, D()) && matchLength >= MIN_MATCH && Ahead(D()) >= matchLength + MIN_MATCH
      modifies this`strstart, this`insH, this`head, this`prev, this`ins, this`matchLength
      ensures Ready(cfg, D()) && strstart == old(strstart) + old(matchLength) && matchLength == 0
      ensures old(ins) <= ins && forall q :: old(Pos(D())) < q < Pos(D()) ==> q in ins
    {
      hide Placed, Ready, Candidate;
      ghost var s0, a0 := strstart, Ahead(D());
      matchLength := matchLength - 1;
      while matchLength != 0
        invariant Placed(cfg, D()) && strstart == s0 + (old(matchLength) - 1 - matchLength)
        invariant matchLength < old(matchLength) && old(ins) <= ins
        invariant Ahead(D()) == a0 - (strstart - s0) && forall q :: base + s0 < q <= base + strstart ==> q in ins
      {
        Forward();
        var unused := InsertString();
        matchLength := matchLength - 1;
      }
      Forward();
    }

    /** Lines 1890-1893: a long match is passed over. */
    method SkipMatch()
      requires Configured() && Placed(cfg, D()) && MIN_MATCH <= matchLength <= Ahead(D())
      requires strstart + matchLength + 1 < |window|
      modifies this`strstart, this`insH, this`matchLength
      ensures Ready(cfg, D()) && strstart == old(strstart) + old(matchLength) && matchLength == 0
    {
      hide Placed, Ready, Update;
      NoInsert(cfg, D());
      ghost var d, n := D(), matchLength;
      strstart := strstart + matchLength;
      matchLength := 0;
      insH := Update(cfg.shift, cfg.hb, window[strstart], window[strstart + 1]);
      SkipOn(cfg, d, n, insH);
    }

    /** Lines 1878-1900: past a match, all of whose strings go into the dictionary if it is short. */
    method PassMatch()
      requires Configured() && Placed(cfg, D()) && MIN_MATCH <= matchLength <= MAX_MATCH
      requires lookahead == Ahead(D()) - matchLength && strstart + MIN_LOOKAHEAD <= 2 * cfg.W == |window|
      modifies this`strstart, this`insH, this`head, this`prev, this`ins, this`matchLength
      ensures Ready(cfg, D()) && strstart == old(strstart) + old(matchLength) && matchLength == 0 && old(ins) <= ins
      ensures old(matchLength) <= maxLazy && Pos(D()) + 3 <= |total| ==>
        forall q :: old(Pos(D())) < q < Pos(D()) ==> q in ins
    {
      hide Placed, Ready;
      if matchLength <= maxLazy && lookahead >= MIN_MATCH {
        InsertShort();
      } else {
        SkipMatch();
      }
    }

    /** Lines 1864-1900. */
    method FastSendMatch(ghost k: Look) returns (full: bool)
      requires Configured() && Placed(cfg, D()) && lookahead == Ahead(D()) && Out(base + strstart)
      requires strstart + MIN_LOOKAHEAD <= 2 * cfg.W == |window|
      requires MIN_MATCH <= matchLength <= lookahead && 0 < matchStart < strstart
      requires MatchOk(cfg, total, base + matchStart, Pos(D()), matchLength)
      requires KeepsFast(cfg, Tuned(), total, log, Pos(D()), k.ins)
      requires LookOk(cfg, Tuned(), Pos(D()), k) && k.seen == total && k.prior == 2 && k.best == matchLength
      requires k.at == base + matchStart && k.ins <= ins && (Pos(D()) in ins || Pos(D()) + 3 > |total|) && Room()
      modifies this`strstart, this`insH, this`head, this`prev, this`ins, this`matchLength, this`lookahead, this`log
      modifies block`dBuf, block`lBuf, block.l`fc, block.d`fc
      ensures Ready(cfg, D()) && lookahead == Ahead(D()) < old(lookahead) && Out(base + strstart)
      ensures strstart <= 2 * cfg.W - 4 && matchLength < MIN_MATCH && strstart >= old(strstart)
      ensures FastLogged() && old(log) <= log && (!full ==> Room())
    {
      hide Placed, Ready, Out, MatchOk, Shown, KeepsFast, LookOk;
      ghost var p, log0 := Pos(D()), log;
      MatchShort(cfg, total, base + matchStart, base + strstart, matchLength);
      full := EmitMatch(strstart - matchStart, matchLength, base + strstart,
                        Sent(Match(matchLength, strstart - matchStart), p, k, Unseen));
      lookahead := lookahead - matchLength;
      PassMatch();
      FastMatched(cfg, Tuned(), total, log0, p, k.ins, k, ins);
    }

    /** Lines 1902-1907. */
    method FastSendLit(ghost k: Look) returns (full: bool)
      requires GoodCfg(cfg) && Placed(cfg, D()) && lookahead == Ahead(D()) >= 1 && Out(base + strstart)
      requires KeepsFast(cfg, Tuned(), total, log, Pos(D()), k.ins)
      requires LookOk(cfg, Tuned(), Pos(D()), k) && k.seen == total && k.prior == 2 == k.best && Room()
      requires k.ins <= ins && (Pos(D()) in ins || Pos(D()) + 3 > |total|)
      modifies this`strstart, this`lookahead, this`log, block`dBuf, block`lBuf, block.l`fc, block.d`fc
      ensures Ready(cfg, D()) && lookahead == Ahead(D()) < old(lookahead) && Out(base + strstart)
      ensures strstart == old(strstart) + 1 && FastLogged() && old(log) <= log && (!full ==> Room())
    {
      hide Placed, Ready, Out, Shown, KeepsFast, LookOk;
      ghost var p := Pos(D());
      PlacedShown(cfg, D());
      WindowAt(cfg, D(), strstart);
      FastLit(cfg, Tuned(), total, log, p, k.ins, k, ins);
      full := EmitLit(window[strstart], base + strstart, Sent(Lit(total[p]), p, k, Unseen));
      lookahead := lookahead - 1;
      Forward();
    }

    /** Lines 1864-1907. */
    method FastSend(ghost k: Look) returns (full: bool)
      requires Configured() && Placed(cfg, D()) && lookahead == Ahead(D()) >= 1 && Out(base + strstart)
      requires strstart + MIN_LOOKAHEAD <= 2 * cfg.W == |window|
      requires matchLength >= MIN_MATCH ==>
        && matchLength <= lookahead && 0 < matchStart < strstart
        && MatchOk(cfg, total, base + matchStart, Pos(D()), matchLength)
      requires KeepsFast(cfg, Tuned(), total, log, Pos(D()), k.ins)
      requires LookOk(cfg, Tuned(), Pos(D()), k) && k.seen == total && k.prior == 2 <= k.best && Room()
      requires if matchLength >= MIN_MATCH then k.best == matchLength && k.at == base + matchStart else k.best == 2
      requires k.ins <= ins && (Pos(D()) in ins || Pos(D()) + 3 > |total|)
      modifies this`strstart, this`insH, this`head, this`prev, this`ins, this`matchLength, this`lookahead, this`log
      modifies block`dBuf, block`lBuf, block.l`fc, block.d`fc
      ensures Ready(cfg, D()) && lookahead == Ahead(D()) < old(lookahead) && Out(base + strstart)
      ensures strstart <= 2 * cfg.W - 4 && matchLength < MIN_MATCH && strstart >= old(strstart)
      ensures FastLogged() && old(log) <= log && (!full ==> Room())
    {
      hide Placed, Ready, Out, MatchOk, Shown, KeepsFast, LookOk;
      if matchLength >= MIN_MATCH {
        full := FastSendMatch(k);
      } else {
        full := FastSendLit(k);
      }
    }

    /** Lines 1848-1863. */
    method FastLook() returns (ghost k: Look)
      requires Configured() && Ready(cfg, D()) && 1 <= lookahead == Ahead(D()) && strstart + MAX_MATCH < |window|
      requires matchLength < MIN_MATCH && SlidLate(cfg, D())
      modifies this`insH, this`head, this`prev, this`ins, this`matchLength, this`matchStart
      ensures Placed(cfg, D()) && (matchLength <= lookahead || matchLength < MIN_MATCH)
      ensures matchLength >= MIN_MATCH ==>
        0 < matchStart < strstart && MatchOk(cfg, total, base + matchStart, Pos(D()), matchLength)
      ensures LookOk(cfg, Tuned(), Pos(D()), k) && k.seen == total && k.ins == old(ins) && k.prior == 2 <= k.best
      ensures if matchLength >= MIN_MATCH then k.best == matchLength && k.at == base + matchStart else k.best == 2
      ensures k.ins <= ins && (Pos(D()) in ins || Pos(D()) + 3 > |total|)
    {
      hide Placed, Ready, MatchOk, Candidate, LookOk, Base;
      ReadyParts(cfg, D());
      ghost var before := ins;
      BelowHere(D());
      var hashHead: nat := Place();
      k := FastMatch(hashHead, before);
    }

    /** Lines 1848-1908 of the loop in deflate_fast. */
    method FastTurn() returns (leave: bool)
      requires FastValid() && lookahead >= 1 && strstart + MIN_LOOKAHEAD <= 2 * cfg.W
      modifies this, block`dBuf, block`lBuf, block.w, block.l, block.d, block.bl
      modifies block.l.heap, block.d.heap, block.bl.heap
      ensures FastValid() && total == old(total) && input == old(input) && lookahead < old(lookahead)
      ensures old(log) <= log
    {
      hide Placed, Ready, Out, MatchOk, Shown, KeepsFast, LookOk, Base;
      ReadyParts(cfg, D());
      ghost var k := FastLook();
      var full := FastSend(k);
      leave := FlushFull(full);
    }

    /** deflate_fast, lines 1824-1918. */
    method DeflateFast(noFlush: bool, finish: bool) returns (r: Result)
      requires FastValid() && !(noFlush && finish)
      modifies this, block`dBuf, block`lBuf, block.w, block.l, block.d, block.bl
      modifies block.l.heap, block.d.heap, block.bl.heap
      ensures total + input == old(total + input)
      ensures r == NeedMore || r == BlockDone ==> FastValid()
      ensures finish ==> r != BlockDone && (r == NeedMore ==> |input| + lookahead < old(|input| + lookahead))
      ensures r == BlockDone ==> input == [] && Conveys(block.w.Written(), total, false, MaxDist(cfg))
      ensures r == FinishStarted || r == FinishDone ==>
        finish && input == [] && Delivers(block.w.Written(), total, MaxDist(cfg))
      ensures r == FinishStarted || r == FinishDone ==> block.w.Written() == BytesBits(block.w.pending)
      ensures FastLogged() && old(log) <= log && (r != NeedMore ==> End(log) == |total|)
    {
      hide Ready, Out, Conveys, Delivers, Writer.Written, BytesBits, Block.Valid, KeepsFast;
      while true
        invariant FastValid() && total + input == old(total + input) && |input| + lookahead <= old(|input| + lookahead)
        invariant old(log) <= log
        decreases |input| + lookahead
      {
        if lookahead < MIN_LOOKAHEAD {
          FastFill();
          if lookahead < MIN_LOOKAHEAD && noFlush {
            return NeedMore;
          }
          if lookahead == 0 {
            break;
          }
        }
        ReadyParts(cfg, D());
        var leave := FastTurn();
        if leave {
          return NeedMore;
        }
      }
      r := EndFast(finish);
    }

    /** Lines 1910-1917. */
    method EndFast(finish: bool) returns (r: Result)
      requires FastValid() && lookahead == 0
      modifies this`insert, this`blockStart, block`dBuf, block`lBuf, block.w, block.l, block.d
      modifies block.bl
      modifies block.l.heap, block.d.heap, block.bl.heap
      ensures finish <==> r == FinishStarted || r == FinishDone
      ensures FastLogged() && End(log) == |total|
      ensures !finish ==> FastValid() && Conveys(block.w.Written(), total, false, MaxDist(cfg))
      ensures finish ==> Delivers(block.w.Written(), total, MaxDist(cfg))
      ensures finish ==> block.w.Written() == BytesBits(block.w.pending)
    {
      hide Ready, Out, Conveys, Delivers, Writer.Written, BytesBits, Block.Valid, KeepsFast, Equal, Shown;
      FastEnd(cfg, Tuned(), total, log, base + strstart, ins);
      EndTurns();
      r := FinishBlock(finish);
    }

    /** The compression function that configuration_table has for the level, lines 124-141 and 1003. */
    method Compress(fast: bool, noFlush: bool, finish: bool) returns (r: Result)
      requires Running(fast) && !(noFlush && finish)
      modifies this, block`dBuf, block`lBuf, block.w, block.l, block.d, block.bl
      modifies block.l.heap, block.d.heap, block.bl.heap
      ensures total + input == old(total + input)
      ensures r == NeedMore || r == BlockDone ==> Running(fast)
      ensures finish ==> r != BlockDone && (r == NeedMore ==> |input| + lookahead < old(|input| + lookahead))
      ensures r == FinishStarted || r == FinishDone ==>
        finish && input == [] && GoodCfg(cfg) && Delivers(block.w.Written(), total, MaxDist(cfg))
      ensures r == FinishStarted || r == FinishDone ==> block.w.Written() == BytesBits(block.w.pending)
      ensures Log(cfg, Tuned(), fast, log) && SeenIn(total, log) && old(log) <= log
      ensures r != NeedMore ==> End(log) == |total|
    {
      hide Ready, Out, Conveys, Delivers, PendingOk, Writer.Written, BytesBits, Block.Valid, Keeps, KeepsFast, Log,
        SeenIn;
      if fast {
        r := DeflateFast(noFlush, finish);
        FastLog(cfg, Tuned(), total, log, base + strstart, ins);
      } else {
        r := DeflateSlow(noFlush, finish);
        KeepsLog(cfg, Tuned(), total, log, look, matchAvailable, matchLength, base + matchStart, base + strstart, ins);
      }
    }

    method FastFill()
      requires FastValid() && lookahead < MIN_LOOKAHEAD
      modifies this`window, this`head, this`prev, this`strstart, this`matchStart, this`blockStart, this`base
      modifies this`lookahead, this`input, this`total, this`insH, this`insert, this`ins
      ensures FastValid() && total + input == old(total + input) && Pos(D()) == old(Pos(D()))
      ensures |input| + lookahead == old(|input| + lookahead)
      ensures strstart < cfg.W + MaxDist(cfg) && (lookahead >= MIN_LOOKAHEAD || input == [])
    {
      hide Ready, Conveys, SentOk, Block.Valid, Block.Toks, KeepsFast, Recent;
      ghost var d0 := D();
      block.ValidParts();
      Refill();
      SentKeeps(d0.total, total, base + blockStart, base + strstart, block.Toks());
      FastGrows(cfg, Tuned(), d0.total, log, base + strstart, d0.ins, total, ins);
    }

    method FillWindow()
      requires Valid() && lookahead < MIN_LOOKAHEAD
      modifies this`window, this`head, this`prev, this`strstart, this`matchStart, this`blockStart, this`base
      modifies this`lookahead, this`input, this`total, this`insH, this`insert, this`ins
      ensures Valid() && total + input == old(total + input) && old(total) <= total && Pos(D()) == old(Pos(D()))
      ensures |input| + lookahead == old(|input| + lookahead)
      ensures strstart < cfg.W + MaxDist(cfg) && (lookahead >= MIN_LOOKAHEAD || input == [])
    {
      hide Ready, Conveys, SentOk, PendingOk, Block.Valid, Block.Toks, Keeps, Recent;
      ghost var d0 := D();
      block.ValidParts();
      Refill();
      KeepsGrows(cfg, Tuned(), d0.total, log, look, matchAvailable, matchLength, base + matchStart, base + strstart,
                 d0.ins, total, ins);
      PendingKeeps(cfg, d0, D(), matchAvailable, matchLength, old(matchStart), matchStart);
      SentKeeps(d0.total, total, base + blockStart, Done(), block.Toks());
    }
  }

  lemma BelowHere(d: Dict)
    requires InsBelow(d, Pos(d) - d.insert)
    ensures forall q :: q in d.ins ==> q < Pos(d)
  {
  }

  lemma MatchRange(total: seq<byte>, m: nat, q: nat, len: nat)
    requires Equal(total, m, q, len)
    ensures m < q && q + len <= |total|
  {
  }

  /** The old head of the chain is a candidate for a match unless it is too far back. */
  lemma HeadCandidate(c: Cfg, d: Dict, m: nat)
    requires GoodCfg(c) && Placed(c, d) && Ahead(d) >= MIN_MATCH && (m != 0 ==> m < d.strstart)
    requires Inserted(d.total, Index(d)) && Linked(c, d.total, Index(d), m, d.insH)
    ensures m != 0 && d.strstart - m <= MaxDist(c) ==> Candidate(c, d, m)
  {
    hide Hash3, ChainsOk;
  }

  lemma SentParts(total: seq<byte>, blockAbs: int, done: int, toks: seq<Token>)
    requires SentOk(total, blockAbs, done, toks)
    ensures 0 <= blockAbs <= done <= |total| && Expandable(total[..blockAbs], toks)
    ensures Expand(total[..blockAbs], toks) == total[..done]
  {
  }

  lemma ReadyShown(c: Cfg, d: Dict)
    requires Ready(c, d)
    ensures Shown(c, d)
  {
  }

  lemma PlacedShown(c: Cfg, d: Dict)
    requires Placed(c, d)
    ensures Shown(c, d)
  {
  }

  lemma PendingParts(c: Cfg, d: Dict, avail: bool, mlen: nat, mstart: int)
    requires GoodCfg(c) && PendingOk(c, d, avail, mlen, mstart)
    ensures (avail ==> d.strstart >= 1) && 2 <= mlen <= MAX_MATCH
    ensures mlen >= MIN_MATCH ==>
      avail && 0 <= d.base + mstart && Pos(d) >= 1 && MatchOk(c, d.total, d.base + mstart, Pos(d) - 1, mlen)
  {
  }

  lemma MakePending(c: Cfg, d: Dict, avail: bool, mlen: nat, mstart: int)
    requires GoodCfg(c) && (avail ==> d.strstart >= 1) && 2 <= mlen <= MAX_MATCH
    requires mlen >= MIN_MATCH ==>
      avail && 0 <= d.base + mstart && Pos(d) >= 1 && MatchOk(c, d.total, d.base + mstart, Pos(d) - 1, mlen)
    ensures PendingOk(c, d, avail, mlen, mstart)
  {
  }

  lemma MatchShort(c: Cfg, total: seq<byte>, m: nat, q: nat, len: nat)
    requires GoodCfg(c) && MatchOk(c, total, m, q, len)
    ensures len <= MAX_MATCH && q + len <= |total| && m < q
  {
  }

  /** Lines 2041 and 1910: the last strings of the input are not in the dictionary. */
  lemma SetInsert(c: Cfg, d: Dict)
    requires Ready(c, d) && Ahead(d) == 0
    ensures Ready(c, d.(insert := if d.strstart < MIN_MATCH - 1 then d.strstart else MIN_MATCH - 1))
  {
    hide HeadsOk, PrevsOk;
  }

  lemma SentEmpty(total: seq<byte>, blockAbs: int, done: int, toks: seq<Token>, dBuf: seq<nat>, lBuf: seq<byte>)
    requires SentOk(total, blockAbs, done, toks) && |dBuf| == |lBuf| && toks == TokensOf(dBuf, lBuf) && lBuf == []
    ensures total[..blockAbs] == total[..done] && blockAbs == done
  {
    assert toks == [];
    assert |total[..blockAbs]| == blockAbs && |total[..done]| == done;
  }

  /** At the end of the input no match can be waiting. */
  lemma NoneWaiting(c: Cfg, d: Dict, avail: bool, mlen: nat, mstart: int)
    requires GoodCfg(c) && PendingOk(c, d, avail, mlen, mstart) && Ahead(d) == 0
    ensures mlen == MIN_MATCH - 1 && (avail ==> d.strstart >= 1)
  {
  }

  lemma NoInsert(c: Cfg, d: Dict)
    requires Placed(c, d) && Ahead(d) >= MIN_MATCH
    ensures d.insert == 0
  {
  }

  lemma BelowSame(d: Dict, d': Dict)
    requires InsBelow(d, Pos(d) - d.insert) && d'.ins == d.ins && Pos(d') == Pos(d) && d'.insert == d.insert
    ensures InsBelow(d', Pos(d') - d'.insert)
  {
  }

  /** Sliding keeps what Ready says about the hash. */
  lemma SlideReady(c: Cfg, d: Dict, d': Dict)
    requires Ready(c, d) && Base(c, d') && Pos(d') == Pos(d) && d'.total == d.total && d'.insH == d.insH
    requires d'.insert == d.insert && d'.ins == d.ins
    ensures Ready(c, d')
  {
    hide Base, Primed;
  }

  lemma ReadyParts(c: Cfg, d: Dict)
    requires Ready(c, d)
    ensures GoodCfg(c) && Base(c, d) && InsBelow(d, Pos(d) - d.insert) && 0 <= Ahead(d)
    ensures d.strstart + Ahead(d) <= 2 * c.W == |d.window|
  {
    hide Primed;
  }

  /** A waiting match outlives slides and new input. */
  lemma PendingKeeps(c: Cfg, d: Dict, d': Dict, avail: bool, mlen: nat, mstart: int, mstart': int)
    requires GoodCfg(c) && PendingOk(c, d, avail, mlen, mstart) && d.total <= d'.total && Pos(d') == Pos(d)
    requires d'.base + mstart' == d.base + mstart && (d'.strstart == d.strstart || d'.strstart >= MaxDist(c))
    ensures PendingOk(c, d', avail, mlen, mstart')
  {
    if mlen >= MIN_MATCH {
      var m, q := d.base + mstart, Pos(d) - 1;
      PrefixSlice(d.total, d'.total, m, mlen);
      PrefixSlice(d.total, d'.total, q, mlen);
    }
  }

  lemma PrefixSlice(s: seq<byte>, s': seq<byte>, a: nat, n: nat)
    requires s <= s' && a + n <= |s|
    ensures s'[a..a + n] == s[a..a + n]
  {
  }

  /** So do the tokens and the bits already sent. */
  lemma SentKeeps(total: seq<byte>, total': seq<byte>, blockAbs: int, done: int, toks: seq<Token>)
    requires SentOk(total, blockAbs, done, toks) && total <= total'
    ensures SentOk(total', blockAbs, done, toks) && total'[..blockAbs] == total[..blockAbs]
  {
    hide Expandable, Expand;
    SentGrows(total, blockAbs, done, toks, total'[|total|..]);
    assert total + total'[|total|..] == total';
  }

  lemma EmptyReady(c: Cfg, d: Dict)
    requires GoodCfg(c)
    requires d == Dict(seq(2 * c.W, _ => 0), seq(Pow2(c.hb), _ => 0), seq(c.W, _ => 0), 0, 0, 0, 0, [], {})
    ensures Ready(c, d) && Ahead(d) == 0 && PendingOk(c, d, false, MIN_MATCH - 1, 0)
  {
  }

  lemma StartBound(c: Cfg, d: Dict)
    requires GoodCfg(c) && Base(c, d)
    ensures d.strstart + Ahead(d) <= 2 * c.W == |d.window| && 0 <= Ahead(d)
  {
  }

  lemma CatchBound(c: Cfg, d: Dict)
    requires Catching(c, d)
    ensures d.insert <= d.strstart
  {
  }

  lemma InsertBound(c: Cfg, d: Dict)
    requires Base(c, d)
    ensures d.insert <= d.strstart
  {
  }

  lemma NotCatching(c: Cfg, d: Dict)
    requires Base(c, d) && InsBelow(d, Pos(d) - d.insert) && Ahead(d) + d.insert < MIN_MATCH
    ensures Ready(c, d)
  {
    hide ChainsOk;
  }

  /** Lines 208-213 and 217-223. */
  method SlideAll(a: seq<nat>, w: nat) returns (r: seq<nat>)
    ensures SlidSeq(a, r, w)
  {
    r := a;
    var n: nat := |a|;
    while n > 0
      invariant n <= |a| == |r|
      invariant forall i :: 0 <= i < |a| ==> r[i] == if i < n then a[i] else Slid(a[i], w)
    {
      n := n - 1;
      r := r[n := Slid(r[n], w)];
    }
  }
}
