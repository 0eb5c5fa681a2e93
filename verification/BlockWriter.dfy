/** trees.c, writing a block: compress_block, scan_tree, send_tree and send_all_trees. */
module BlockWriter {
  import opened Powers
  import opened Bits
  import opened BitStreams
  import opened Canonical
  import opened TableSpec
  import opened Tokens
  import opened BitWriter
  import opened InflateSpec
  import opened BlockSpec
  import opened CodeLengths
  import opened HeaderSpec

  /** codes[i] is what gen_codes sets for the lengths lens. */
  ghost predicate CodesFor(codes: seq<nat>, lens: seq<nat>)
  {
    |lens| <= |codes| && forall i :: 0 <= i < |lens| && lens[i] >= 1 ==> codes[i] == Rev(Code(lens, i), lens[i])
  }

  /** send_code: line 161. */
  method SendCode(w: Writer, c: nat, codes: seq<nat>, lens: seq<nat>)
    requires w.Valid() && HasCode(lens, c) && lens[c] <= MAXBITS && CodesFor(codes, lens)
    modifies w
    ensures w.Valid() && w.Written() == old(w.Written()) + CodeBits(lens, c)
  {
    hide Rev, Code, BitsOf, BytesBits, Pow2;
    RevFits(Code(lens, c), lens[c]);
    w.SendBits(codes[c], lens[c]);
  }

  /** Lines 1084-1089 and 1094-1099: a code and its extra bits. */
  method SendParts(w: Writer, base: nat, p: Parts, codes: seq<nat>, lens: seq<nat>)
    requires w.Valid() && HasCode(lens, base + p.code) && LengthsOk(lens) && CodesFor(codes, lens)
    requires p.extra < Pow2(p.bits) && p.bits <= 13
    modifies w
    ensures w.Valid() && w.Written() == old(w.Written()) + PartsBits(lens, base, p)
  {
    hide Rev, Code, BitsOf, BytesBits, Pow2, CodesFor, CodeBits;
    SendCode(w, base + p.code, codes, lens);
    if p.bits != 0 {
      w.SendBits(p.extra, p.bits);
    }
  }

  /** The token in one place of d_buf and l_buf. */
  function TokenOf(dist: nat, lc: byte): Token
  {
    if dist == 0 then Lit(lc) else Match(lc + 3, dist)
  }

  function TokensOf(dBuf: seq<nat>, lBuf: seq<byte>): (ts: seq<Token>)
    requires |dBuf| == |lBuf|
    ensures |ts| == |dBuf|
  {
    seq(|dBuf|, i requires 0 <= i < |dBuf| => TokenOf(dBuf[i], lBuf[i]))
  }

  lemma PartsFit(t: Token)
    requires t.Match? && GoodToken(t)
    ensures var p := LengthParts(t.len); p.extra < Pow2(p.bits) && p.bits <= 5
    ensures var p := DistParts(t.dist); p.extra < Pow2(p.bits) && p.bits <= 13
  {
    hide Pow2, LengthParts, DistParts, LBASE, DBASE;
    LengthAgain(t.len);
    DistAgain(t.dist);
    ExtraRange(LengthParts(t.len).code);
    ExtraRange(DistParts(t.dist).code);
  }

  lemma ExtraRange(c: nat)
    ensures c < 29 ==> LEXT[c] <= 21
    ensures c < 30 ==> DEXT[c] <= 29
  {
  }

  /** Lines 1076-1100. */
  method SendToken(w: Writer, dist: nat, lc: byte, lcodes: seq<nat>, llens: seq<nat>, dcodes: seq<nat>, dlens: seq<nat>)
    requires w.Valid() && Sendable(llens, dlens, TokenOf(dist, lc))
    requires LengthsOk(llens) && LengthsOk(dlens) && CodesFor(lcodes, llens) && CodesFor(dcodes, dlens)
    modifies w
    ensures w.Valid() && w.Written() == old(w.Written()) + TokenBits(llens, dlens, TokenOf(dist, lc))
  {
    hide LengthParts, DistParts, PartsBits, CodeBits, CodesFor, Pow2, BytesBits, BitsOf;
    if dist == 0 {
      LengthIs(llens, lc);
      SendCode(w, lc, lcodes, llens);
    } else {
      PartsFit(TokenOf(dist, lc));
      SendParts(w, 257, LengthParts(lc + 3), lcodes, llens);
      SendParts(w, 0, DistParts(dist), dcodes, dlens);
    }
  }

  lemma LengthIs(lens: seq<nat>, i: nat)
    requires LengthsOk(lens) && i < |lens|
    ensures lens[i] <= MAXBITS
  {
  }

  lemma {:induction false} TokensSnoc(llens: seq<nat>, dlens: seq<nat>, ts: seq<Token>, n: nat)
    requires AllSendable(llens, dlens, ts) && n < |ts|
    ensures AllSendable(llens, dlens, ts[..n]) && AllSendable(llens, dlens, ts[..n + 1])
    ensures TokensBits(llens, dlens, ts[..n + 1]) == TokensBits(llens, dlens, ts[..n]) + TokenBits(llens, dlens, ts[n])
    decreases n
  {
    hide TokenBits, Sendable;
    var a, b := ts[..n], ts[..n + 1];
    if n == 0 {
      assert b == [ts[0]] && b[1..] == [] && a == [];
    } else {
      TokensSnoc(llens, dlens, ts[1..], n - 1);
      assert b[1..] == ts[1..][..n] && a[1..] == ts[1..][..n - 1] && a[0] == b[0] == ts[0] && ts[1..][n - 1] == ts[n];
      var x, y, z := TokenBits(llens, dlens, ts[0]), TokensBits(llens, dlens, a[1..]), TokenBits(llens, dlens, ts[n]);
      assert x + (y + z) == (x + y) + z;
    }
  }

  /** compress_block, lines 1064-1109. */
  method CompressBlock(w: Writer, dBuf: seq<nat>, lBuf: seq<byte>, lcodes: seq<nat>, llens: seq<nat>, dcodes: seq<nat>,
                       dlens: seq<nat>)
    requires w.Valid() && |dBuf| == |lBuf| && AllSendable(llens, dlens, TokensOf(dBuf, lBuf))
    requires HasCode(llens, END_BLOCK)
    requires LengthsOk(llens) && LengthsOk(dlens) && CodesFor(lcodes, llens) && CodesFor(dcodes, dlens)
    modifies w
    ensures w.Valid() && w.Written() == old(w.Written()) + BodyBits(llens, dlens, TokensOf(dBuf, lBuf))
  {
    hide CodeBits, CodesFor, TokenBits, TokensBits, Sendable, Writer.Written, Writer.Valid;
    ghost var ts := TokensOf(dBuf, lBuf);
    NoTokens(llens, dlens, ts);
    ghost var w0 := w.Written();
    var lx: nat := 0;
    while lx < |lBuf|
      invariant lx <= |lBuf| && w.Valid() && AllSendable(llens, dlens, ts[..lx])
      invariant w.Written() == w0 + TokensBits(llens, dlens, ts[..lx])
    {
      TokensSnoc(llens, dlens, ts, lx);
      ghost var x := TokensBits(llens, dlens, ts[..lx]);
      SendToken(w, dBuf[lx], lBuf[lx], lcodes, llens, dcodes, dlens);
      assert w0 + x + TokenBits(llens, dlens, ts[lx]) == w0 + (x + TokenBits(llens, dlens, ts[lx]));
      lx := lx + 1;
    }
    assert ts[..|ts|] == ts;
    LengthIs(llens, END_BLOCK);
    SendCode(w, END_BLOCK, lcodes, llens);
    assert w0 + TokensBits(llens, dlens, ts) + CodeBits(llens, END_BLOCK) == w0 + BodyBits(llens, dlens, ts);
  }

  lemma NoTokens(llens: seq<nat>, dlens: seq<nat>, ts: seq<Token>)
    ensures AllSendable(llens, dlens, ts[..0]) && TokensBits(llens, dlens, ts[..0]) == []
  {
  }

  lemma ItemsOne(bl: seq<nat>, it: Item)
    requires ItemOk(bl, it)
    ensures AllOk(bl, [it]) && ItemsBits(bl, [it]) == ItemBits(bl, it)
  {
    hide ItemBits;
    assert [it][1..] == [];
    assert ItemsBits(bl, []) == [];
  }

  method SendItem(w: Writer, it: Item, codes: seq<nat>, bl: seq<nat>, ghost sent: seq<Item>)
    requires w.Valid() && ItemOk(bl, it) && WellFormed(it) && LengthsOk(bl) && CodesFor(codes, bl) && AllOk(bl, sent)
    modifies w
    ensures w.Valid() && AllOk(bl, sent + [it])
    ensures forall w0 :: old(w.Written()) == w0 + ItemsBits(bl, sent) ==> w.Written() == w0 + ItemsBits(bl, sent + [it])
  {
    hide PartsBits, CodesFor, Pow2, BytesBits, BitsOf, ItemsBits;
    ItemFits(it);
    ItemsOne(bl, it);
    ItemsConcat(bl, sent, [it]);
    SendParts(w, 0, Parts(it.sym, it.extra, it.bits), codes, bl);
  }

  lemma EmittedForm(cur: nat, prev: int, count: nat, i: nat)
    requires cur <= MAXBITS && 1 <= count <= MaxCount(prev, cur) && i < |Emitted(cur, prev, count)|
    ensures WellFormed(Emitted(cur, prev, count)[i])
  {
  }

  /** Lines 768-783: one run. */
  method SendRun(w: Writer, cur: nat, prev: int, count: nat, minCount: nat, codes: seq<nat>, bl: seq<nat>,
                 ghost w0: seq<bool>,
                 ghost sent: seq<Item>)
    requires w.Valid() && LengthsOk(bl) && CodesFor(codes, bl) && cur <= MAXBITS && 1 <= count <= MaxCount(prev, cur)
    requires minCount == MinCount(prev, cur) && AllOk(bl, Emitted(cur, prev, count)) && AllOk(bl, sent)
    requires w.Written() == w0 + ItemsBits(bl, sent)
    modifies w
    ensures w.Valid() && AllOk(bl, sent + Emitted(cur, prev, count))
    ensures w.Written() == w0 + ItemsBits(bl, sent + Emitted(cur, prev, count))
  {
    hide ItemsBits, ItemOk, CodesFor, Writer.Written, Writer.Valid, LengthsOk;
    ghost var all := Emitted(cur, prev, count);
    if count < minCount {
      var left: nat := count;
      ghost var done: seq<Item> := [];
      assert sent + done == sent;
      while left != 0
        invariant left <= count && done == all[..count - left] && w.Valid() && AllOk(bl, sent + done)
        invariant w.Written() == w0 + ItemsBits(bl, sent + done)
      {
        assert all[count - left] == Item(cur, 0, 0) && ItemOk(bl, all[count - left]);
        SendItem(w, Item(cur, 0, 0), codes, bl, sent + done);
        assert sent + done + [Item(cur, 0, 0)] == sent + (done + [Item(cur, 0, 0)]);
        done := done + [Item(cur, 0, 0)];
        left := left - 1;
      }
      assert done == all;
    } else if cur != 0 {
      var n: nat := count;
      ghost var now := sent;
      if cur != prev {
        assert ItemOk(bl, all[0]);
        SendItem(w, Item(cur, 0, 0), codes, bl, sent);
        now := sent + [Item(cur, 0, 0)];
        n := n - 1;
      }
      assert ItemOk(bl, all[|all| - 1]);
      SendItem(w, Item(REP_3_6, n - 3, 2), codes, bl, now);
      assert now + [Item(REP_3_6, n - 3, 2)] == sent + all;
    } else if count <= 10 {
      assert ItemOk(bl, all[0]);
      SendItem(w, Item(REPZ_3_10, count - 3, 3), codes, bl, sent);
    } else {
      assert ItemOk(bl, all[0]);
      SendItem(w, Item(REPZ_11_138, count - 11, 7), codes, bl, sent);
    }
  }

  /** The Len fields of a tree: the lengths of its codes and the guard. */
  predicate Guarded(dl: seq<nat>, codes: nat)
  {
    codes < |dl| && LengthsOk(dl[..codes]) && dl[codes] == GUARD
  }

  /** Where the loops of scan_tree and send_tree stand. */
  ghost predicate Scanning(lens: seq<nat>, n: nat, prev: int, count: nat, maxCount: nat, minCount: nat, sent: seq<Item>)
  {
    && n <= |lens|
    && (n < |lens| ==> count < maxCount == MaxCount(prev, lens[n]) && minCount == MinCount(prev, lens[n])
                       && TreeItems(lens) == sent + Items(lens, n, prev, count))
    && (n == |lens| ==> TreeItems(lens) == sent)
  }

  lemma ScanStart(lens: seq<nat>, maxCount: nat, minCount: nat)
    requires lens != [] ==> maxCount == (if lens[0] == 0 then 138 else 7) && minCount == (if lens[0] == 0 then 3 else 4)
    ensures Scanning(lens, 0, -1, 0, maxCount, minCount, [])
  {
    assert [] + TreeItems(lens) == TreeItems(lens);
  }

  /** One turn of the loop: lines 765-791. */
  lemma ScanStep(lens: seq<nat>, n: nat, prev: int, count: nat, maxCount: nat, minCount: nat, sent: seq<Item>)
    requires LengthsOk(lens) && n < |lens| && Scanning(lens, n, prev, count, maxCount, minCount, sent)
    ensures count + 1 <= MaxCount(prev, lens[n]) && minCount == MinCount(prev, lens[n])
    ensures if count + 1 < maxCount && lens[n] == Next(lens, n)
      then Scanning(lens, n + 1, prev, count + 1, maxCount, minCount, sent)
      else
        var next := Next(lens, n);
        && Scanning(lens, n + 1, lens[n], 0, MaxCount(lens[n], next), MinCount(lens[n], next),
                    sent + Emitted(lens[n], prev, count + 1))
        && |sent| <= |TreeItems(lens)| && Emitted(lens[n], prev, count + 1) <= TreeItems(lens)[|sent|..]
  {
    hide Emitted, Items, MinCount, TreeItems;
    ItemsStep(lens, n, prev, count);
    if !(count + 1 < maxCount && lens[n] == Next(lens, n)) {
      var e, rest := Emitted(lens[n], prev, count + 1), Items(lens, n + 1, lens[n], 0);
      assert sent + (e + rest) == (sent + e) + rest;
      if n + 1 == |lens| {
        ItemsNone(lens, lens[n]);
      }
    }
  }

  lemma PartOk(bl: seq<nat>, items: seq<Item>, k: nat, part: seq<Item>)
    requires AllOk(bl, items) && k <= |items| && part <= items[k..]
    ensures AllOk(bl, part)
  {
    forall i | 0 <= i < |part| ensures ItemOk(bl, part[i]) {
      assert part[i] == items[k + i];
    }
  }

  /** send_tree, lines 748-793. */
  method SendTree(w: Writer, dl: seq<nat>, codes: nat, blCodes: seq<nat>, bl: seq<nat>)
    requires w.Valid() && Guarded(dl, codes) && LengthsOk(bl) && CodesFor(blCodes, bl)
    requires AllOk(bl, TreeItems(dl[..codes]))
    modifies w
    ensures w.Valid() && w.Written() == old(w.Written()) + ItemsBits(bl, TreeItems(dl[..codes]))
  {
    hide ItemsBits, ItemOk, CodesFor, Writer.Written, Writer.Valid, TreeItems, Items, Emitted, Scanning, AllOk;
    ghost var lens, w0, sent: seq<Item> := dl[..codes], w.Written(), [];
    var prevlen: int, curlen: nat, nextlen: nat, count: nat, maxCount: nat, minCount: nat := -1, 0, dl[0], 0, 7, 4;
    if nextlen == 0 {
      maxCount, minCount := 138, 3;
    }
    ScanStart(lens, maxCount, minCount);
    NoItems(bl);
    for n := 0 to codes
      invariant w.Valid() && AllOk(bl, sent) && nextlen == dl[n]
      invariant Scanning(lens, n, prevlen, count, maxCount, minCount, sent)
      invariant w.Written() == w0 + ItemsBits(bl, sent)
    {
      ScanStep(lens, n, prevlen, count, maxCount, minCount, sent);
      curlen := nextlen;
      nextlen := dl[n + 1];
      assert nextlen == Next(lens, n);
      count := count + 1;
      if count < maxCount && curlen == nextlen {
        continue;
      }
      ghost var e := Emitted(curlen, prevlen, count);
      PartOk(bl, TreeItems(lens), |sent|, e);
      SendRun(w, curlen, prevlen, count, minCount, blCodes, bl, w0, sent);
      sent := sent + e;
      count, prevlen := 0, curlen;
      if nextlen == 0 {
        maxCount, minCount := 138, 3;
      } else if curlen == nextlen {
        maxCount, minCount := 6, 3;
      } else {
        maxCount, minCount := 7, 4;
      }
    }
    ScanEnd(lens, prevlen, count, maxCount, minCount, sent);
  }

  lemma NoItems(bl: seq<nat>)
    ensures AllOk(bl, []) && ItemsBits(bl, []) == []
  {
  }

  lemma ScanEnd(lens: seq<nat>, prev: int, count: nat, maxCount: nat, minCount: nat, sent: seq<Item>)
    requires Scanning(lens, |lens|, prev, count, maxCount, minCount, sent)
    ensures sent == TreeItems(lens)
  {
  }

  /** How often a symbol of the bit length tree is sent. */
  function Sent(items: seq<Item>, sym: nat): nat
  {
    if items == [] then 0 else Sent(items[..|items| - 1], sym) + if items[|items| - 1].sym == sym then 1 else 0
  }

  lemma {:induction false} SentConcat(a: seq<Item>, b: seq<Item>, sym: nat)
    ensures Sent(a + b, sym) == Sent(a, sym) + Sent(b, sym)
  {
    if b == [] {
      assert a + b == a;
    } else {
      SentConcat(a, b[..|b| - 1], sym);
      assert (a + b)[..|a + b| - 1] == a + b[..|b| - 1];
    }
  }

  lemma {:induction false} SentSingles(cur: nat, count: nat, sym: nat)
    ensures Sent(Singles(cur, count), sym) == if sym == cur then count else 0
  {
    if count > 0 {
      SentSingles(cur, count - 1, sym);
      assert Singles(cur, count)[..count - 1] == Singles(cur, count - 1);
    }
  }

  /** Lines 724-733: how one run is counted. */
  function Counted(freq: seq<nat>, cur: nat, prev: int, count: nat, minCount: nat): seq<nat>
    requires |freq| >= 19 && cur <= MAXBITS
  {
    if count < minCount then freq[cur := freq[cur] + count]
    else if cur != 0 then
      var f := if cur != prev then freq[cur := freq[cur] + 1] else freq;
      f[REP_3_6 := f[REP_3_6] + 1]
    else if count <= 10 then freq[REPZ_3_10 := freq[REPZ_3_10] + 1]
    else freq[REPZ_11_138 := freq[REPZ_11_138] + 1]
  }

  lemma SentOne(it: Item, sym: nat)
    ensures Sent([it], sym) == if sym == it.sym then 1 else 0
  {
    assert [it][..0] == [];
    assert Sent([it][..0], sym) == 0;
  }

  /** A run is counted as it is sent. */
  lemma CountedIsSent(freq: seq<nat>, cur: nat, prev: int, count: nat, sym: nat)
    requires |freq| >= 19 && cur <= MAXBITS && 1 <= count <= MaxCount(prev, cur) && sym < |freq|
    ensures var f := Counted(freq, cur, prev, count, MinCount(prev, cur));
      |f| == |freq| && f[sym] == freq[sym] + Sent(Emitted(cur, prev, count), sym)
  {
    hide Sent;
    var e := Emitted(cur, prev, count);
    if count < MinCount(prev, cur) {
      SentSingles(cur, count, sym);
    } else if |e| == 2 {
      SentConcat([e[0]], [e[1]], sym);
      SentOne(e[0], sym);
      SentOne(e[1], sym);
      assert e == [e[0]] + [e[1]];
    } else {
      SentOne(e[0], sym);
      assert e == [e[0]];
    }
  }

  /** The frequencies are those of the items. */
  ghost predicate Scanned(freq0: seq<nat>, freq: seq<nat>, items: seq<Item>)
  {
    |freq| == |freq0| && forall sym :: 0 <= sym < |freq| ==> freq[sym] == freq0[sym] + Sent(items, sym)
  }

  lemma TallyRun(freq0: seq<nat>, freq: seq<nat>, sent: seq<Item>, cur: nat, prev: int, count: nat)
    requires |freq0| >= 19 && Scanned(freq0, freq, sent) && cur <= MAXBITS && 1 <= count <= MaxCount(prev, cur)
    ensures Scanned(freq0, Counted(freq, cur, prev, count, MinCount(prev, cur)), sent + Emitted(cur, prev, count))
  {
    hide Sent, Counted, Emitted, MinCount;
    var f := Counted(freq, cur, prev, count, MinCount(prev, cur));
    CountedIsSent(freq, cur, prev, count, 0);
    forall sym | 0 <= sym < |f| ensures f[sym] == freq0[sym] + Sent(sent + Emitted(cur, prev, count), sym) {
      CountedIsSent(freq, cur, prev, count, sym);
      SentConcat(sent, Emitted(cur, prev, count), sym);
    }
  }

  /** scan_tree, lines 703-742: counts exactly what send_tree will send, and sets the guard. */
  method ScanTree(dl0: seq<nat>, codes: nat, freq0: seq<nat>) returns (dl: seq<nat>, freq: seq<nat>)
    requires codes < |dl0| && LengthsOk(dl0[..codes]) && |freq0| >= 19
    ensures Guarded(dl, codes) && dl == dl0[codes := GUARD]
    ensures Scanned(freq0, freq, TreeItems(dl0[..codes]))
  {
    hide TreeItems, Items, Emitted, Scanning, Scanned, Counted;
    ghost var lens, sent: seq<Item> := dl0[..codes], [];
    var prevlen: int, curlen: nat, nextlen: nat, count: nat, maxCount: nat, minCount: nat := -1, 0, dl0[0], 0, 7, 4;
    if nextlen == 0 {
      maxCount, minCount := 138, 3;
    }
    dl, freq := dl0[codes := GUARD], freq0;
    assert dl[..codes] == lens;
    ScanStart(lens, maxCount, minCount);
    TallyStart(freq0);
    for n := 0 to codes
      invariant codes > 0 ==> nextlen == dl[n]
      invariant Scanning(lens, n, prevlen, count, maxCount, minCount, sent)
      invariant Scanned(freq0, freq, sent)
    {
      ScanStep(lens, n, prevlen, count, maxCount, minCount, sent);
      curlen := nextlen;
      nextlen := dl[n + 1];
      assert nextlen == Next(lens, n);
      count := count + 1;
      if count < maxCount && curlen == nextlen {
        continue;
      }
      TallyRun(freq0, freq, sent, curlen, prevlen, count);
      TallySize(freq0, freq, sent);
      freq := Counted(freq, curlen, prevlen, count, minCount);
      sent := sent + Emitted(curlen, prevlen, count);
      count, prevlen := 0, curlen;
      if nextlen == 0 {
        maxCount, minCount := 138, 3;
      } else if curlen == nextlen {
        maxCount, minCount := 6, 3;
      } else {
        maxCount, minCount := 7, 4;
      }
    }
    ScanEnd(lens, prevlen, count, maxCount, minCount, sent);
  }

  lemma TallyStart(freq: seq<nat>)
    ensures Scanned(freq, freq, [])
  {
  }

  lemma TallySize(freq0: seq<nat>, freq: seq<nat>, items: seq<Item>)
    requires Scanned(freq0, freq, items)
    ensures |freq| == |freq0|
  {
  }

  lemma {:induction false} OrderSnoc(bl: seq<nat>, k: nat, n: nat)
    requires |bl| == 19 && k <= n < 19
    ensures OrderBits(bl, k, n + 1) == OrderBits(bl, k, n) + BitsOf(bl[ORDER[n]], 3)
    decreases n - k
  {
    hide BitsOf;
    if k < n {
      OrderSnoc(bl, k + 1, n);
    } else {
      assert OrderBits(bl, n + 1, n + 1) == [];
      assert OrderBits(bl, n, n) == [];
    }
  }

  /** send_all_trees, lines 834-858. */
  method SendAllTrees(w: Writer, ldl: seq<nat>, lcodes: nat, ddl: seq<nat>, dcodes: nat, bl: seq<nat>,
                      blCodes: seq<nat>,
                      blcodes: nat)
    requires w.Valid() && Guarded(ldl, lcodes) && Guarded(ddl, dcodes) && CodesFor(blCodes, bl)
    requires Sound(ldl[..lcodes], ddl[..dcodes], bl, blcodes)
    modifies w
    ensures w.Valid() && w.Written() == old(w.Written()) + HeaderBits(ldl[..lcodes], ddl[..dcodes], bl, blcodes)
  {
    hide CodesFor, Writer.Written, Writer.Valid, TreeItems, ItemsBits, BitsOf, Pow2, Accepted, AllOk, OrderBits;
    ghost var w0 := w.Written();
    FivePowers();
    SoundCounts(ldl[..lcodes], ddl[..dcodes], bl, blcodes);
    w.SendBits(lcodes - 257, 5);
    w.SendBits(dcodes - 1, 5);
    w.SendBits(blcodes - 4, 4);
    ghost var head := w.Written();
    assert head == w0 + CountBits(lcodes, dcodes, blcodes);
    NoOrder(bl, 0);
    for rank := 0 to blcodes
      invariant w.Valid() && w.Written() == head + OrderBits(bl, 0, rank)
    {
      OrderSnoc(bl, 0, rank);
      ghost var x := OrderBits(bl, 0, rank);
      w.SendBits(bl[ORDER[rank]], 3);
      assert head + x + BitsOf(bl[ORDER[rank]], 3) == head + (x + BitsOf(bl[ORDER[rank]], 3));
    }
    SendTree(w, ldl, lcodes, blCodes, bl);
    SendTree(w, ddl, dcodes, blCodes, bl);
  }

  lemma SoundCounts(llens: seq<nat>, dlens: seq<nat>, bl: seq<nat>, blcodes: nat)
    requires Sound(llens, dlens, bl, blcodes)
    ensures LengthsOk(bl) && AllOk(bl, TreeItems(llens)) && AllOk(bl, TreeItems(dlens))
  {
  }
}
