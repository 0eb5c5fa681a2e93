/** trees.c, one block from its tokens to the output: init_block, _tr_tally, build_bl_tree and
    _tr_flush_block. */
module BlockFlush {
  import opened Powers
  import opened BitStreams
  import opened PrefixCodes
  import opened TreeSteps
  import opened BitlenSteps
  import opened Canonical
  import opened TableSpec
  import opened Tokens
  import opened TreeBuilder
  import opened BitWriter
  import opened InflateSpec
  import opened BlockSpec
  import opened CodeLengths
  import opened HeaderSpec
  import opened StreamSpec
  import opened BlockWriter
  import opened BlockCost
  import opened BlockTrees
  import opened BlockBest
  import opened TreeDepth
  import opened StaticTrees

  /** The value of opt_len or static_len after a tree with frequencies f0. */
  ghost function Sum(f0: seq<nat>, lens: seq<nat>, d: StaticDesc): nat
    requires |f0| == |lens|
  {
    BitCost(LeavesTo(f0, d.elems), f0, lens, Extras(d, |f0|))
  }

  lemma SumSame(f0: seq<nat>, freqs: seq<nat>, lens: seq<nat>, d: StaticDesc)
    requires |f0| == |lens| == |freqs| && forall x :: x in LeavesTo(f0, d.elems) && x < |f0| ==> freqs[x] == f0[x]
    ensures BitCost(LeavesTo(f0, d.elems), freqs, lens, Extras(d, |f0|)) == Sum(f0, lens, d)
  {
    hide Cost;
    var nodes, xs := LeavesTo(f0, d.elems), Extras(d, |f0|);
    CostSame(nodes, freqs, lens, nodes, f0, lens);
    CostSame(nodes, freqs, xs, nodes, f0, xs);
  }

  /** build_tree, with the running sums handed in and out. */
  method Build(tree: TreeState, opt: nat, stat: nat) returns (opt': nat, stat': nat)
    requires tree.Sized()
    modifies tree, tree.heap
    ensures tree.Sized() && |tree.fc| == |tree.dl| == |old(tree.fc)| && 0 <= tree.maxCode + 1 <= tree.desc.elems
    ensures Finished(old(tree.fc), tree.fc, tree.dl, tree.desc.elems, tree.maxCode + 1, tree.desc.maxLength)
    ensures opt' == opt + Sum(old(tree.fc), tree.dl, tree.desc)
    ensures stat' == stat + if tree.desc.staticLens == [] then 0
      else Sum(old(tree.fc), Statics(tree.desc, |old(tree.fc)|), tree.desc)
    ensures Total(old(tree.fc)[..tree.desc.elems]) < Fib(tree.desc.maxLength + 3) ==>
      TreeBest(old(tree.fc), tree.dl, tree.desc.elems)
  {
    hide *;
    ghost var f0: seq<nat> := tree.fc;
    tree.SizedParts();
    SetSums(tree, opt, stat);
    tree.SizedParts();
    ghost var t, forced, freqs := tree.BuildTree();
    tree.SizedParts();
    SumSame(f0, freqs, tree.dl, tree.desc);
    SumSame(f0, freqs, Statics(tree.desc, |f0|), tree.desc);
    MakeBuilt(f0, freqs, tree.fc, tree.dl, tree.desc.elems, tree.maxCode + 1, tree.desc.maxLength, t.leaves);
    if Total(f0[..tree.desc.elems]) < Fib(tree.desc.maxLength + 3) {
      MakeBest(f0, freqs, tree.dl, t.leaves, forced, tree.desc.elems);
    }
    opt', stat' := tree.optLen, tree.staticLen;
  }

  method SetSums(tree: TreeState, opt: nat, stat: nat)
    requires tree.Sized()
    modifies tree`optLen, tree`staticLen
    ensures tree.Sized() && tree.optLen == opt && tree.staticLen == stat
  {
    tree.optLen, tree.staticLen := opt, stat;
  }

  lemma BlExtras(n: nat)
    requires n >= BL_CODES
    ensures Extras(BlDesc(), n)[..BL_CODES] == EXTRA_BLBITS
  {
  }

  /** opt_len of the literal and distance trees is the size of the block's body. */
  lemma BodyCost(lf: seq<nat>, ldl: seq<nat>, lcodes: nat, df: seq<nat>, ddl: seq<nat>, dcodes: nat, ts: seq<Token>)
    requires FreqsOf(lf, df, ts) && |lf| == |ldl| && |df| == |ddl| && lcodes <= L_CODES && dcodes <= D_CODES
    requires AllSendable(ldl[..lcodes], ddl[..dcodes], ts) && HasCode(ldl[..lcodes], END_BLOCK)
    ensures |BodyBits(ldl[..lcodes], ddl[..dcodes], ts)| == Sum(lf, ldl, LDesc()) + Sum(df, ddl, DDesc())
  {
    hide BodyBits, AllSendable, BitCost, FreqsOf, ExtraL, HasCode, EXTRA_DBITS, EXTRA_LBITS, FixedLens;
    FreqSizes(lf, df, ts);
    LExtras(|lf|);
    DExtras(|df|);
    BodySize(lf, ldl, Extras(LDesc(), |lf|), ldl[..lcodes], df, ddl, Extras(DDesc(), |df|), ddl[..dcodes], ts);
  }

  lemma FreqSizes(lf: seq<nat>, df: seq<nat>, ts: seq<Token>)
    requires FreqsOf(lf, df, ts)
    ensures |lf| >= L_CODES && |df| >= D_CODES && GoodTokens(ts)
  {
  }

  /** static_len is the size of the body with the fixed codes. */
  lemma StaticCost(lf: seq<nat>, df: seq<nat>, ts: seq<Token>)
    requires FreqsOf(lf, df, ts)
    ensures GoodTokens(ts) && AllSendable(FixedLens(), FixedDists(), ts) && HasCode(FixedLens(), END_BLOCK)
    ensures |BodyBits(FixedLens(), FixedDists(), ts)|
         == Sum(lf, Statics(LDesc(), |lf|), LDesc()) + Sum(df, Statics(DDesc(), |df|), DDesc())
  {
    hide BodyBits, AllSendable, BitCost, FreqsOf, ExtraL, HasCode, EXTRA_DBITS, EXTRA_LBITS;
    FreqSizes(lf, df, ts);
    BodySame(ts);
    LExtras(|lf|);
    DExtras(|df|);
    StaticAgree(|lf|, |df|);
    BodySize(lf, Statics(LDesc(), |lf|), Extras(LDesc(), |lf|), FixedLens(), df, Statics(DDesc(), |df|),
             Extras(DDesc(), |df|), FixedDists(), ts);
  }

  lemma StaticAgree(n: nat, m: nat)
    requires n >= L_CODES && m >= D_CODES
    ensures Agree(FixedLens(), Statics(LDesc(), n)[..L_CODES]) && Agree(FixedDists(), Statics(DDesc(), m)[..D_CODES])
  {
  }

  /** The size of a dynamic block's header. */
  lemma HeaderCost(llens: seq<nat>, dlens: seq<nat>, bf: seq<nat>, bdl: seq<nat>, blcodes: nat)
    requires |bf| == |bdl| >= BL_CODES && Sound(llens, dlens, bdl[..BL_CODES], blcodes)
    requires FreqsBl(bf, TreeItems(llens), TreeItems(dlens))
    ensures |HeaderBits(llens, dlens, bdl[..BL_CODES], blcodes)| == 14 + 3 * blcodes + Sum(bf, bdl, BlDesc())
  {
    hide Sound, ItemsBits, OrderBits, TreeItems, BitCost, FreqsBl, EXTRA_BLBITS;
    var bl := bdl[..BL_CODES];
    SoundParts(llens, dlens, bl, blcodes);
    OrderSize(bl, 0, blcodes);
    BlExtras(|bf|);
    TreeForm(llens);
    TreeForm(dlens);
    ItemsSize(bf, bdl, Extras(BlDesc(), |bf|), TreeItems(llens), TreeItems(dlens));
  }

  lemma SoundParts(llens: seq<nat>, dlens: seq<nat>, bl: seq<nat>, blcodes: nat)
    requires Sound(llens, dlens, bl, blcodes)
    ensures |bl| == 19 && 4 <= blcodes <= 19 && AllOk(bl, TreeItems(llens)) && AllOk(bl, TreeItems(dlens))
    ensures LengthsOk(llens) && LengthsOk(dlens) && 257 <= |llens| && 1 <= |dlens|
  {
    hide TreeItems;
  }

  lemma TreeForm(lens: seq<nat>)
    requires LengthsOk(lens)
    ensures AllFormed(TreeItems(lens))
  {
    ItemsForm(lens, 0, -1, 0);
  }

  /** Lines 818-820: the index of the last code length code to send. */
  method MaxBlIndex(lens: seq<nat>) returns (k: nat)
    requires |lens| == BL_CODES && exists j :: 3 <= j < 19 && lens[ORDER[j]] != 0
    ensures 3 <= k <= 18 && lens[ORDER[k]] != 0 && ZeroFrom(lens, k + 1)
  {
    k := BL_CODES - 1;
    while k >= 3 && lens[ORDER[k]] == 0
      invariant 2 <= k <= 18 && ZeroFrom(lens, k + 1)
    {
      k := k - 1;
    }
  }

  /** Repetitions alone only ever repeat zero. */
  lemma {:induction false} OnlyZeros(lens: seq<nat>, items: seq<Item>)
    requires Readable(lens, items) && (forall i :: 0 <= i < |lens| ==> lens[i] == 0)
    requires forall i :: 0 <= i < |items| ==> items[i].sym > MAXBITS
    ensures forall i :: 0 <= i < |Meaning(lens, items)| ==> Meaning(lens, items)[i] == 0
    decreases |items|
  {
    if items != [] {
      OnlyZeros(lens + seq(Times(items[0]), _ => Value(items[0], lens)), items[1..]);
    }
  }

  /** At least four code length codes are sent: some length is sent as itself. */
  lemma SomeLength(llens: seq<nat>, bl: seq<nat>)
    requires LengthsOk(llens) && |llens| > 256 && llens[256] >= 1 && |bl| == BL_CODES && AllOk(bl, TreeItems(llens))
    ensures exists j :: 3 <= j < 19 && bl[ORDER[j]] != 0
  {
    hide TreeItems, Readable, Meaning;
    var items := TreeItems(llens);
    ItemsMeanAll(llens, []);
    assert [] + llens == llens;
    if forall i :: 0 <= i < |items| ==> items[i].sym > MAXBITS {
      OnlyZeros([], items);
    } else {
      var i :| 0 <= i < |items| && items[i].sym <= MAXBITS;
      assert ItemOk(bl, items[i]);
      var k := InOrder(items[i].sym);
      EarlyOrder(k);
    }
  }

  lemma EarlyOrder(k: nat)
    requires k < 19 && ORDER[k] <= MAXBITS
    ensures k >= 3
  {
  }

  /** Everything _tr_flush_block decides on: the trees, ready to be sent, and the exact sizes. */
  ghost predicate Plan(lfc: seq<nat>, ldl: seq<nat>, lcodes: nat, dfc: seq<nat>, ddl: seq<nat>, dcodes: nat,
                       bfc: seq<nat>, bdl: seq<nat>, blcodes: nat, ts: seq<Token>, opt: nat, stat: nat)
  {
    && Guarded(ldl, lcodes) && Guarded(ddl, dcodes) && |bdl| >= BL_CODES
    && Sound(ldl[..lcodes], ddl[..dcodes], bdl[..BL_CODES], blcodes)
    && CodesFor(lfc, ldl[..lcodes]) && CodesFor(dfc, ddl[..dcodes]) && CodesFor(bfc, bdl[..BL_CODES])
    && AllSendable(ldl[..lcodes], ddl[..dcodes], ts) && HasCode(ldl[..lcodes], END_BLOCK)
    && opt == |HeaderBits(ldl[..lcodes], ddl[..dcodes], bdl[..BL_CODES], blcodes)|
           + |BodyBits(ldl[..lcodes], ddl[..dcodes], ts)|
    && GoodTokens(ts) && AllSendable(FixedLens(), FixedDists(), ts) && HasCode(FixedLens(), END_BLOCK)
    && stat == |BodyBits(FixedLens(), FixedDists(), ts)|
  }

  lemma MakeSound(lf: seq<nat>, lfc: seq<nat>, ldl: seq<nat>, lcodes: nat, df: seq<nat>, dfc: seq<nat>, ddl: seq<nat>,
                  dcodes: nat, bf: seq<nat>, bfc: seq<nat>, bdl: seq<nat>, bcodes: nat, blcodes: nat, ts: seq<Token>)
    requires FreqsOf(lf, df, ts) && Finished(lf, lfc, ldl, L_CODES, lcodes, MAXBITS)
    requires Finished(df, dfc, ddl, D_CODES, dcodes, MAXBITS) && Finished(bf, bfc, bdl, BL_CODES, bcodes, 7)
    requires FreqsBl(bf, TreeItems(ldl[..lcodes]), TreeItems(ddl[..dcodes]))
    requires 4 <= blcodes <= 19 && ZeroFrom(bdl[..BL_CODES], blcodes)
    ensures BL_CODES <= |bdl| && Sound(ldl[..lcodes], ddl[..dcodes], bdl[..BL_CODES], blcodes)
    ensures CodesFor(bfc, bdl[..BL_CODES])
  {
    hide Accepted, FreqsOf, FreqsBl, Space, Pow2, CodesFor, AllOk, TreeItems, LengthsOk, AllSendable;
    CompleteAccepted(LENS, ldl[..lcodes]);
    CompleteAccepted(DISTS, ddl[..dcodes]);
    BuiltWhole(bf, bfc, bdl, BL_CODES, bcodes, 7);
    CompleteAccepted(CODES, bdl[..BL_CODES]);
    ItemsHaveCodes(bf, bfc, bdl, bcodes, TreeItems(ldl[..lcodes]), TreeItems(ddl[..dcodes]));
    BuiltSendable(lf, lfc, ldl, lcodes, df, dfc, ddl, dcodes, ts);
  }

  lemma MakePlan(lf: seq<nat>, lfc: seq<nat>, ldl: seq<nat>, ldl': seq<nat>, lcodes: nat, df: seq<nat>, dfc: seq<nat>,
                 ddl: seq<nat>, ddl': seq<nat>, dcodes: nat, bf: seq<nat>, bfc: seq<nat>, bdl: seq<nat>, bcodes: nat,
                 blcodes: nat, ts: seq<Token>, opt: nat, stat: nat)
    requires FreqsOf(lf, df, ts) && Finished(lf, lfc, ldl, L_CODES, lcodes, MAXBITS) && |lf| == |ldl| && |df| == |ddl|
    requires Finished(df, dfc, ddl, D_CODES, dcodes, MAXBITS) && Finished(bf, bfc, bdl, BL_CODES, bcodes, 7)
    requires |bf| == |bdl|
    requires lcodes < |ldl| && dcodes < |ddl| && ldl' == ldl[lcodes := GUARD] && ddl' == ddl[dcodes := GUARD]
    requires FreqsBl(bf, TreeItems(ldl[..lcodes]), TreeItems(ddl[..dcodes]))
    requires 4 <= blcodes <= 19 && ZeroFrom(bdl[..BL_CODES], blcodes)
    requires opt == Sum(lf, ldl, LDesc()) + Sum(df, ddl, DDesc()) + Sum(bf, bdl, BlDesc()) + 3 * blcodes + 14
    requires stat == Sum(lf, Statics(LDesc(), |lf|), LDesc()) + Sum(df, Statics(DDesc(), |df|), DDesc())
    ensures Plan(lfc, ldl', lcodes, dfc, ddl', dcodes, bfc, bdl, blcodes, ts, opt, stat)
  {
    hide *;
    BuiltSizes(lf, lfc, ldl, L_CODES, lcodes, MAXBITS);
    BuiltSizes(df, dfc, ddl, D_CODES, dcodes, MAXBITS);
    BuiltSizes(bf, bfc, bdl, BL_CODES, bcodes, 7);
    MakeSound(lf, lfc, ldl, lcodes, df, dfc, ddl, dcodes, bf, bfc, bdl, bcodes, blcodes, ts);
    BuiltSendable(lf, lfc, ldl, lcodes, df, dfc, ddl, dcodes, ts);
    BodyCost(lf, ldl, lcodes, df, ddl, dcodes, ts);
    HeaderCost(ldl[..lcodes], ddl[..dcodes], bf, bdl, blcodes);
    StaticCost(lf, df, ts);
    assert ldl'[..lcodes] == ldl[..lcodes] && ddl'[..dcodes] == ddl[..dcodes];
    FinishPlan(lfc, ldl', lcodes, dfc, ddl', dcodes, bfc, bdl, blcodes, ts, opt, stat);
  }

  lemma FinishPlan(lfc: seq<nat>, ldl: seq<nat>, lcodes: nat, dfc: seq<nat>, ddl: seq<nat>, dcodes: nat,
                   bfc: seq<nat>, bdl: seq<nat>, blcodes: nat, ts: seq<Token>, opt: nat, stat: nat)
    requires lcodes < |ldl| && dcodes < |ddl| && ldl[lcodes] == GUARD && ddl[dcodes] == GUARD && |bdl| >= BL_CODES
    requires LengthsOk(ldl[..lcodes]) && LengthsOk(ddl[..dcodes])
    requires Sound(ldl[..lcodes], ddl[..dcodes], bdl[..BL_CODES], blcodes)
    requires CodesFor(lfc, ldl[..lcodes]) && CodesFor(dfc, ddl[..dcodes]) && CodesFor(bfc, bdl[..BL_CODES])
    requires AllSendable(ldl[..lcodes], ddl[..dcodes], ts) && HasCode(ldl[..lcodes], END_BLOCK)
    requires opt == |HeaderBits(ldl[..lcodes], ddl[..dcodes], bdl[..BL_CODES], blcodes)|
                 + |BodyBits(ldl[..lcodes], ddl[..dcodes], ts)|
    requires GoodTokens(ts) && AllSendable(FixedLens(), FixedDists(), ts) && HasCode(FixedLens(), END_BLOCK)
    requires stat == |BodyBits(FixedLens(), FixedDists(), ts)|
    ensures Plan(lfc, ldl, lcodes, dfc, ddl, dcodes, bfc, bdl, blcodes, ts, opt, stat)
  {
    hide LengthsOk, Sound, CodesFor, AllSendable, HasCode, HeaderBits, BodyBits, FixedLens, FixedDists, GoodTokens;
  }

  /** The three trees of one deflate_state. */
  ghost predicate Trees(l: TreeState, d: TreeState, bl: TreeState)
    reads l, d, bl
  {
    && l.Sized() && d.Sized() && bl.Sized()
    && l.desc == LDesc() && d.desc == DDesc() && bl.desc == BlDesc()
    && l != d && l != bl && d != bl && l.heap != d.heap && l.heap != bl.heap && d.heap != bl.heap
  }

  /** scan_tree on one of the trees. */
  method Scan(tree: TreeState, bl: TreeState)
    requires tree != bl && tree.Sized() && bl.Sized() && 0 <= tree.maxCode + 1 <= tree.desc.elems
    requires LengthsOk(tree.dl[..tree.maxCode + 1]) && bl.desc.elems == BL_CODES
    modifies tree`dl, bl`fc
    ensures tree.Sized() && bl.Sized() && tree.dl == old(tree.dl)[tree.maxCode + 1 := GUARD]
    ensures Scanned(old(bl.fc), bl.fc, TreeItems(old(tree.dl)[..tree.maxCode + 1]))
  {
    hide Scanned, TreeItems, LengthsOk, ExtraBits;
    var dl: seq<nat>, freq: seq<nat> := ScanTree(tree.dl, tree.maxCode + 1, bl.fc);
    ScannedSize(bl.fc, freq, TreeItems(tree.dl[..tree.maxCode + 1]));
    tree.dl := dl;
    bl.fc := freq;
  }

  lemma ScannedSize(f: seq<nat>, g: seq<nat>, items: seq<Item>)
    requires Scanned(f, g, items)
    ensures |g| == |f|
  {
  }

  lemma TreesParts(l: TreeState, d: TreeState, bl: TreeState)
    requires Trees(l, d, bl)
    ensures l.Sized() && d.Sized() && bl.Sized()
    ensures l.desc == LDesc() && d.desc == DDesc() && bl.desc == BlDesc()
    ensures l != d && l != bl && d != bl && l.heap != d.heap && l.heap != bl.heap && d.heap != bl.heap
  {
    hide FixedLens, EXTRA_LBITS, EXTRA_DBITS, EXTRA_BLBITS, TreeState.Sized;
  }

  lemma MakeTrees(l: TreeState, d: TreeState, bl: TreeState)
    requires l.Sized() && d.Sized() && bl.Sized()
    requires l.desc == LDesc() && d.desc == DDesc() && bl.desc == BlDesc()
    requires l != d && l != bl && d != bl && l.heap != d.heap && l.heap != bl.heap && d.heap != bl.heap
    ensures Trees(l, d, bl)
  {
    hide FixedLens, EXTRA_LBITS, EXTRA_DBITS, EXTRA_BLBITS, TreeState.Sized;
  }

  lemma DescParts()
    ensures LDesc().elems == L_CODES && LDesc().maxLength == MAXBITS && LDesc().staticLens != []
    ensures DDesc().elems == D_CODES && DDesc().maxLength == MAXBITS && DDesc().staticLens != []
    ensures BlDesc().elems == BL_CODES && BlDesc().maxLength == 7 && BlDesc().staticLens == []
    ensures LDesc().staticLens == FixedLens()
  {
    hide EXTRA_LBITS, EXTRA_DBITS, EXTRA_BLBITS;
  }

  /** Lines 928-942 and build_bl_tree: the trees of the block and what they will cost. */
  method BuildTrees(l: TreeState, d: TreeState, bl: TreeState, ghost ts: seq<Token>)
    returns (opt: nat, stat: nat, blcodes: nat)
    requires Trees(l, d, bl) && FreqsOf(l.fc, d.fc, ts)
    requires forall x :: 0 <= x < BL_CODES && x < |bl.fc| ==> bl.fc[x] == 0
    modifies l, d, bl, l.heap, d.heap, bl.heap
    ensures Trees(l, d, bl) && 0 <= l.maxCode + 1 && 0 <= d.maxCode + 1
    ensures Plan(l.fc, l.dl, l.maxCode + 1, d.fc, d.dl, d.maxCode + 1, bl.fc, bl.dl, blcodes, ts, opt, stat)
    ensures Small(ts) ==> Best(l.dl, l.maxCode + 1, d.dl, d.maxCode + 1, ts)
  {
    hide *;
    TreesParts(l, d, bl);
    DescParts();
    ghost var lf: seq<nat>, df: seq<nat>, f0: seq<nat> := l.fc, d.fc, bl.fc;
    l.SizedParts();
    d.SizedParts();
    bl.SizedParts();
    opt, stat := Build(l, 0, 0);
    opt, stat := Build(d, opt, stat);
    ghost var ldl: seq<nat>, ddl: seq<nat> := l.dl, d.dl;
    BuiltSizes(lf, l.fc, ldl, L_CODES, l.maxCode + 1, MAXBITS);
    BuiltSizes(df, d.fc, ddl, D_CODES, d.maxCode + 1, MAXBITS);
    ghost var a, b := TreeItems(ldl[..l.maxCode + 1]), TreeItems(ddl[..d.maxCode + 1]);
    Scan(l, bl);
    ghost var f1: seq<nat> := bl.fc;
    Scan(d, bl);
    ghost var bf: seq<nat> := bl.fc;
    bl.SizedParts();
    TreeForm(ldl[..l.maxCode + 1]);
    TreeForm(ddl[..d.maxCode + 1]);
    ScannedBl(f0, f1, bf, a, b);
    opt, stat := Build(bl, opt, stat);
    BuiltSizes(bf, bl.fc, bl.dl, BL_CODES, bl.maxCode + 1, 7);
    ItemsHaveCodes(bf, bl.fc, bl.dl, bl.maxCode + 1, a, b);
    BuiltSendable(lf, l.fc, ldl, l.maxCode + 1, df, d.fc, ddl, d.maxCode + 1, ts);
    HasCodeIs(ldl[..l.maxCode + 1], END_BLOCK);
    SomeLength(ldl[..l.maxCode + 1], bl.dl[..BL_CODES]);
    var k: nat := MaxBlIndex(bl.dl[..BL_CODES]);
    blcodes := k + 1;
    opt := opt + 3 * blcodes + 5 + 5 + 4;
    MakePlan(lf, l.fc, ldl, l.dl, l.maxCode + 1, df, d.fc, ddl, d.dl, d.maxCode + 1, bf, bl.fc, bl.dl, bl.maxCode + 1,
             blcodes, ts, opt, stat);
    if Small(ts) {
      BuiltBest(lf, ldl, l.dl, l.maxCode + 1, df, ddl, d.dl, d.maxCode + 1, ts);
    }
    MakeTrees(l, d, bl);
  }

  /** A block of so few tokens that no code in it can get too long: at most 2582. */
  predicate Small(ts: seq<Token>)
  {
    |ts| + 1 < Fib(MAXBITS + 3)
  }

  ghost predicate Best(ldl: seq<nat>, lcodes: nat, ddl: seq<nat>, dcodes: nat, ts: seq<Token>)
  {
    && lcodes <= |ldl| && dcodes <= |ddl|
    && AllSendable(ldl[..lcodes], ddl[..dcodes], ts) && HasCode(ldl[..lcodes], END_BLOCK)
    && LeastBody(ldl[..lcodes], ddl[..dcodes], ts)
  }

  lemma BuiltBest(lf: seq<nat>, ldl: seq<nat>, ldl': seq<nat>, lcodes: nat, df: seq<nat>, ddl: seq<nat>,
                  ddl': seq<nat>, dcodes: nat, ts: seq<Token>)
    requires FreqsOf(lf, df, ts) && Small(ts) && lcodes <= L_CODES && dcodes <= D_CODES
    requires Total(lf[..if L_CODES <= |lf| then L_CODES else 0]) < Fib(MAXBITS + 3) ==> TreeBest(lf, ldl, L_CODES)
    requires Total(df[..if D_CODES <= |df| then D_CODES else 0]) < Fib(MAXBITS + 3) ==> TreeBest(df, ddl, D_CODES)
    requires lcodes < |ldl| && dcodes < |ddl| && ldl' == ldl[lcodes := GUARD] && ddl' == ddl[dcodes := GUARD]
    requires AllSendable(ldl[..lcodes], ddl[..dcodes], ts) && HasCode(ldl[..lcodes], END_BLOCK)
    ensures Best(ldl', lcodes, ddl', dcodes, ts)
  {
    hide FreqsOf, TreeBest, AllSendable, HasCode, LeastBody, Total, Fib;
    FreqSizes(lf, df, ts);
    TokenTotals(lf, df, ts, ldl[..lcodes], ddl[..dcodes]);
    BodyLeast(lf, ldl, lcodes, df, ddl, dcodes, ts);
    assert ldl'[..lcodes] == ldl[..lcodes] && ddl'[..dcodes] == ddl[..dcodes];
  }

  /** The codes of a block in its dynamic form. */
  datatype Codes = Codes(llens: seq<nat>, dlens: seq<nat>, bls: seq<nat>, nbl: nat)

  /** The bits of a block: its type, and the bytes as they are, or the tokens with the fixed codes or its own. */
  ghost predicate BlockIs(before: seq<bool>, sent: seq<bool>, kind: nat, c: Codes, ts: seq<Token>, buf: seq<byte>,
                          last: bool)
  {
    if kind == STORED_BLOCK then
      |buf| < 0x10000 && sent == before + TypeBits(STORED_BLOCK, last) + StoredBits(|before| + 3, buf)
    else if kind == STATIC_TREES then
      && AllSendable(FixedLens(), FixedDists(), ts) && HasCode(FixedLens(), END_BLOCK)
      && sent == before + TypeBits(STATIC_TREES, last) + BodyBits(FixedLens(), FixedDists(), ts)
    else
      && Sound(c.llens, c.dlens, c.bls, c.nbl) && AllSendable(c.llens, c.dlens, ts) && HasCode(c.llens, END_BLOCK)
      && sent == before + TypeBits(DYN_TREES, last) + HeaderBits(c.llens, c.dlens, c.bls, c.nbl)
               + BodyBits(c.llens, c.dlens, ts)
  }

  /** opt and stat are the sizes of the two coded forms, without the block type. */
  ghost predicate Measured(c: Codes, ts: seq<Token>, opt: nat, stat: nat)
  {
    && Sound(c.llens, c.dlens, c.bls, c.nbl) && AllSendable(c.llens, c.dlens, ts) && HasCode(c.llens, END_BLOCK)
    && opt == |HeaderBits(c.llens, c.dlens, c.bls, c.nbl)| + |BodyBits(c.llens, c.dlens, ts)|
    && GoodTokens(ts) && AllSendable(FixedLens(), FixedDists(), ts) && HasCode(FixedLens(), END_BLOCK)
    && stat == |BodyBits(FixedLens(), FixedDists(), ts)|
    && (Small(ts) ==> LeastBody(c.llens, c.dlens, ts))
  }

  lemma MakeMeasured(lfc: seq<nat>, ldl: seq<nat>, lcodes: nat, dfc: seq<nat>, ddl: seq<nat>, dcodes: nat,
                     bfc: seq<nat>, bdl: seq<nat>, blcodes: nat, ts: seq<Token>, opt: nat, stat: nat)
    requires Plan(lfc, ldl, lcodes, dfc, ddl, dcodes, bfc, bdl, blcodes, ts, opt, stat)
    requires Small(ts) ==> Best(ldl, lcodes, ddl, dcodes, ts)
    ensures lcodes <= |ldl| && dcodes <= |ddl| && BL_CODES <= |bdl|
    ensures Measured(Codes(ldl[..lcodes], ddl[..dcodes], bdl[..BL_CODES], blcodes), ts, opt, stat)
  {
    hide Sound, AllSendable, HasCode, HeaderBits, BodyBits, FixedLens, FixedDists, GoodTokens, LeastBody, Small,
      Guarded, CodesFor;
    PlanParts(lfc, ldl, lcodes, dfc, ddl, dcodes, bfc, bdl, blcodes, ts, opt, stat);
  }

  lemma HasCodeIs(lens: seq<nat>, i: nat)
    requires HasCode(lens, i)
    ensures i < |lens| && lens[i] >= 1 && END_BLOCK == 256
  {
  }

  /** The part of deflate_state that holds the current block. */
  class Block {
    const w: Writer
    const l: TreeState
    const d: TreeState
    const bl: TreeState
    const slcodes: seq<nat>
    const sdcodes: seq<nat>
    const litBufsize: nat
    var dBuf: seq<nat>
    var lBuf: seq<byte>

    ghost predicate Shape()
      reads this, w, l, d, bl
    {
      && w.Valid() && Trees(l, d, bl)
      && CodesFor(slcodes, FixedLens()) && CodesFor(sdcodes, SentDists())
      && |dBuf| == |lBuf|
    }

    ghost function Toks(): seq<Token>
      requires |dBuf| == |lBuf|
      reads this
    {
      TokensOf(dBuf, lBuf)
    }

    ghost predicate Valid()
      reads this, w, l, d, bl
    {
      Shape() && FreqsOf(l.fc, d.fc, Toks()) && forall x :: 0 <= x < BL_CODES && x < |bl.fc| ==> bl.fc[x] == 0
    }

    constructor (w: Writer, litBufsize: nat)
      requires w.Valid()
      ensures Valid() && this.w == w && Toks() == [] && fresh(l) && fresh(d) && fresh(bl)
      ensures fresh(l.heap) && fresh(d.heap) && fresh(bl.heap) && this.litBufsize == litBufsize
    {
      this.w := w;
      this.litBufsize := litBufsize;
      l := new TreeState(LDesc(), seq(2 * L_CODES + 1, i => if i == END_BLOCK then 1 else 0));
      d := new TreeState(DDesc(), seq(2 * D_CODES + 1, _ => 0));
      bl := new TreeState(BlDesc(), seq(2 * BL_CODES + 1, _ => 0));
      var sl, sd := StaticCodes();
      slcodes, sdcodes := sl, sd;
      dBuf, lBuf := [], [];
      new;
      NewBlock(l.fc, d.fc);
      DescsFit();
      assert TokensOf([], []) == [];
    }

    /** _tr_tally, lines 1014-1059: true when the block must be flushed. */
    method Tally(dist: nat, lc: byte) returns (full: bool)
      requires Valid() && dist <= 32768
      modifies this`dBuf, this`lBuf, l`fc, d`fc
      ensures Valid() && Toks() == old(Toks()) + [TokenOf(dist, lc)]
      ensures |lBuf| == |old(lBuf)| + 1 && full == (|lBuf| == litBufsize - 1)
    {
      hide FixedLens, CodesFor, FreqsOf, SentDists, EXTRA_LBITS, EXTRA_DBITS, EXTRA_BLBITS, LengthParts, DistParts;
      ghost var lf, df, t := l.fc, d.fc, TokenOf(dist, lc);
      FreqSizes(l.fc, d.fc, Toks());
      ToksSnoc(dBuf, lBuf, dist, lc);
      SymsRange(t);
      dBuf, lBuf := dBuf + [dist], lBuf + [lc];
      if dist == 0 {
        l.fc := l.fc[lc := l.fc[lc] + 1];
      } else {
        var c: nat, e: nat := LengthParts(lc + 3).code, DistParts(dist).code;
        l.fc := l.fc[257 + c := l.fc[257 + c] + 1];
        d.fc := d.fc[e := d.fc[e] + 1];
      }
      TallyFreqs(lf, df, old(Toks()), t, l.fc, d.fc);
      full := |lBuf| == litBufsize - 1;
    }

    /** The codes that the trees hold. */
    ghost predicate Holds(c: Codes)
      reads l`dl, l`maxCode, d`dl, d`maxCode, bl`dl
    {
      && 0 <= l.maxCode + 1 <= |l.dl| && c.llens == l.dl[..l.maxCode + 1]
      && 0 <= d.maxCode + 1 <= |d.dl| && c.dlens == d.dl[..d.maxCode + 1]
      && BL_CODES <= |bl.dl| && c.bls == bl.dl[..BL_CODES]
    }

    /** _tr_flush_block, lines 911-1008, for a level above 0. The bits are a block that conveys
        the tokens, and its size is exactly what was computed. Except under Z_FIXED it is at most 17
        bits larger than the smallest of the three forms, and it is the smallest exactly where
        PicksLeast says so. opt and stat measure the forms with the trees' codes and the fixed codes. */
    method FlushBlock(buf: seq<byte>, haveBuf: bool, storedLen: nat, last: bool, fixed: bool, ghost out: seq<byte>,
                      ghost far: nat)
      returns (kind: nat, ghost opt: nat, ghost stat: nat, ghost sent: seq<bool>, ghost c: Codes)
      requires Valid() && Conveys(w.Written(), out, false, far) && Expandable(out, Toks()) && Reach(Toks(), far)
      requires haveBuf ==> |buf| == storedLen < 0x10000 && Expand(out, Toks()) == out + buf
      modifies this`dBuf, this`lBuf, w, l, d, bl, l.heap, d.heap, bl.heap
      ensures Valid() && Toks() == [] && lBuf == []
      ensures !last ==> sent == w.Written() && Conveys(sent, Expand(out, old(Toks())), false, far)
      ensures last ==> w.biValid == 0 && w.Written() == sent + Zeros(Padding(|sent|)) == BytesBits(w.pending)
      ensures last ==> Delivers(w.Written(), Expand(out, old(Toks())), far)
      ensures kind == DYN_TREES ==> |sent| == |old(w.Written())| + 3 + opt
      ensures kind == STATIC_TREES ==> |sent| == |old(w.Written())| + 3 + stat
      ensures kind == STORED_BLOCK ==> |sent| == |old(w.Written())| + StoredSize(|old(w.Written())|, storedLen)
      ensures Measured(c, old(Toks()), opt, stat) && Holds(c)
      ensures BlockIs(old(w.Written()), sent, kind, c, old(Toks()), buf, last)
      ensures kind == Choice(opt, stat, storedLen, haveBuf, fixed)
      ensures var size, pos := |sent| - |old(w.Written())|, |old(w.Written())|;
        && (Least(size, opt, stat, pos, storedLen, haveBuf, 0)
            <==> PicksLeast(opt, stat, pos, storedLen, haveBuf, fixed))
        && (!fixed ==> Least(size, opt, stat, pos, storedLen, haveBuf, 17))
        && (!fixed && kind == STATIC_TREES ==> Least(size, opt, stat, pos, storedLen, haveBuf, 7))
        && (kind == DYN_TREES ==> Least(size, opt, stat, pos, storedLen, haveBuf, 0))
    {
      hide *;
      ValidParts();
      ShapeParts();
      ghost var ts, pos := Toks(), |w.Written()|;
      var o: nat, s: nat, blcodes: nat := BuildTrees(l, d, bl, ts);
      opt, stat := o, s;
      MakeMeasured(l.fc, l.dl, l.maxCode + 1, d.fc, d.dl, d.maxCode + 1, bl.fc, bl.dl, blcodes, ts, o, s);
      c := Codes(l.dl[..l.maxCode + 1], d.dl[..d.maxCode + 1], bl.dl[..BL_CODES], blcodes);
      MakeHolds(c);
      MakeShape();
      kind := Choice(o, s, storedLen, haveBuf, fixed);
      ChoiceRange(o, s, storedLen, haveBuf, fixed);
      Kinds();
      ChoiceSize(o, s, pos, storedLen, haveBuf, fixed);
      sent := SendBlock(kind, buf, haveBuf, storedLen, last, blcodes, out, far, o, s, c);
      if last {
        ShapeParts();
        Windup(w);
        DeliversPadded(sent, Expand(out, ts), far);
        MakeShape();
      }
      InitBlock();
    }

    /** Lines 962-993: the block in the chosen form. */
    method SendBlock(kind: nat, buf: seq<byte>, haveBuf: bool, storedLen: nat, last: bool, blcodes: nat,
                     ghost out: seq<byte>, ghost far: nat, ghost opt: nat, ghost stat: nat, ghost c: Codes)
      returns (ghost sent: seq<bool>)
      requires Shape() && Conveys(w.Written(), out, false, far) && Expandable(out, Toks()) && Reach(Toks(), far)
      requires kind <= 2
      requires kind == STORED_BLOCK ==> haveBuf
      requires haveBuf ==> |buf| == storedLen < 0x10000 && Expand(out, Toks()) == out + buf
      requires 0 <= l.maxCode + 1 && 0 <= d.maxCode + 1 && Holds(c) && c.nbl == blcodes
      requires Plan(l.fc, l.dl, l.maxCode + 1, d.fc, d.dl, d.maxCode + 1, bl.fc, bl.dl, blcodes, Toks(), opt, stat)
      modifies w
      ensures Shape() && sent == w.Written() && Conveys(sent, Expand(out, Toks()), last, far)
      ensures BlockIs(old(w.Written()), sent, kind, c, Toks(), buf, last)
      ensures kind == DYN_TREES ==> |sent| == |old(w.Written())| + 3 + opt
      ensures kind == STATIC_TREES ==> |sent| == |old(w.Written())| + 3 + stat
      ensures kind == STORED_BLOCK ==> |sent| == |old(w.Written())| + StoredSize(|old(w.Written())|, storedLen)
    {
      hide *;
      Kinds();
      ShapeParts();
      ghost var ts, w0 := Toks(), w.Written();
      PlanParts(l.fc, l.dl, l.maxCode + 1, d.fc, d.dl, d.maxCode + 1, bl.fc, bl.dl, blcodes, ts, opt, stat);
      if kind == STORED_BLOCK {
        StoredBlock(w, buf, last);
        ConveysStored(w0, out, buf, last, far);
        StoredBitsSize(|w0|, buf, last);
        StoredIs(w0, w.Written(), c, ts, buf, last);
      } else if kind == STATIC_TREES {
        SendStatic(w, dBuf, lBuf, slcodes, sdcodes, last, out, far);
        StaticIs(w0, w.Written(), c, ts, last);
        CodedIs(w0, w.Written(), kind, c, ts, buf, last);
      } else {
        HoldsIs(c);
        SendDynamic(w, dBuf, lBuf, l.fc, l.dl, l.maxCode + 1, d.fc, d.dl, d.maxCode + 1, bl.fc, bl.dl, blcodes, last,
                    out, far, opt, stat);
        CodedIs(w0, w.Written(), kind, c, ts, buf, last);
      }
      sent := w.Written();
      MakeShape();
    }

    lemma HoldsIs(c: Codes)
      requires Holds(c)
      ensures 0 <= l.maxCode + 1 <= |l.dl| && 0 <= d.maxCode + 1 <= |d.dl| && BL_CODES <= |bl.dl|
      ensures c == Codes(l.dl[..l.maxCode + 1], d.dl[..d.maxCode + 1], bl.dl[..BL_CODES], c.nbl)
    {
    }

    lemma MakeHolds(c: Codes)
      requires 0 <= l.maxCode + 1 <= |l.dl| && 0 <= d.maxCode + 1 <= |d.dl| && BL_CODES <= |bl.dl|
      requires c.llens == l.dl[..l.maxCode + 1] && c.dlens == d.dl[..d.maxCode + 1] && c.bls == bl.dl[..BL_CODES]
      ensures Holds(c)
    {
    }

    lemma ShapeParts()
      requires Shape()
      ensures w.Valid() && Trees(l, d, bl) && CodesFor(slcodes, FixedLens()) && CodesFor(sdcodes, SentDists())
      ensures |dBuf| == |lBuf| && Toks() == TokensOf(dBuf, lBuf)
    {
      hide FixedLens, CodesFor, Trees, SentDists, Writer.Valid;
    }

    lemma MakeShape()
      requires w.Valid() && Trees(l, d, bl) && CodesFor(slcodes, FixedLens()) && CodesFor(sdcodes, SentDists())
      requires |dBuf| == |lBuf|
      ensures Shape()
    {
      hide FixedLens, CodesFor, Trees, SentDists, Writer.Valid;
    }

    lemma ValidParts()
      requires Valid()
      ensures Shape() && |dBuf| == |lBuf| && FreqsOf(l.fc, d.fc, Toks())
      ensures forall x :: 0 <= x < BL_CODES && x < |bl.fc| ==> bl.fc[x] == 0
    {
      hide FixedLens, CodesFor, Trees, SentDists, Writer.Valid, FreqsOf;
    }

    /** init_block, lines 407-420. */
    method InitBlock()
      requires Shape()
      modifies this`dBuf, this`lBuf, l`fc, d`fc, bl`fc
      ensures Valid() && Toks() == [] && lBuf == []
    {
      hide FixedLens, CodesFor, FreqsOf, SentDists, EXTRA_LBITS, EXTRA_DBITS, EXTRA_BLBITS;
      var lf: seq<nat> := Zeroed(l.fc, L_CODES);
      lf := lf[END_BLOCK := 1];
      var df: seq<nat> := Zeroed(d.fc, D_CODES);
      var bf: seq<nat> := Zeroed(bl.fc, BL_CODES);
      l.fc, d.fc, bl.fc := lf, df, bf;
      dBuf, lBuf := [], [];
      NewBlock(lf, df);
      assert TokensOf([], []) == [];
    }
  }

  /** Lines 945-985: which of the three forms to send. The two coded forms are compared in whole bytes, and
      the stored form is counted without its three bits of block type and the padding after them. */
  function Choice(opt: nat, stat: nat, storedLen: nat, haveBuf: bool, fixed: bool): nat
  {
    var optb, statb := (opt + 3 + 7) / 8, (stat + 3 + 7) / 8;
    var best := if statb <= optb then statb else optb;
    if storedLen + 4 <= best && haveBuf then STORED_BLOCK
    else if fixed || statb == best then STATIC_TREES
    else DYN_TREES
  }

  /** The bits of a stored block of n bytes that begins after pos bits. */
  function StoredSize(pos: nat, n: nat): nat
  {
    3 + Padding(pos + 3) + 32 + 8 * n
  }

  /** No form that could be sent is more than `slack` bits smaller than size. */
  predicate Least(size: int, opt: nat, stat: nat, pos: nat, storedLen: nat, haveBuf: bool, slack: nat)
  {
    && size <= 3 + opt + slack && size <= 3 + stat + slack
    && (haveBuf ==> size <= StoredSize(pos, storedLen) + slack)
  }

  /** When the form chosen is the smallest. A stored block is chosen as soon as its length words and bytes
      take at most ten bits more than the codes; it has to make up for the padding too. A static block has to
      be no larger than the dynamic one, which rounding to bytes and Z_FIXED do not ask for. */
  predicate PicksLeast(opt: nat, stat: nat, pos: nat, storedLen: nat, haveBuf: bool, fixed: bool)
  {
    var coded := if opt < stat then opt else stat;
    if haveBuf && 8 * storedLen + 32 <= coded + 10 then 8 * storedLen + 32 + Padding(pos + 3) <= coded
    else stat <= opt || (!fixed && (stat + 10) / 8 > (opt + 10) / 8)
  }

  function SizeOf(kind: nat, opt: nat, stat: nat, pos: nat, storedLen: nat): nat
  {
    if kind == STORED_BLOCK then StoredSize(pos, storedLen) else if kind == STATIC_TREES then 3 + stat else 3 + opt
  }

  lemma ChoiceSize(opt: nat, stat: nat, pos: nat, storedLen: nat, haveBuf: bool, fixed: bool)
    ensures var kind := Choice(opt, stat, storedLen, haveBuf, fixed);
      && var size := SizeOf(kind, opt, stat, pos, storedLen);
      && (kind == STORED_BLOCK ==> size == StoredSize(pos, storedLen))
      && (kind == STATIC_TREES ==> size == 3 + stat) && (kind == DYN_TREES ==> size == 3 + opt)
      && (Least(size, opt, stat, pos, storedLen, haveBuf, 0) <==> PicksLeast(opt, stat, pos, storedLen, haveBuf, fixed))
      && (!fixed ==> Least(size, opt, stat, pos, storedLen, haveBuf, 17))
      && (!fixed && kind == STATIC_TREES ==> Least(size, opt, stat, pos, storedLen, haveBuf, 7))
      && (kind == DYN_TREES ==> Least(size, opt, stat, pos, storedLen, haveBuf, 0))
  {
    hide Align;
    PaddingBound(pos + 3);
  }

  lemma PaddingBound(n: nat)
    ensures 0 <= Padding(n) <= 7
  {
  }

  /** Where the form chosen is not the smallest: a stored block 17 bits larger than the dynamic one, a static
      block 7 bits larger, and with Z_FIXED a static block of any size. */
  lemma ChoiceMisses(extra: nat)
    ensures Choice(822, 900, 100, true, false) == STORED_BLOCK && StoredSize(6, 100) == 3 + 822 + 17
    ensures Choice(798, 805, 1000, true, false) == STATIC_TREES
    ensures Choice(100, 100 + extra, 1000, false, true) == STATIC_TREES
    ensures !PicksLeast(822, 900, 6, 100, true, false) && !PicksLeast(798, 805, 0, 1000, true, false)
    ensures extra > 0 ==> !PicksLeast(100, 100 + extra, 0, 1000, false, true)
  {
  }

  lemma StoredBitsSize(pos: nat, data: seq<byte>, last: bool)
    requires |data| < 0x10000
    ensures |TypeBits(STORED_BLOCK, last)| + |StoredBits(pos + 3, data)| == StoredSize(pos, |data|)
  {
    hide BytesBits, BitsOf, Align;
    TypeSize(STORED_BLOCK, last);
    BytesSize(data);
  }

  lemma BytesSize(data: seq<byte>)
    ensures |BytesBits(data)| == 8 * |data|
  {
  }

  lemma ChoiceRange(opt: nat, stat: nat, storedLen: nat, haveBuf: bool, fixed: bool)
    ensures var k := Choice(opt, stat, storedLen, haveBuf, fixed); k <= 2 && (k == STORED_BLOCK ==> haveBuf)
  {
  }

  lemma Kinds()
    ensures STORED_BLOCK == 0 && STATIC_TREES == 1 && DYN_TREES == 2
  {
  }

  /** Lines 978-980. */
  method SendStatic(w: Writer, dBuf: seq<nat>, lBuf: seq<byte>, slcodes: seq<nat>, sdcodes: seq<nat>, last: bool,
                    ghost out: seq<byte>, ghost far: nat)
    requires w.Valid() && |dBuf| == |lBuf| && CodesFor(slcodes, FixedLens()) && CodesFor(sdcodes, SentDists())
    requires GoodTokens(TokensOf(dBuf, lBuf)) && Conveys(w.Written(), out, false, far)
    requires Expandable(out, TokensOf(dBuf, lBuf)) && Reach(TokensOf(dBuf, lBuf), far)
    requires AllSendable(FixedLens(), FixedDists(), TokensOf(dBuf, lBuf)) && HasCode(FixedLens(), END_BLOCK)
    modifies w
    ensures w.Valid() && Conveys(w.Written(), Expand(out, TokensOf(dBuf, lBuf)), last, far)
    ensures |w.Written()| == |old(w.Written())| + 3 + |BodyBits(FixedLens(), FixedDists(), TokensOf(dBuf, lBuf))|
    ensures w.Written()
         == old(w.Written()) + TypeBits(STATIC_TREES, last) + BodyBits(FixedLens(), FixedDists(), TokensOf(dBuf, lBuf))
  {
    hide *;
    ghost var w0, ts := w.Written(), TokensOf(dBuf, lBuf);
    Kinds();
    TypeValue(STATIC_TREES, last);
    SendType(w, STATIC_TREES, last);
    BodySame(ts);
    FixedOk();
    CompressBlock(w, dBuf, lBuf, slcodes, FixedLens(), sdcodes, SentDists());
    ConveysFixed(w0, out, ts, last, far);
    TypeSize(STATIC_TREES, last);
  }

  lemma FixedOk()
    ensures LengthsOk(FixedLens()) && LengthsOk(SentDists())
  {
    hide FixedLens, FixedDists, Occ, Space, Pow2, OverSubscribed, Incomplete, RootCovers;
    FixedAccepted();
  }

  method SendType(w: Writer, kind: nat, last: bool)
    requires w.Valid() && kind <= 2
    modifies w
    ensures w.Valid() && w.Written() == old(w.Written()) + TypeBits(kind, last)
  {
    hide BytesBits, BitsOf, Pow2;
    TypeValue(kind, last);
    w.SendBits(2 * kind + if last then 1 else 0, 3);
  }

  /** Lines 985-989. */
  lemma DynamicIs(before: seq<bool>, sent: seq<bool>, c: Codes, ts: seq<Token>, last: bool)
    requires Sound(c.llens, c.dlens, c.bls, c.nbl) && AllSendable(c.llens, c.dlens, ts) && HasCode(c.llens, END_BLOCK)
    requires sent == before + TypeBits(DYN_TREES, last) + HeaderBits(c.llens, c.dlens, c.bls, c.nbl)
                   + BodyBits(c.llens, c.dlens, ts)
    ensures BlockIs(before, sent, DYN_TREES, c, ts, [], last)
  {
    hide Sound, AllSendable, HasCode, TypeBits, HeaderBits, BodyBits;
  }

  lemma StaticIs(before: seq<bool>, sent: seq<bool>, c: Codes, ts: seq<Token>, last: bool)
    requires AllSendable(FixedLens(), FixedDists(), ts) && HasCode(FixedLens(), END_BLOCK)
    requires sent == before + TypeBits(STATIC_TREES, last) + BodyBits(FixedLens(), FixedDists(), ts)
    ensures BlockIs(before, sent, STATIC_TREES, c, ts, [], last)
  {
    hide AllSendable, HasCode, TypeBits, BodyBits, FixedLens, FixedDists;
  }

  lemma StoredIs(before: seq<bool>, sent: seq<bool>, c: Codes, ts: seq<Token>, buf: seq<byte>, last: bool)
    requires |buf| < 0x10000 && sent == before + TypeBits(STORED_BLOCK, last) + StoredBits(|before| + 3, buf)
    ensures BlockIs(before, sent, STORED_BLOCK, c, ts, buf, last)
  {
    hide TypeBits, StoredBits;
  }

  /** Only a stored block has the bytes themselves. */
  lemma CodedIs(before: seq<bool>, sent: seq<bool>, kind: nat, c: Codes, ts: seq<Token>, buf: seq<byte>, last: bool)
    requires BlockIs(before, sent, kind, c, ts, [], last) && kind != STORED_BLOCK
    ensures BlockIs(before, sent, kind, c, ts, buf, last)
  {
    hide Sound, AllSendable, HasCode, TypeBits, HeaderBits, BodyBits, FixedLens, FixedDists, StoredBits;
  }

  method SendDynamic(w: Writer, dBuf: seq<nat>, lBuf: seq<byte>, lfc: seq<nat>, ldl: seq<nat>, lcodes: nat,
                     dfc: seq<nat>, ddl: seq<nat>, dcodes: nat, bfc: seq<nat>, bdl: seq<nat>, blcodes: nat, last: bool,
                     ghost out: seq<byte>, ghost far: nat, ghost opt: nat, ghost stat: nat)
    requires w.Valid() && |dBuf| == |lBuf| && Conveys(w.Written(), out, false, far)
    requires Expandable(out, TokensOf(dBuf, lBuf)) && Reach(TokensOf(dBuf, lBuf), far)
    requires Plan(lfc, ldl, lcodes, dfc, ddl, dcodes, bfc, bdl, blcodes, TokensOf(dBuf, lBuf), opt, stat)
    modifies w
    ensures w.Valid() && Conveys(w.Written(), Expand(out, TokensOf(dBuf, lBuf)), last, far)
    ensures |w.Written()| == |old(w.Written())| + 3 + opt
    ensures lcodes <= |ldl| && dcodes <= |ddl| && BL_CODES <= |bdl|
    ensures var c := Codes(ldl[..lcodes], ddl[..dcodes], bdl[..BL_CODES], blcodes);
      BlockIs(old(w.Written()), w.Written(), DYN_TREES, c, TokensOf(dBuf, lBuf), [], last)
  {
    hide *;
    ghost var w0, ts := w.Written(), TokensOf(dBuf, lBuf);
    Kinds();
    PlanParts(lfc, ldl, lcodes, dfc, ddl, dcodes, bfc, bdl, blcodes, ts, opt, stat);
    SoundParts(ldl[..lcodes], ddl[..dcodes], bdl[..BL_CODES], blcodes);
    SendType(w, DYN_TREES, last);
    ghost var w1 := w.Written();
    SendAllTrees(w, ldl, lcodes, ddl, dcodes, bdl[..BL_CODES], bfc, blcodes);
    ghost var w2 := w.Written();
    CompressBlock(w, dBuf, lBuf, lfc, ldl[..lcodes], dfc, ddl[..dcodes]);
    ConveysDynamic(w0, out, ldl[..lcodes], ddl[..dcodes], bdl[..BL_CODES], blcodes, ts, last, far);
    TypeSize(DYN_TREES, last);
    DynamicIs(w0, w.Written(), Codes(ldl[..lcodes], ddl[..dcodes], bdl[..BL_CODES], blcodes), ts, last);
  }

  lemma PlanParts(lfc: seq<nat>, ldl: seq<nat>, lcodes: nat, dfc: seq<nat>, ddl: seq<nat>, dcodes: nat,
                  bfc: seq<nat>, bdl: seq<nat>, blcodes: nat, ts: seq<Token>, opt: nat, stat: nat)
    requires Plan(lfc, ldl, lcodes, dfc, ddl, dcodes, bfc, bdl, blcodes, ts, opt, stat)
    ensures lcodes <= |ldl| && dcodes <= |ddl| && |bdl| >= BL_CODES == 19 && Guarded(ldl, lcodes)
    ensures Guarded(ddl, dcodes)
    ensures Sound(ldl[..lcodes], ddl[..dcodes], bdl[..BL_CODES], blcodes)
    ensures CodesFor(lfc, ldl[..lcodes]) && CodesFor(dfc, ddl[..dcodes]) && CodesFor(bfc, bdl[..BL_CODES])
    ensures AllSendable(ldl[..lcodes], ddl[..dcodes], ts) && HasCode(ldl[..lcodes], END_BLOCK)
    ensures opt == |HeaderBits(ldl[..lcodes], ddl[..dcodes], bdl[..BL_CODES], blcodes)|
                + |BodyBits(ldl[..lcodes], ddl[..dcodes], ts)|
    ensures GoodTokens(ts) && AllSendable(FixedLens(), FixedDists(), ts) && HasCode(FixedLens(), END_BLOCK)
    ensures stat == |BodyBits(FixedLens(), FixedDists(), ts)|
  {
    hide LengthsOk, Sound, CodesFor, AllSendable, HasCode, HeaderBits, BodyBits, FixedLens, FixedDists, GoodTokens;
  }

  /** _tr_stored_block, lines 863-881. */
  method StoredBlock(w: Writer, data: seq<byte>, last: bool)
    requires w.Valid() && |data| < 0x10000
    modifies w
    ensures w.Valid()
    ensures w.Written() == old(w.Written()) + TypeBits(STORED_BLOCK, last) + StoredBits(|old(w.Written())| + 3, data)
  {
    hide BytesBits, BitsOf, Pow2;
    TypeValue(STORED_BLOCK, last);
    w.SendBits(2 * STORED_BLOCK + if last then 1 else 0, 3);
    ghost var w1 := w.Written();
    Windup(w);
    ghost var z := Zeros(Padding(|w1|));
    w.PutStored(data);
    assert w.Written() == w1 + (z + (BitsOf(|data|, 16) + (BitsOf(0xFFFF - |data|, 16) + BytesBits(data))));
  }

  /** bi_windup goes to the byte boundary. */
  method Windup(w: Writer)
    requires w.Valid()
    modifies w
    ensures w.Valid() && w.biValid == 0 && w.Written() == BytesBits(w.pending)
    ensures w.Written() == old(w.Written()) + Zeros(Padding(|old(w.Written())|))
  {
    hide BytesBits, BitsOf, Pow2;
    ghost var w1 := w.Written();
    w.BiWindup();
    ghost var pad: nat :| pad <= 7 && w.Written() == w1 + BitsOf(0, pad);
    PadIs(|w1|, pad);
  }

  lemma PadIs(n: nat, pad: nat)
    requires pad <= 7 && (n + pad) % 8 == 0
    ensures pad == Padding(n)
  {
  }

  /** Lines 1021-1034 of trees.c: one more token. */
  lemma TallyFreqs(lf: seq<nat>, df: seq<nat>, ts: seq<Token>, t: Token, lf': seq<nat>, df': seq<nat>)
    requires FreqsOf(lf, df, ts) && GoodToken(t) && LSym(t) < L_CODES
    requires lf' == lf[LSym(t) := lf[LSym(t)] + 1]
    requires if t.Match? then DistParts(t.dist).code < D_CODES
                && df' == df[DistParts(t.dist).code := df[DistParts(t.dist).code] + 1] else df' == df
    ensures FreqsOf(lf', df', ts + [t])
  {
    hide Count, LSym, DistParts;
    assert (ts + [t])[..|ts|] == ts;
    var a, x := LSyms(ts), LSym(t);
    forall y | 0 <= y < L_CODES ensures lf'[y] == Count(a + [x] + [END_BLOCK], y) {
      CountSnoc(a, x, y);
      CountSnoc(a + [x], END_BLOCK, y);
      CountSnoc(a, END_BLOCK, y);
    }
    TallyBelow(a, x);
    if t.Match? {
      var z := DistParts(t.dist).code;
      forall y | 0 <= y < D_CODES ensures df'[y] == Count(DSyms(ts) + [z], y) {
        CountSnoc(DSyms(ts), z, y);
      }
    } else {
      assert DSyms(ts) + [] == DSyms(ts);
    }
  }

  lemma TallyBelow(a: seq<nat>, x: nat)
    requires forall i :: 0 <= i < |a + [END_BLOCK]| ==> (a + [END_BLOCK])[i] < L_CODES
    requires x < L_CODES
    ensures forall i :: 0 <= i < |a + [x] + [END_BLOCK]| ==> (a + [x] + [END_BLOCK])[i] < L_CODES
  {
    forall i | 0 <= i < |a| ensures a[i] < L_CODES {
      assert a[i] == (a + [END_BLOCK])[i];
    }
  }

  lemma ToksSnoc(dBuf: seq<nat>, lBuf: seq<byte>, dist: nat, lc: byte)
    requires |dBuf| == |lBuf|
    ensures TokensOf(dBuf + [dist], lBuf + [lc]) == TokensOf(dBuf, lBuf) + [TokenOf(dist, lc)]
  {
  }

  /** Lines 413-415. */
  method Zeroed(f: seq<nat>, n: nat) returns (r: seq<nat>)
    requires n <= |f|
    ensures |r| == |f| && forall i :: 0 <= i < |f| ==> r[i] == if i < n then 0 else f[i]
  {
    r := f;
    for i := 0 to n
      invariant |r| == |f| && forall j :: 0 <= j < |f| ==> r[j] == if j < i then 0 else f[j]
    {
      r := r[i := 0];
    }
  }

  lemma NewBlock(lf: seq<nat>, df: seq<nat>)
    requires |lf| >= L_CODES && |df| >= D_CODES
    requires forall i :: 0 <= i < L_CODES ==> lf[i] == if i == END_BLOCK then 1 else 0
    requires forall i :: 0 <= i < D_CODES ==> df[i] == 0
    ensures FreqsOf(lf, df, [])
  {
    hide Count;
    forall x: nat ensures Count([END_BLOCK], x) == if x == END_BLOCK then 1 else 0 {
      NoCount(x);
      CountSnoc([], END_BLOCK, x);
      assert [] + [END_BLOCK] == [END_BLOCK];
    }
    forall x: nat ensures Count([], x) == 0 {
      NoCount(x);
    }
    assert LSyms([]) + [END_BLOCK] == [END_BLOCK];
  }

  lemma NoCount(x: nat)
    ensures Count([], x) == 0
  {
  }

  lemma DescsFit()
    ensures L_CODES <= Pow2(MAXBITS) && D_CODES <= Pow2(MAXBITS) && BL_CODES <= Pow2(7) && |FixedLens()| == 288
    ensures forall i :: 0 <= i < 3 ==>
      ExtraBits(LDesc(), i) == 0 && ExtraBits(DDesc(), i) == 0 && ExtraBits(BlDesc(), i) == 0
  {
    assert Pow2(7) == 128 && Pow2(9) == 512;
    Pow2Mono(9, MAXBITS);
  }
}
