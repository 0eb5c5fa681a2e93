/** The three trees of a block: what build_tree leaves for the block's symbols, and the sizes
    of what is sent with them. */
module BlockTrees {
  import opened Powers
  import opened Bits
  import opened BitStreams
  import opened PrefixCodes
  import opened TreeSteps
  import opened BitlenSteps
  import opened Canonical
  import opened TableSpec
  import opened Tokens
  import opened TreeBuilder
  import opened CodeGen
  import opened InflateSpec
  import opened BlockSpec
  import opened CodeLengths
  import opened HeaderSpec
  import opened BlockWriter
  import opened BlockCost

  const BL_CODES: nat := 19
  const D_CODES: nat := 30
  const EXTRA_BLBITS: seq<nat> := [0, 0, 0, 0, 0, 0, 0, 0, 0, 0, 0, 0, 0, 0, 0, 0, 2, 3, 7]

  /** Lines 124-131 of trees.c. */
  function LDesc(): StaticDesc
  {
    StaticDesc(FixedLens(), EXTRA_LBITS, 257, L_CODES, MAXBITS)
  }

  function DDesc(): StaticDesc
  {
    StaticDesc(seq(D_CODES, _ => 5), EXTRA_DBITS, 0, D_CODES, MAXBITS)
  }

  function BlDesc(): StaticDesc
  {
    StaticDesc([], EXTRA_BLBITS, 0, BL_CODES, 7)
  }

  /** What build_tree has made of the frequencies f0. */
  ghost predicate Finished(f0: seq<nat>, fc: seq<nat>, dl: seq<nat>, elems: nat, codes: nat, max: nat)
  {
    && codes <= elems <= |dl| && elems <= |fc| && elems <= |f0|
    && CodesFor(fc, dl[..codes]) && LengthsOk(dl[..codes]) && Space(dl[..codes], MAXBITS) == Pow2(MAXBITS)
    && (forall x :: 0 <= x < elems && f0[x] != 0 ==> x < codes && dl[x] >= 1)
    && (forall x :: 0 <= x < elems ==> dl[x] <= max)
    && (forall x :: codes <= x < elems ==> dl[x] == 0)
  }

  lemma MakeBuilt(f0: seq<nat>, freqs: seq<nat>, fc: seq<nat>, dl: seq<nat>, elems: nat, codes: nat, max: nat,
                  leaves: set<nat>)
    requires codes <= elems <= |dl| && |fc| == |freqs| == |f0| == |dl| && LeavesTo(f0, elems) <= leaves
    requires CompleteCode(leaves, dl, max) && LeafLens(leaves, dl, elems) && LeafLens(leaves, dl, codes)
    requires LengthsOk(dl[..codes]) && Space(dl[..codes], MAXBITS) == Pow2(MAXBITS)
    requires Coded(freqs, fc, dl[..codes], codes)
    ensures Finished(f0, fc, dl, elems, codes, max)
  {
    hide Kraft, Space, Pow2, Code, Rev;
    forall x | 0 <= x < elems && f0[x] != 0 ensures x in leaves {
      assert x in LeavesTo(f0, elems);
    }
  }

  /** A complete set of lengths is accepted, whatever it is for. */
  lemma CompleteAccepted(t: CodeType, lens: seq<nat>)
    requires LengthsOk(lens) && Space(lens, MAXBITS) == Pow2(MAXBITS)
    ensures Accepted(t, lens) && lens != []
  {
    hide Space, Pow2;
    if lens == [] {
      SpaceNone(MAXBITS);
    }
  }

  lemma {:induction false} SpaceNone(b: nat)
    ensures Space([], b) == 0
  {
    if b > 0 {
      SpaceNone(b - 1);
    }
  }

  /** The codes still fit with the unused symbols at the end. */
  lemma BuiltWhole(f0: seq<nat>, fc: seq<nat>, dl: seq<nat>, elems: nat, codes: nat, max: nat)
    requires Finished(f0, fc, dl, elems, codes, max)
    ensures CodesFor(fc, dl[..elems]) && LengthsOk(dl[..elems]) && Space(dl[..elems], MAXBITS) == Pow2(MAXBITS)
  {
    hide Space, Pow2, Code, Rev;
    var lens := dl[..elems];
    assert lens[..codes] == dl[..codes];
    TrailingSpace(lens, codes, MAXBITS);
    forall i | 0 <= i < elems && lens[i] >= 1 ensures fc[i] == Rev(Code(lens, i), lens[i]) {
      TrailingCode(lens, codes, i);
      assert dl[..codes][i] == lens[i];
    }
    forall i | 0 <= i < elems ensures lens[i] <= MAXBITS {
      if i < codes {
        assert lens[i] == dl[..codes][i];
      }
    }
  }

  lemma BuiltSizes(f0: seq<nat>, fc: seq<nat>, dl: seq<nat>, elems: nat, codes: nat, max: nat)
    requires Finished(f0, fc, dl, elems, codes, max)
    ensures codes <= elems <= |dl| && elems <= |fc| && elems <= |f0|
    ensures CodesFor(fc, dl[..codes]) && LengthsOk(dl[..codes]) && Space(dl[..codes], MAXBITS) == Pow2(MAXBITS)
  {
    hide CodesFor, LengthsOk, Space, Pow2;
  }

  lemma {:induction false} CountIn(syms: seq<nat>, i: nat)
    requires i < |syms|
    ensures Count(syms, syms[i]) >= 1
  {
    if i < |syms| - 1 {
      CountIn(syms[..|syms| - 1], i);
    }
  }

  /** Every symbol that is counted has a code. */
  lemma CountedHasCode(f0: seq<nat>, fc: seq<nat>, dl: seq<nat>, elems: nat, codes: nat, max: nat, syms: seq<nat>,
                       i: nat)
    requires Finished(f0, fc, dl, elems, codes, max) && CountsSyms(f0[..elems], syms) && i < |syms|
    ensures syms[i] < elems && HasCode(dl[..codes], syms[i])
  {
    hide Count, Space, CodesFor, LengthsOk;
    CountIn(syms, i);
    assert f0[..elems][syms[i]] == f0[syms[i]];
  }

  lemma {:induction false} LSymAt(ts: seq<Token>, i: nat)
    requires GoodTokens(ts) && i < |ts|
    ensures |LSyms(ts)| == |ts| && LSyms(ts)[i] == LSym(ts[i])
  {
    hide LSym;
    var n := |ts| - 1;
    if i < n {
      LSymAt(ts[..n], i);
    } else if n > 0 {
      LSymAt(ts[..n], 0);
    }
  }

  lemma {:induction false} DSymAt(ts: seq<Token>, i: nat) returns (k: nat)
    requires GoodTokens(ts) && i < |ts| && ts[i].Match?
    ensures k < |DSyms(ts)| && DSyms(ts)[k] == DistParts(ts[i].dist).code
  {
    hide DistParts;
    var n := |ts| - 1;
    if i < n {
      k := DSymAt(ts[..n], i);
    } else {
      k := |DSyms(ts[..n])|;
    }
  }

  /** The frequencies of a block's tokens, with one end-of-block code. */
  ghost predicate FreqsOf(lf: seq<nat>, df: seq<nat>, ts: seq<Token>)
  {
    && |lf| >= L_CODES && |df| >= D_CODES && GoodTokens(ts)
    && CountsSyms(lf[..L_CODES], LSyms(ts) + [END_BLOCK]) && CountsSyms(df[..D_CODES], DSyms(ts))
  }

  /** The trees built from a block's frequencies have codes for all its tokens. */
  lemma BuiltSendable(lf: seq<nat>, lfc: seq<nat>, ldl: seq<nat>, lcodes: nat, df: seq<nat>, dfc: seq<nat>,
                      ddl: seq<nat>, dcodes: nat, ts: seq<Token>)
    requires FreqsOf(lf, df, ts) && Finished(lf, lfc, ldl, L_CODES, lcodes, MAXBITS)
    requires Finished(df, dfc, ddl, D_CODES, dcodes, MAXBITS)
    ensures AllSendable(ldl[..lcodes], ddl[..dcodes], ts) && HasCode(ldl[..lcodes], END_BLOCK)
  {
    hide Finished, CountsSyms, LengthParts, DistParts, HasCode;
    var syms := LSyms(ts) + [END_BLOCK];
    BuiltSizes(lf, lfc, ldl, L_CODES, lcodes, MAXBITS);
    BuiltSizes(df, dfc, ddl, D_CODES, dcodes, MAXBITS);
    CountedHasCode(lf, lfc, ldl, L_CODES, lcodes, MAXBITS, syms, |syms| - 1);
    forall i | 0 <= i < |ts| ensures Sendable(ldl[..lcodes], ddl[..dcodes], ts[i]) {
      LSymAt(ts, i);
      assert syms[i] == LSym(ts[i]);
      CountedHasCode(lf, lfc, ldl, L_CODES, lcodes, MAXBITS, syms, i);
      if ts[i].Match? {
        var k := DSymAt(ts, i);
        CountedHasCode(df, dfc, ddl, D_CODES, dcodes, MAXBITS, DSyms(ts), k);
      }
    }
  }

  /** The symbols of a list of items. */
  function ItemSyms(items: seq<Item>): seq<nat>
  {
    if items == [] then [] else ItemSyms(items[..|items| - 1]) + [items[|items| - 1].sym]
  }

  lemma {:induction false} SentIsCount(items: seq<Item>, x: nat)
    ensures Sent(items, x) == Count(ItemSyms(items), x)
  {
    if items != [] {
      SentIsCount(items[..|items| - 1], x);
      CountSnoc(ItemSyms(items[..|items| - 1]), items[|items| - 1].sym, x);
    }
  }

  predicate AllFormed(items: seq<Item>)
  {
    forall i :: 0 <= i < |items| ==> WellFormed(items[i])
  }

  lemma {:induction false} ItemsForm(lens: seq<nat>, n: nat, prev: int, count: nat)
    requires LengthsOk(lens) && n <= |lens| && (n < |lens| ==> count < MaxCount(prev, lens[n]))
    ensures AllFormed(Items(lens, n, prev, count))
    decreases |lens| - n
  {
    hide Emitted, WellFormed;
    if n < |lens| {
      var cur := lens[n];
      if count + 1 < MaxCount(prev, cur) && cur == Next(lens, n) && n + 1 < |lens| {
        ItemsForm(lens, n + 1, prev, count + 1);
      } else {
        ItemsForm(lens, n + 1, cur, 0);
        var e := Emitted(cur, prev, count + 1);
        forall i | 0 <= i < |e| ensures WellFormed(e[i]) {
          EmittedForm(cur, prev, count + 1, i);
        }
      }
    }
  }

  lemma ItemSize(bl: seq<nat>, it: Item)
    requires ItemOk(bl, it) && WellFormed(it)
    ensures it.sym < 19 && |ItemBits(bl, it)| == bl[it.sym] + EXTRA_BLBITS[it.sym]
  {
    hide BitsOf;
    CodeSize(bl, it.sym);
  }

  lemma {:induction false} ItemSymsSize(items: seq<Item>, bl: seq<nat>)
    requires AllFormed(items) && AllOk(bl, items)
    ensures Below(ItemSyms(items), 19) && Below(ItemSyms(items), |bl|)
    ensures |ItemsBits(bl, items)| == Weigh(ItemSyms(items), bl) + Weigh(ItemSyms(items), EXTRA_BLBITS)
  {
    hide ItemBits, EXTRA_BLBITS, WellFormed;
    ExtraBlSize();
    if items != [] {
      var n := |items| - 1;
      ItemSymsSize(items[..n], bl);
      assert items == items[..n] + [items[n]];
      ItemSize(bl, items[n]);
      ItemsOne(bl, items[n]);
      ItemsConcat(bl, items[..n], [items[n]]);
      WeighSnoc(ItemSyms(items[..n]), items[n].sym, bl);
      WeighSnoc(ItemSyms(items[..n]), items[n].sym, EXTRA_BLBITS);
    }
  }

  lemma ExtraBlSize()
    ensures |EXTRA_BLBITS| == 19
  {
  }

  /** The same values as far as both go. */
  predicate Agree(u: seq<nat>, v: seq<nat>)
  {
    forall i :: 0 <= i < |u| && i < |v| ==> u[i] == v[i]
  }

  lemma {:induction false} WeighSame(syms: seq<nat>, u: seq<nat>, v: seq<nat>)
    requires Below(syms, |u|) && Below(syms, |v|) && Agree(u, v)
    ensures Weigh(syms, u) == Weigh(syms, v)
  {
    if syms != [] {
      WeighSame(syms[..|syms| - 1], u, v);
    }
  }

  /** The trees' sums over a block's frequencies are the size of its body. */
  lemma BodySize(lf: seq<nat>, ldl: seq<nat>, lx: seq<nat>, llens: seq<nat>, df: seq<nat>, ddl: seq<nat>, dx: seq<nat>,
                 dlens: seq<nat>, ts: seq<Token>)
    requires FreqsOf(lf, df, ts) && |lf| == |ldl| == |lx| && |df| == |ddl| == |dx|
    requires Agree(llens, ldl[..L_CODES]) && Agree(dlens, ddl[..D_CODES])
    requires ExtraL(lx[..L_CODES]) && dx[..D_CODES] == EXTRA_DBITS
    requires AllSendable(llens, dlens, ts) && HasCode(llens, END_BLOCK)
    ensures |BodyBits(llens, dlens, ts)|
         == BitCost(LeavesTo(lf, L_CODES), lf, ldl, lx) + BitCost(LeavesTo(df, D_CODES), df, ddl, dx)
  {
    hide BitCost, TokensBits, CodeBits, Sendable, CountsSyms, LSyms, DSyms, Weigh, EXTRA_DBITS, ExtraL, Agree;
    var lsyms, dsyms := LSyms(ts), DSyms(ts);
    CostIsWeigh(lf, ldl, lx, L_CODES, lsyms + [END_BLOCK]);
    CostIsWeigh(df, ddl, dx, D_CODES, dsyms);
    TokensSize(llens, dlens, lx[..L_CODES], ts);
    CodeSize(llens, END_BLOCK);
    WeighSnoc(lsyms, END_BLOCK, llens);
    WeighSnoc(lsyms, END_BLOCK, lx[..L_CODES]);
    ExtraEnd(lx[..L_CODES]);
    WeighSame(lsyms + [END_BLOCK], llens, ldl[..L_CODES]);
    WeighSame(dsyms, dlens, ddl[..D_CODES]);
  }

  lemma ExtraEnd(lx: seq<nat>)
    requires ExtraL(lx)
    ensures |lx| == L_CODES && lx[END_BLOCK] == 0
  {
  }

  lemma {:induction false} OrderSize(bl: seq<nat>, k: nat, n: nat)
    requires |bl| == 19 && k <= n <= 19
    ensures |OrderBits(bl, k, n)| == 3 * (n - k)
    decreases n - k
  {
    if k < n {
      OrderSize(bl, k + 1, n);
    }
  }

  /** bf counts the items of both trees. */
  ghost predicate FreqsBl(bf: seq<nat>, a: seq<Item>, b: seq<Item>)
  {
    |bf| >= BL_CODES && CountsSyms(bf[..BL_CODES], ItemSyms(a + b))
  }

  lemma {:induction false} ItemSymsAt(items: seq<Item>, i: nat)
    requires i < |items|
    ensures |ItemSyms(items)| == |items| && ItemSyms(items)[i] == items[i].sym
  {
    var n := |items| - 1;
    if i < n {
      ItemSymsAt(items[..n], i);
    } else if n > 0 {
      ItemSymsAt(items[..n], 0);
    }
  }

  /** What scan_tree counts, in both trees together. */
  lemma ScannedBl(f0: seq<nat>, f1: seq<nat>, f2: seq<nat>, a: seq<Item>, b: seq<Item>)
    requires |f0| >= BL_CODES && (forall x :: 0 <= x < BL_CODES ==> f0[x] == 0)
    requires Scanned(f0, f1, a) && Scanned(f1, f2, b) && AllFormed(a) && AllFormed(b)
    ensures FreqsBl(f2, a, b)
  {
    hide Sent, ItemSyms;
    var items := a + b;
    forall i | 0 <= i < |ItemSyms(items)| ensures ItemSyms(items)[i] < BL_CODES {
      ItemSymsLength(items);
      ItemSymsAt(items, i);
      FormedSym(items[i]);
    }
    forall x | 0 <= x < BL_CODES ensures f2[x] == Count(ItemSyms(items), x) {
      SentConcat(a, b, x);
      SentIsCount(items, x);
    }
  }

  lemma FormedSym(it: Item)
    requires WellFormed(it)
    ensures it.sym < BL_CODES
  {
  }

  lemma {:induction false} ItemSymsLength(items: seq<Item>)
    ensures |ItemSyms(items)| == |items|
  {
    if items != [] {
      ItemSymsLength(items[..|items| - 1]);
    }
  }

  /** Every item has a code in the bit length tree. */
  lemma ItemsHaveCodes(bf: seq<nat>, bfc: seq<nat>, bdl: seq<nat>, codes: nat, a: seq<Item>, b: seq<Item>)
    requires FreqsBl(bf, a, b) && Finished(bf, bfc, bdl, BL_CODES, codes, 7)
    ensures BL_CODES <= |bdl| && AllOk(bdl[..BL_CODES], a) && AllOk(bdl[..BL_CODES], b)
  {
    hide Finished, ItemSyms, CountsSyms, Space, Pow2, CodesFor, LengthsOk;
    BuiltSizes(bf, bfc, bdl, BL_CODES, codes, 7);
    var items, bl := a + b, bdl[..BL_CODES];
    forall i | 0 <= i < |items| ensures ItemOk(bl, items[i]) {
      ItemSymsAt(items, i);
      CountedHasCode(bf, bfc, bdl, BL_CODES, codes, 7, ItemSyms(items), i);
    }
    forall i | 0 <= i < |a| ensures ItemOk(bl, a[i]) {
      assert items[i] == a[i];
    }
    forall i | 0 <= i < |b| ensures ItemOk(bl, b[i]) {
      assert items[|a| + i] == b[i];
    }
  }

  /** The bit length tree's sum is the size of the two trees as sent. */
  lemma ItemsSize(bf: seq<nat>, bdl: seq<nat>, bx: seq<nat>, a: seq<Item>, b: seq<Item>)
    requires FreqsBl(bf, a, b) && |bf| == |bdl| == |bx| && bx[..BL_CODES] == EXTRA_BLBITS
    requires AllFormed(a) && AllFormed(b) && AllOk(bdl[..BL_CODES], a) && AllOk(bdl[..BL_CODES], b)
    ensures |ItemsBits(bdl[..BL_CODES], a)| + |ItemsBits(bdl[..BL_CODES], b)|
         == BitCost(LeavesTo(bf, BL_CODES), bf, bdl, bx)
  {
    hide BitCost, ItemsBits, ItemOk, WellFormed, CountsSyms, ItemSyms, Weigh, EXTRA_BLBITS;
    var bl := bdl[..BL_CODES];
    ItemsConcat(bl, a, b);
    ItemSymsSize(a + b, bl);
    CostIsWeigh(bf, bdl, bx, BL_CODES, ItemSyms(a + b));
  }
}
