/** The codes that build_tree makes for a block are the best there are: no other pair of prefix codes makes
    the block's body smaller. */
module BlockBest {
  import opened Powers
  import opened PrefixCodes
  import opened TreeSteps
  import opened TreeDepth
  import opened BitlenSteps
  import opened Canonical
  import opened Tokens
  import opened InflateSpec
  import opened TreeBuilder
  import opened BlockSpec
  import opened BlockWriter
  import opened BlockCost
  import opened BlockTrees

  /** The lengths are those of some prefix code. */
  predicate Codable(lens: seq<nat>, max: nat)
  {
    (forall i :: 0 <= i < |lens| ==> lens[i] <= max) && Space(lens, max) <= Pow2(max)
  }

  /** No other codes for the tokens take fewer bits. */
  ghost predicate LeastBody(llens: seq<nat>, dlens: seq<nat>, ts: seq<Token>)
    requires AllSendable(llens, dlens, ts) && HasCode(llens, END_BLOCK)
  {
    forall ll: seq<nat>, dd: seq<nat>, max: nat ::
      Codable(ll, max) && Codable(dd, max) && AllSendable(ll, dd, ts) && HasCode(ll, END_BLOCK) ==>
        |BodyBits(llens, dlens, ts)| <= |BodyBits(ll, dd, ts)|
  }

  /** No lengths that give every symbol in use at least one bit cost less. */
  ghost predicate TreeBest(f0: seq<nat>, dl: seq<nat>, elems: nat)
  {
    && |f0| == |dl|
    && forall alt: seq<nat>, L: nat ::
        |alt| == |f0| && Feasible(LeavesTo(f0, elems), alt, L) && NoneEmpty(LeavesTo(f0, elems), alt) ==>
          Cost(LeavesTo(f0, elems), f0, dl) <= Cost(LeavesTo(f0, elems), f0, alt)
  }

  ghost predicate NoneEmpty(nodes: set<nat>, lens: seq<nat>)
  {
    forall x :: x in nodes && x < |lens| ==> lens[x] >= 1
  }

  lemma {:induction false} CostMono(nodes: set<nat>, w: seq<nat>, u: seq<nat>, v: seq<nat>)
    requires |w| == |u| == |v| && forall x :: x in nodes && x < |u| ==> u[x] <= v[x]
    ensures Cost(nodes, w, u) <= Cost(nodes, w, v)
  {
    if w != [] {
      var n := |w| - 1;
      CostMono(nodes, w[..n], u[..n], v[..n]);
      if n in nodes {
        MulLeast(w[n], u[n], v[n]);
      }
    }
  }

  lemma MulLeast(a: nat, b: nat, c: nat)
    requires b <= c
    ensures a * b <= a * c
  {
  }

  /** Whether symbols had to be forced into the tree or not. */
  lemma MakeBest(f0: seq<nat>, freqs: seq<nat>, dl: seq<nat>, leaves: set<nat>, forced: set<nat>, elems: nat)
    requires |f0| == |freqs| == |dl| && leaves == LeavesTo(f0, elems) + forced
    requires forall x :: x in LeavesTo(f0, elems) && x < |f0| ==> freqs[x] == f0[x]
    requires |forced| > 0 ==> forall x :: x in leaves ==> x < |dl| && dl[x] == 1
    requires OptimalLens(leaves, freqs, dl)
    ensures TreeBest(f0, dl, elems)
  {
    hide Cost, Kraft;
    var nodes := LeavesTo(f0, elems);
    forall alt: seq<nat>, L: nat | |alt| == |f0| && Feasible(nodes, alt, L) && NoneEmpty(nodes, alt)
      ensures Cost(nodes, f0, dl) <= Cost(nodes, f0, alt)
    {
      if |forced| > 0 {
        CostMono(nodes, f0, dl, alt);
      } else {
        assert forced == {};
        assert leaves == nodes;
        CostSame(nodes, freqs, dl, nodes, f0, dl);
        CostSame(nodes, freqs, alt, nodes, f0, alt);
      }
    }
  }

  /** One more length takes its share of the code space. */
  lemma {:induction false} SpaceSnoc(lens: seq<nat>, x: nat, b: nat)
    ensures Space(lens + [x], b) == Space(lens, b) + if 1 <= x <= b then Pow2(b - x) else 0
  {
    if b > 0 {
      SpaceSnoc(lens, x, b - 1);
      assert (lens + [x])[..|lens|] == lens;
      assert x == b ==> Pow2(b - x) == 1;
    }
  }

  lemma {:induction false} SpaceFirst(lens: seq<nat>, n: nat, b: nat)
    requires n <= |lens|
    ensures Space(lens[..n], b) <= Space(lens, b)
    decreases |lens| - n
  {
    hide Space, Pow2;
    if n < |lens| {
      assert lens[..n + 1] == lens[..n] + [lens[n]];
      SpaceSnoc(lens[..n], lens[n], b);
      SpaceFirst(lens, n + 1, b);
    } else {
      assert lens[..n] == lens;
    }
  }

  /** lens, cut off or filled up with zeros. */
  function Fitted(lens: seq<nat>, n: nat): (r: seq<nat>)
    ensures |r| == n && forall i :: 0 <= i < n ==> r[i] == if i < |lens| then lens[i] else 0
  {
    seq(n, i requires i >= 0 => if i < |lens| then lens[i] else 0)
  }

  ghost predicate AllCoded(nodes: set<nat>, lens: seq<nat>)
  {
    forall x :: x in nodes ==> HasCode(lens, x)
  }

  lemma {:induction false} KraftFits(nodes: set<nat>, lens: seq<nat>, size: nat, max: nat, n: nat)
    requires AllCoded(nodes, lens) && n <= size
    ensures Kraft(nodes, Fitted(lens, size)[..n], max) <= Space(lens[..if n < |lens| then n else |lens|], max)
    decreases n
  {
    hide Fitted, Space, Pow2;
    if n > 0 {
      var s := Fitted(lens, size);
      KraftFits(nodes, lens, size, max, n - 1);
      assert s[..n][..n - 1] == s[..n - 1];
      if n <= |lens| {
        assert lens[..n] == lens[..n - 1] + [lens[n - 1]];
        SpaceSnoc(lens[..n - 1], lens[n - 1], max);
      }
    }
  }

  lemma FittedFeasible(nodes: set<nat>, lens: seq<nat>, size: nat, max: nat)
    requires AllCoded(nodes, lens) && Codable(lens, max) && InRange(nodes, size)
    ensures Feasible(nodes, Fitted(lens, size), max) && NoneEmpty(nodes, Fitted(lens, size))
  {
    hide Fitted, Space, Pow2, Kraft;
    KraftFits(nodes, lens, size, max, size);
    assert Fitted(lens, size)[..size] == Fitted(lens, size);
    SpaceFirst(lens, if size < |lens| then size else |lens|, max);
  }

  /** The tokens' symbols have codes. */
  lemma {:induction false} SymsHaveCodes(ll: seq<nat>, dd: seq<nat>, ts: seq<Token>)
    requires GoodTokens(ts) && AllSendable(ll, dd, ts)
    ensures forall i :: 0 <= i < |LSyms(ts)| ==> HasCode(ll, LSyms(ts)[i])
    ensures forall i :: 0 <= i < |DSyms(ts)| ==> HasCode(dd, DSyms(ts)[i])
    ensures |LSyms(ts)| == |ts| && |DSyms(ts)| <= |ts|
  {
    hide LengthParts, DistParts;
    if ts != [] {
      var n := |ts| - 1;
      assert Sendable(ll, dd, ts[n]);
      SymsHaveCodes(ll, dd, ts[..n]);
    }
  }

  lemma {:induction false} Counted(syms: seq<nat>, x: nat)
    requires Count(syms, x) > 0
    ensures x in syms
  {
    if syms[|syms| - 1] != x {
      Counted(syms[..|syms| - 1], x);
    }
  }

  lemma LeavesCoded(w: seq<nat>, n: nat, syms: seq<nat>, lens: seq<nat>)
    requires n <= |w| && CountsSyms(w[..n], syms) && forall i :: 0 <= i < |syms| ==> HasCode(lens, syms[i])
    ensures AllCoded(LeavesTo(w, n), lens)
  {
    hide HasCode;
    forall x | x in LeavesTo(w, n) ensures HasCode(lens, x) {
      assert w[..n][x] == w[x];
      Counted(syms, x);
    }
  }

  /** The frequencies add up to the number of symbols. */
  lemma {:induction false} DotOnes(w: seq<nat>, ones: seq<nat>)
    requires |w| == |ones| && forall i :: 0 <= i < |ones| ==> ones[i] == 1
    ensures Dot(w, ones) == Total(w)
  {
    if w != [] {
      DotOnes(w[..|w| - 1], ones[..|w| - 1]);
    }
  }

  lemma {:induction false} WeighOnes(syms: seq<nat>, ones: seq<nat>)
    requires Below(syms, |ones|) && forall i :: 0 <= i < |ones| ==> ones[i] == 1
    ensures Weigh(syms, ones) == |syms|
  {
    if syms != [] {
      WeighOnes(syms[..|syms| - 1], ones);
    }
  }

  lemma TotalCounted(w: seq<nat>, syms: seq<nat>)
    requires CountsSyms(w, syms)
    ensures Total(w) == |syms|
  {
    hide Dot, Weigh, Total, Count;
    var ones := seq(|w|, _ => 1);
    DotOnes(w, ones);
    DotIsWeigh(w, syms, ones);
    WeighOnes(syms, ones);
  }

  /** How many symbols each tree codes. */
  lemma TokenTotals(lf: seq<nat>, df: seq<nat>, ts: seq<Token>, llens: seq<nat>, dlens: seq<nat>)
    requires FreqsOf(lf, df, ts) && GoodTokens(ts) && AllSendable(llens, dlens, ts)
    requires L_CODES <= |lf| && D_CODES <= |df|
    ensures Total(lf[..L_CODES]) == |ts| + 1 && Total(df[..D_CODES]) <= |ts|
  {
    hide CountsSyms, LSyms, DSyms, Total, AllSendable;
    SymsHaveCodes(llens, dlens, ts);
    TotalCounted(lf[..L_CODES], LSyms(ts) + [END_BLOCK]);
    TotalCounted(df[..D_CODES], DSyms(ts));
  }

  lemma LExtras(n: nat)
    requires n >= L_CODES
    ensures ExtraL(Extras(LDesc(), n)[..L_CODES])
  {
    hide FixedLens;
  }

  lemma DExtras(n: nat)
    requires n >= D_CODES
    ensures Extras(DDesc(), n)[..D_CODES] == EXTRA_DBITS
  {
  }

  /** One tree costs no more than another code for the same symbols. */
  lemma TreeLeast(f0: seq<nat>, dl: seq<nat>, elems: nat, xs: seq<nat>, syms: seq<nat>, lens: seq<nat>, max: nat)
    requires TreeBest(f0, dl, elems) && elems <= |f0| == |xs| && CountsSyms(f0[..elems], syms) && Codable(lens, max)
    requires forall i :: 0 <= i < |syms| ==> HasCode(lens, syms[i])
    ensures |dl| == |f0|
    ensures BitCost(LeavesTo(f0, elems), f0, dl, xs) <= BitCost(LeavesTo(f0, elems), f0, Fitted(lens, |f0|), xs)
  {
    hide Cost, Fitted, CountsSyms, HasCode, Codable, Feasible, NoneEmpty, AllCoded;
    LeavesCoded(f0, elems, syms, lens);
    FittedFeasible(LeavesTo(f0, elems), lens, |f0|, max);
  }

  /** With the best trees the block has the least body. */
  lemma BodyLeast(lf: seq<nat>, ldl: seq<nat>, lcodes: nat, df: seq<nat>, ddl: seq<nat>, dcodes: nat, ts: seq<Token>)
    requires FreqsOf(lf, df, ts) && TreeBest(lf, ldl, L_CODES) && TreeBest(df, ddl, D_CODES)
    requires lcodes <= L_CODES && dcodes <= D_CODES && lcodes <= |ldl| && dcodes <= |ddl|
    requires AllSendable(ldl[..lcodes], ddl[..dcodes], ts) && HasCode(ldl[..lcodes], END_BLOCK)
    ensures LeastBody(ldl[..lcodes], ddl[..dcodes], ts)
  {
    hide BodyBits, AllSendable, FreqsOf, HasCode, Codable, TreeBest;
    forall ll: seq<nat>, dd: seq<nat>, max: nat
      | Codable(ll, max) && Codable(dd, max) && AllSendable(ll, dd, ts) && HasCode(ll, END_BLOCK)
      ensures |BodyBits(ldl[..lcodes], ddl[..dcodes], ts)| <= |BodyBits(ll, dd, ts)|
    {
      OtherBody(lf, ldl, lcodes, df, ddl, dcodes, ts, ll, dd, max);
    }
  }

  lemma FreqParts(lf: seq<nat>, df: seq<nat>, ts: seq<Token>)
    requires FreqsOf(lf, df, ts)
    ensures |lf| >= L_CODES && |df| >= D_CODES && GoodTokens(ts)
    ensures CountsSyms(lf[..L_CODES], LSyms(ts) + [END_BLOCK]) && CountsSyms(df[..D_CODES], DSyms(ts))
  {
    hide CountsSyms, LSyms, DSyms;
  }

  lemma OtherBody(lf: seq<nat>, ldl: seq<nat>, lcodes: nat, df: seq<nat>, ddl: seq<nat>, dcodes: nat, ts: seq<Token>,
                  ll: seq<nat>, dd: seq<nat>, max: nat)
    requires FreqsOf(lf, df, ts) && TreeBest(lf, ldl, L_CODES) && TreeBest(df, ddl, D_CODES)
    requires lcodes <= L_CODES && dcodes <= D_CODES && lcodes <= |ldl| && dcodes <= |ddl|
    requires AllSendable(ldl[..lcodes], ddl[..dcodes], ts) && HasCode(ldl[..lcodes], END_BLOCK)
    requires Codable(ll, max) && Codable(dd, max) && AllSendable(ll, dd, ts) && HasCode(ll, END_BLOCK)
    ensures |BodyBits(ldl[..lcodes], ddl[..dcodes], ts)| <= |BodyBits(ll, dd, ts)|
  {
    hide *;
    FreqParts(lf, df, ts);
    BestSizes(lf, ldl, L_CODES);
    BestSizes(df, ddl, D_CODES);
    var lx, dx := Extras(LDesc(), |lf|), Extras(DDesc(), |df|);
    LExtras(|lf|);
    DExtras(|df|);
    SymsHaveCodes(ll, dd, ts);
    EndHasCode(LSyms(ts), ll);
    TreeLeast(lf, ldl, L_CODES, lx, LSyms(ts) + [END_BLOCK], ll, max);
    TreeLeast(df, ddl, D_CODES, dx, DSyms(ts), dd, max);
    AgreePrefix(ldl, lcodes, L_CODES);
    AgreePrefix(ddl, dcodes, D_CODES);
    AgreeFitted(ll, |lf|, L_CODES);
    AgreeFitted(dd, |df|, D_CODES);
    BodySize(lf, ldl, lx, ldl[..lcodes], df, ddl, dx, ddl[..dcodes], ts);
    BodySize(lf, Fitted(ll, |lf|), lx, ll, df, Fitted(dd, |df|), dx, dd, ts);
  }

  lemma BestSizes(f0: seq<nat>, dl: seq<nat>, elems: nat)
    requires TreeBest(f0, dl, elems)
    ensures |f0| == |dl|
  {
  }

  lemma EndHasCode(syms: seq<nat>, lens: seq<nat>)
    requires HasCode(lens, END_BLOCK) && forall i :: 0 <= i < |syms| ==> HasCode(lens, syms[i])
    ensures forall i :: 0 <= i < |syms + [END_BLOCK]| ==> HasCode(lens, (syms + [END_BLOCK])[i])
  {
    hide HasCode;
  }

  lemma AgreePrefix(dl: seq<nat>, n: nat, m: nat)
    requires n <= |dl| && m <= |dl|
    ensures Agree(dl[..n], dl[..m])
  {
  }

  lemma AgreeFitted(lens: seq<nat>, size: nat, m: nat)
    requires m <= size
    ensures |Fitted(lens, size)| == size && Agree(lens, Fitted(lens, size)[..m])
  {
  }
}
