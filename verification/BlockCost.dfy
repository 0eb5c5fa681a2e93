/** Bit counts: the sums that build_tree keeps in opt_len and static_len are the lengths of
    what is sent. */
module BlockCost {
  import opened Powers
  import opened BitStreams
  import opened PrefixCodes
  import opened TreeSteps
  import opened BitlenSteps
  import opened Tokens
  import opened BlockSpec
  import opened BlockWriter

  function Count(syms: seq<nat>, x: nat): nat
  {
    if syms == [] then 0 else Count(syms[..|syms| - 1], x) + if syms[|syms| - 1] == x then 1 else 0
  }

  /** v summed over the symbols. */
  function Weigh(syms: seq<nat>, v: seq<nat>): nat
    requires forall i :: 0 <= i < |syms| ==> syms[i] < |v|
  {
    if syms == [] then 0 else Weigh(syms[..|syms| - 1], v) + v[syms[|syms| - 1]]
  }

  ghost function Dot(w: seq<nat>, v: seq<nat>): nat
    requires |w| == |v|
  {
    if w == [] then 0 else Dot(w[..|w| - 1], v[..|v| - 1]) + w[|w| - 1] * v[|v| - 1]
  }

  lemma {:induction false} DotBump(w: seq<nat>, v: seq<nat>, x: nat)
    requires |w| == |v| && x < |w|
    ensures Dot(w[x := w[x] + 1], v) == Dot(w, v) + v[x]
  {
    var n, w' := |w| - 1, w[x := w[x] + 1];
    if x == n {
      assert w'[..n] == w[..n];
      OneMore(w[n], v[n]);
    } else {
      DotBump(w[..n], v[..n], x);
      assert w'[..n] == w[..n][x := w[x] + 1];
    }
  }

  lemma OneMore(a: nat, b: nat)
    ensures (a + 1) * b == a * b + b
  {
  }

  lemma {:induction false} DotZero(w: seq<nat>, v: seq<nat>)
    requires |w| == |v| && forall i :: 0 <= i < |w| ==> w[i] == 0
    ensures Dot(w, v) == 0
  {
    if w != [] {
      DotZero(w[..|w| - 1], v[..|v| - 1]);
    }
  }

  /** w counts the symbols. */
  ghost predicate CountsSyms(w: seq<nat>, syms: seq<nat>)
  {
    (forall i :: 0 <= i < |syms| ==> syms[i] < |w|) && forall x :: 0 <= x < |w| ==> w[x] == Count(syms, x)
  }

  lemma CountSnoc(syms: seq<nat>, y: nat, x: nat)
    ensures Count(syms + [y], x) == Count(syms, x) + if x == y then 1 else 0
  {
    assert (syms + [y])[..|syms|] == syms;
  }

  /** Frequencies times lengths is the sum over all that was counted. */
  lemma {:induction false} DotIsWeigh(w: seq<nat>, syms: seq<nat>, v: seq<nat>)
    requires |w| == |v| && CountsSyms(w, syms)
    ensures Dot(w, v) == Weigh(syms, v)
    decreases |syms|
  {
    hide Dot;
    if syms == [] {
      DotZero(w, v);
    } else {
      var n := |syms| - 1;
      var y := syms[n];
      var w0 := w[y := w[y] - 1];
      forall x | 0 <= x < |w| ensures w0[x] == Count(syms[..n], x) {
        CountSnoc(syms[..n], y, x);
        assert syms == syms[..n] + [y];
      }
      DotIsWeigh(w0, syms[..n], v);
      DotBump(w0, v, y);
      assert w0[y := w0[y] + 1] == w;
    }
  }

  /** The cost over the symbols that occur is the cost over all symbols. */
  lemma {:induction false} CostIsDot(w: seq<nat>, v: seq<nat>, n: nat)
    requires |w| == |v| && n <= |w|
    ensures Cost(LeavesTo(w, n), w, v) == Dot(w[..n], v[..n])
  {
    CostPrefix(LeavesTo(w, n), w, v, n, |w|);
    assert w[..|w|] == w && v[..|v|] == v;
    CostDot(LeavesTo(w, n), w[..n], v[..n]);
  }

  lemma {:induction false} CostPrefix(nodes: set<nat>, w: seq<nat>, v: seq<nat>, n: nat, m: nat)
    requires |w| == |v| && n <= m <= |w| && forall x :: x in nodes ==> x < n
    ensures Cost(nodes, w[..m], v[..m]) == Cost(nodes, w[..n], v[..n])
    decreases m
  {
    if n < m {
      CostPrefix(nodes, w, v, n, m - 1);
      assert w[..m][..m - 1] == w[..m - 1] && v[..m][..m - 1] == v[..m - 1];
    }
  }

  lemma {:induction false} CostDot(nodes: set<nat>, w: seq<nat>, v: seq<nat>)
    requires |w| == |v| && forall i :: 0 <= i < |w| ==> (i in nodes <==> w[i] != 0)
    ensures Cost(nodes, w, v) == Dot(w, v)
  {
    if w != [] {
      CostDot(nodes, w[..|w| - 1], v[..|v| - 1]);
    }
  }

  /** build_tree's sum for a tree whose frequencies count syms. */
  lemma CostIsWeigh(w: seq<nat>, lens: seq<nat>, extra: seq<nat>, n: nat, syms: seq<nat>)
    requires |w| == |lens| == |extra| && n <= |w| && CountsSyms(w[..n], syms)
    ensures BitCost(LeavesTo(w, n), w, lens, extra) == Weigh(syms, lens[..n]) + Weigh(syms, extra[..n])
  {
    hide Cost, Dot, Weigh;
    CostIsDot(w, lens, n);
    CostIsDot(w, extra, n);
    DotIsWeigh(w[..n], syms, lens[..n]);
    DotIsWeigh(w[..n], syms, extra[..n]);
  }

  /** The symbols that a list of tokens uses in each tree. */
  function LSym(t: Token): nat
    requires GoodToken(t)
  {
    match t
    case Lit(b) => b
    case Match(len, dist) => 257 + LengthParts(len).code
  }

  function LSyms(ts: seq<Token>): seq<nat>
    requires GoodTokens(ts)
  {
    if ts == [] then [] else LSyms(ts[..|ts| - 1]) + [LSym(ts[|ts| - 1])]
  }

  function DSyms(ts: seq<Token>): seq<nat>
    requires GoodTokens(ts)
  {
    if ts == [] then []
    else DSyms(ts[..|ts| - 1]) + if ts[|ts| - 1].Match? then [DistParts(ts[|ts| - 1].dist).code] else []
  }

  /** Every symbol is one of the tree's. */
  predicate Below(syms: seq<nat>, n: nat)
  {
    forall i :: 0 <= i < |syms| ==> syms[i] < n
  }

  /** The extra bits of each symbol. */
  predicate ExtraL(extra: seq<nat>)
  {
    |extra| == 286 && forall i :: 0 <= i < 286 ==> extra[i] == if i < 257 then 0 else EXTRA_LBITS[i - 257]
  }

  lemma WeighSnoc(syms: seq<nat>, y: nat, v: seq<nat>)
    requires Below(syms, |v|) && y < |v|
    ensures Below(syms + [y], |v|) && Weigh(syms + [y], v) == Weigh(syms, v) + v[y]
  {
    assert (syms + [y])[..|syms|] == syms;
  }

  lemma SymsRange(t: Token)
    requires GoodToken(t)
    ensures LSym(t) < 286 && (t.Match? ==> DistParts(t.dist).code < 30)
  {
    hide Pow2;
    if t.Match? {
      LengthCodeRange(t.len - 3);
      DistCodeRange(t.dist - 1);
    }
  }

  /** What one token takes. */
  lemma TokenSize(llens: seq<nat>, dlens: seq<nat>, lx: seq<nat>, t: Token)
    requires Sendable(llens, dlens, t) && GoodToken(t) && ExtraL(lx) && LSym(t) < 286
    ensures LSym(t) < |llens| && (t.Match? ==> DistParts(t.dist).code < |dlens| && DistParts(t.dist).code < 30)
    ensures |TokenBits(llens, dlens, t)| == llens[LSym(t)] + lx[LSym(t)]
      + if t.Match? then dlens[DistParts(t.dist).code] + EXTRA_DBITS[DistParts(t.dist).code] else 0
  {
    hide BitsOf, LengthCode, DistCode;
    SymsRange(t);
  }

  /** What a list of tokens takes. */
  lemma {:induction false} TokensSize(llens: seq<nat>, dlens: seq<nat>, lx: seq<nat>, ts: seq<Token>)
    requires AllSendable(llens, dlens, ts) && GoodTokens(ts) && ExtraL(lx)
    ensures Below(LSyms(ts), |llens|) && Below(DSyms(ts), |dlens|) && Below(LSyms(ts), 286) && Below(DSyms(ts), 30)
    ensures |TokensBits(llens, dlens, ts)|
         == Weigh(LSyms(ts), llens) + Weigh(LSyms(ts), lx) + Weigh(DSyms(ts), dlens) + Weigh(DSyms(ts), EXTRA_DBITS)
  {
    hide LSym, DistParts, TokenBits, Sendable, EXTRA_DBITS, ExtraL;
    ExtraSizes(lx);
    if ts == [] {
    } else {
      var n := |ts| - 1;
      var t := ts[n];
      assert ts[..n + 1] == ts;
      TokensSnoc(llens, dlens, ts, n);
      TokensSize(llens, dlens, lx, ts[..n]);
      SymsRange(t);
      TokenSize(llens, dlens, lx, t);
      WeighSnoc(LSyms(ts[..n]), LSym(t), llens);
      WeighSnoc(LSyms(ts[..n]), LSym(t), lx);
      if t.Match? {
        WeighSnoc(DSyms(ts[..n]), DistParts(t.dist).code, dlens);
        WeighSnoc(DSyms(ts[..n]), DistParts(t.dist).code, EXTRA_DBITS);
      } else {
        assert DSyms(ts[..n]) + [] == DSyms(ts[..n]);
      }
    }
  }

  lemma ExtraSizes(lx: seq<nat>)
    requires ExtraL(lx)
    ensures |lx| == 286 && |EXTRA_DBITS| == 30
  {
  }
}
