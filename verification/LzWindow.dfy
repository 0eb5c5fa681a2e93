/** The dictionary of deflate.c together with the window and the running hash, on values: how
    inserting, moving on, skipping, sliding and reading keep it consistent with the input. */
module LzWindow {
  import opened Powers
  import opened BitStreams
  import opened Tokens
  import opened Hashing
  import opened Lz77

  /** The fields that belong to the dictionary. total is all the input read so far and base
      the position in it of window[0]. */
  datatype Dict = Dict(window: seq<byte>, head: seq<nat>, prev: seq<nat>, insH: nat, strstart: nat, insert: nat,
                       base: nat, total: seq<byte>, ins: set<nat>)

  function Pos(d: Dict): nat
  {
    d.base + d.strstart
  }

  /** The input from strstart on: the field lookahead. */
  function Ahead(d: Dict): int
  {
    |d.total| - Pos(d)
  }

  function Index(d: Dict): Chains
  {
    Chains(d.head, d.prev, d.base, d.strstart, d.ins)
  }

  /** The window shows the end of the input. */
  predicate Shown(c: Cfg, d: Dict)
  {
    && |d.window| == 2 * c.W && Ahead(d) >= 0 && d.strstart + Ahead(d) <= 2 * c.W
    && d.window[..d.strstart + Ahead(d)] == d.total[d.base..]
  }

  /** Everything but the running hash. */
  ghost predicate Base(c: Cfg, d: Dict)
  {
    ChainsOk(c, d.total, Index(d)) && Shown(c, d) && d.insert <= 2 && d.insert <= d.strstart
  }

  ghost predicate InsBelow(d: Dict, n: int)
  {
    forall p :: p in d.ins ==> p < n
  }

  /** Between two turns of the compressing loops: the string at strstart is not inserted. */
  ghost predicate Ready(c: Cfg, d: Dict)
  {
    && Base(c, d) && InsBelow(d, Pos(d) - d.insert) && (d.insert == 0 || Ahead(d) + d.insert < MIN_MATCH)
    && (Ahead(d) >= MIN_MATCH ==> Primed(c.shift, c.hb, d.insH, d.total[Pos(d)], d.total[Pos(d) + 1]))
  }

  /** The string at strstart has been inserted, if there are three bytes of it. */
  ghost predicate Placed(c: Cfg, d: Dict)
  {
    && Base(c, d) && InsBelow(d, Pos(d) + 1) && (d.insert == 0 || Ahead(d) + d.insert < MIN_MATCH)
    && (Ahead(d) < MIN_MATCH ==> InsBelow(d, Pos(d) - d.insert))
    && (Ahead(d) >= MIN_MATCH ==> Pos(d) in d.ins && d.insH == HashAt(c, d.total, Pos(d)))
  }

  lemma WindowAt(c: Cfg, d: Dict, i: nat)
    requires Shown(c, d) && i < d.strstart + Ahead(d)
    ensures d.base + i < |d.total| && i < |d.window| && d.window[i] == d.total[d.base + i]
  {
    assert d.window[i] == d.window[..d.strstart + Ahead(d)][i] == d.total[d.base..][i];
  }

  /** INSERT_STRING at strstart. */
  function InsertHere(c: Cfg, d: Dict, h: nat): Dict
    requires |d.prev| == c.W > 0 && h < |d.head|
  {
    d.(head := d.head[h := d.strstart], prev := d.prev[d.strstart % c.W := d.head[h]], insH := h,
       ins := d.ins + {Pos(d)})
  }

  /** The updated hash is that of the string, and the chain it heads goes on to earlier strings
      with the same hash. */
  lemma PlaceString(c: Cfg, d: Dict)
    requires Ready(c, d) && Ahead(d) >= MIN_MATCH
    ensures d.strstart + 2 < |d.window|
    ensures var h := Update(c.shift, c.hb, d.insH, d.window[d.strstart + 2]);
      && h < |d.head| && |d.prev| == c.W > 0 && Placed(c, InsertHere(c, d, h))
      && Inserted(d.total, Index(InsertHere(c, d, h)))
      && Linked(c, d.total, Index(InsertHere(c, d, h)), d.head[h], h) && (d.head[h] != 0 ==> d.head[h] < d.strstart)
      && h == HashAt(c, d.total, Pos(d))
  {
    hide Update, Hash3, Primed, Pow2, ChainsOk, Linked, Inserted;
    WindowAt(c, d, d.strstart + 2);
    var p := Pos(d);
    BaseHash(c, d);
    PrimedUpdate(c.shift, c.hb, d.insH, d.total[p], d.total[p + 1], d.total[p + 2]);
    InsertOk(c, d.total, Index(d), d.strstart);
    var h := HashAt(c, d.total, p);
    assert Index(InsertHere(c, d, h)) == Insert(c, Index(d), d.strstart, h);
    HeadLinked(c, d.total, Index(d), d.strstart, h);
  }

  lemma HeadLinked(c: Cfg, total: seq<byte>, k: Chains, str: nat, h: nat)
    requires ChainsOk(c, total, k) && |k.prev| == c.W > 0 && h < |k.head| && ChainsOk(c, total, Insert(c, k, str, h))
    requires forall p :: p in k.ins ==> p < k.base + str
    ensures Inserted(total, Insert(c, k, str, h)) && Linked(c, total, Insert(c, k, str, h), k.head[h], h)
    ensures k.head[h] != 0 ==> k.head[h] < str
  {
    hide HashAt, Pow2, PrevsOk, Whole;
    assert Linked(c, total, k, k.head[h], h);
  }

  lemma PlaceNothing(c: Cfg, d: Dict)
    requires Ready(c, d) && Ahead(d) < MIN_MATCH
    ensures Placed(c, d)
  {
    hide ChainsOk;
  }

  lemma MoveBase(c: Cfg, d: Dict, n: nat)
    requires Base(c, d) && n <= Ahead(d)
    ensures Base(c, d.(strstart := d.strstart + n))
  {
    hide ChainsOk;
    AdvanceOk(c, d.total, Index(d), d.strstart + n);
  }

  /** strstart++ after the string was inserted. */
  lemma MoveOn(c: Cfg, d: Dict)
    requires Placed(c, d) && Ahead(d) >= 1
    ensures Ready(c, d.(strstart := d.strstart + 1))
  {
    hide Base, Hash3, Primed, Shown, ChainsOk;
    MoveBase(c, d, 1);
    var p := Pos(d);
    if Ahead(d) - 1 >= MIN_MATCH {
      BaseHash(c, d);
      HashPrimes(c.shift, c.hb, d.total[p], d.total[p + 1], d.total[p + 2]);
    }
  }

  lemma BaseHash(c: Cfg, d: Dict)
    requires Base(c, d)
    ensures GoodHash(c.shift, c.hb)
  {
  }

  /** deflate_fast, lines 1890-1893: moving past a match without inserting its strings. */
  lemma SkipOn(c: Cfg, d: Dict, n: nat, h: nat)
    requires Placed(c, d) && 1 <= n <= Ahead(d) && d.insert == 0
    requires d.strstart + n + 1 < |d.window|
    requires h == Update(c.shift, c.hb, d.window[d.strstart + n], d.window[d.strstart + n + 1])
    ensures Ready(c, d.(strstart := d.strstart + n, insH := h))
  {
    hide Hash3, Primed, ChainsOk, Update;
    MoveBase(c, d, n);
    var p := Pos(d) + n;
    if Ahead(d) - n >= MIN_MATCH {
      WindowAt(c, d, d.strstart + n);
      WindowAt(c, d, d.strstart + n + 1);
      TwoBytesPrime(c.shift, c.hb, d.total[p], d.total[p + 1]);
    }
  }

  /** Lines 1510-1518: the upper half of the window moves to the lower. */
  lemma SlideBase(c: Cfg, d: Dict, d': Dict)
    requires Base(c, d) && d.strstart >= c.W + MaxDist(c)
    requires d' == Dict(d'.window, d'.head, d'.prev, d.insH, d.strstart - c.W, d.insert, d.base + c.W, d.total, d.ins)
    requires SlidSeq(d.head, d'.head, c.W) && SlidSeq(d.prev, d'.prev, c.W)
    requires |d'.window| == 2 * c.W && d'.window[..d'.strstart + Ahead(d)] == d.window[c.W..d.strstart + Ahead(d)]
    ensures Base(c, d') && Ahead(d') == Ahead(d) && Pos(d') == Pos(d)
  {
    hide ChainsOk;
    BaseCfg(c, d);
    assert SlidChains(c, Index(d), Index(d'));
    SlideOk(c, d.total, Index(d), Index(d'));
    var n := d.strstart + Ahead(d);
    assert d.window[c.W..n] == d.window[..n][c.W..] == d.total[d.base..][c.W..] == d.total[d.base + c.W..];
  }

  lemma BaseCfg(c: Cfg, d: Dict)
    requires Base(c, d)
    ensures GoodCfg(c)
  {
  }

  /** read_buf: the next bytes of the input. */
  lemma ReadBase(c: Cfg, d: Dict, more: seq<byte>, window': seq<byte>)
    requires Base(c, d) && d.strstart + Ahead(d) + |more| <= 2 * c.W && |window'| == 2 * c.W
    requires window'[..d.strstart + Ahead(d) + |more|] == d.window[..d.strstart + Ahead(d)] + more
    ensures Base(c, d.(window := window', total := d.total + more))
  {
    hide ChainsOk;
    GrowOk(c, d.total, Index(d), more);
    var d' := d.(window := window', total := d.total + more);
    assert d'.total[d.base..] == d.total[d.base..] + more;
  }

  /** Lines 1538-1556: some strings before strstart are still to be inserted. The next is at
      strstart - insert, and the hash is primed for it. */
  ghost predicate Catching(c: Cfg, d: Dict)
  {
    && Base(c, d) && InsBelow(d, Pos(d) - d.insert) && Ahead(d) + d.insert >= MIN_MATCH
    && Primed(c.shift, c.hb, d.insH, d.total[Pos(d) - d.insert], d.total[Pos(d) - d.insert + 1])
  }

  lemma CatchStart(c: Cfg, d: Dict)
    requires Base(c, d) && InsBelow(d, Pos(d) - d.insert) && Ahead(d) + d.insert >= MIN_MATCH
    ensures d.strstart - d.insert + 1 < |d.window|
    ensures var str := d.strstart - d.insert;
      Catching(c, d.(insH := Update(c.shift, c.hb, d.window[str], d.window[str + 1])))
  {
    hide Hash3, Primed, ChainsOk, Update;
    var str := d.strstart - d.insert;
    WindowAt(c, d, str);
    WindowAt(c, d, str + 1);
    TwoBytesPrime(c.shift, c.hb, d.total[d.base + str], d.total[d.base + str + 1]);
  }

  /** The string at strstart - insert goes in. */
  lemma CatchStep(c: Cfg, d: Dict)
    requires Catching(c, d) && d.insert > 0
    ensures d.strstart - d.insert + 2 < |d.window|
    ensures var str := d.strstart - d.insert;
      var h := Update(c.shift, c.hb, d.insH, d.window[str + 2]);
      && h < |d.head| && |d.prev| == c.W > 0
      && var d' := d.(head := d.head[h := str], prev := d.prev[str % c.W := d.head[h]], insH := h,
                      ins := d.ins + {d.base + str}, insert := d.insert - 1);
         if Ahead(d) + d.insert - 1 < MIN_MATCH then Ready(c, d') else Catching(c, d')
  {
    hide Hash3, Primed, Pow2, Update, ChainsOk;
    var str := d.strstart - d.insert;
    WindowAt(c, d, str + 2);
    var p := d.base + str;
    BaseCfg(c, d);
    PrimedUpdate(c.shift, c.hb, d.insH, d.total[p], d.total[p + 1], d.total[p + 2]);
    InsertOk(c, d.total, Index(d), str);
    HashPrimes(c.shift, c.hb, d.total[p], d.total[p + 1], d.total[p + 2]);
    var h := HashAt(c, d.total, p);
    var d' := d.(head := d.head[h := str], prev := d.prev[str % c.W := d.head[h]], insH := h,
                 ins := d.ins + {d.base + str}, insert := d.insert - 1);
    assert Index(d') == Insert(c, Index(d), str, h);
  }

  lemma CatchEnd(c: Cfg, d: Dict)
    requires Catching(c, d) && d.insert == 0
    ensures Ready(c, d)
  {
    hide ChainsOk;
  }
}
