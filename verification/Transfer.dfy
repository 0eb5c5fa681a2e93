/** What the two halves promise together: decoding does not depend on how input and output are cut
    up, and what deflate writes is what inflate reads. */
module Transfer {
  import opened BitStreams
  import opened BlockSpec
  import opened StreamSpec
  import opened BlockFlush
  import opened Lz77
  import opened Deflater
  import opened Choices
  import opened Reasons
  import opened Tokens
  import opened InflateSpec
  import opened InflateRuns
  import opened InflateSteps
  import opened Inflater
  import opened InflateReach
  import opened Powers

  lemma AfterStuck(s: State, all: seq<byte>)
    requires Led(s, all)
    ensures At(s, BytesBits(all)) && (After(s, all) == None <==> Stuck(s, BytesBits(all)))
  {
    hide Step, Reaches, BytesBits;
  }

  /** Two decoders that were given the same input, in pieces of any size, with any output space and
      windows of any size, and that have both used up what they can, have put out the same bytes. */
  lemma SplitIndependence(a: Inflate, b: Inflate)
    requires a.Valid() && b.Valid() && a.all == b.all && a.exact && b.exact
    requires After(a.abs, a.all) == None && After(b.abs, b.all) == None
    ensures a.hist == b.hist && a.abs == b.abs && a.st.mode == b.st.mode
  {
    hide *;
    a.ValidParts();
    b.ValidParts();
    SameStop(a.abs, b.abs, a.all);
  }

  lemma SameStop(s1: State, s2: State, all: seq<byte>)
    requires Led(s1, all) && Led(s2, all) && After(s1, all) == None && After(s2, all) == None
    ensures s1 == s2
  {
    hide After, Reaches, Stuck, At;
    AfterStuck(s1, all);
    AfterStuck(s2, all);
    SameEnd(Start(), s1, s2, BytesBits(all));
  }

  /** At any moment the output of one of two decoders begins that of the other, even if one has had
      more of the input, and even if one has had to give up on a match. */
  lemma SameCourse(a: Inflate, b: Inflate)
    requires a.Valid() && b.Valid() && a.all <= b.all
    ensures a.hist <= b.hist || b.hist <= a.hist
    ensures After(b.abs, b.all) == None ==> a.hist <= b.hist
  {
    hide *;
    a.ValidParts();
    b.ValidParts();
    OneCourse(a.abs, a.all, b.abs, b.all);
  }

  lemma OneCourse(s1: State, all1: seq<byte>, s2: State, all2: seq<byte>)
    requires Led(s1, all1) && Led(s2, all2) && all1 <= all2
    ensures s1.out <= s2.out || s2.out <= s1.out
    ensures After(s2, all2) == None ==> s1.out <= s2.out
  {
    hide After, Reaches, Stuck, At;
    var more := all2[|all1|..];
    assert all1 + more == all2;
    LedMore(s1, all1, more);
    AfterStuck(s2, all2);
    OneRun(Start(), s1, s2, BytesBits(all2));
    if After(s2, all2) == None && !Reaches(s1, s2, BytesBits(all2)) {
      StuckStays(s2, s1, BytesBits(all2));
    } else if Reaches(s1, s2, BytesBits(all2)) {
      ReachedOut(s1, s2, BytesBits(all2));
    }
  }

  lemma ReachedOut(s: State, s': State, bits: seq<bool>)
    requires At(s, bits) && Reaches(s, s', bits)
    ensures s.out <= s'.out
  {
    hide At, Iter;
    var n: nat :| Iter(s, bits, n) == Some(s');
    IterOut(s, bits, n);
  }

  /** A decoder that has had the whole of a finished stream and can do no more has put out the
      data and stands at the end of the stream, whatever follows it in the input. */
  lemma RoundTrip(stream: seq<byte>, data: seq<byte>, s: State, all: seq<byte>, far: nat)
    requires Delivers(BytesBits(stream), data, far) && stream <= all && Led(s, all) && After(s, all) == None
    ensures s.mode == DONE && s.out == data && s.pos == 8 * |stream|
  {
    hide *;
    LedIs(s, all);
    var bits := BytesBits(all);
    StreamHas(stream, all);
    var s' := Delivered(BytesBits(stream), data, bits, far);
    AfterStuck(s, all);
    ReachedAt(s', bits);
    DoneStuck(s', bits);
    SameEnd(Start(), s, s', bits);
  }

  lemma LedIs(s: State, all: seq<byte>)
    requires Led(s, all)
    ensures At(Start(), BytesBits(all)) && At(s, BytesBits(all)) && Reaches(Start(), s, BytesBits(all))
  {
    hide At, Reaches, BytesBits;
  }

  lemma Delivered(w: seq<bool>, data: seq<byte>, bits: seq<bool>, far: nat) returns (s: State)
    requires Delivers(w, data, far) && |bits| % 8 == 0 && Has(bits, 0, w) && At(Start(), bits)
    ensures Reaches(Start(), s, bits) && s.mode == DONE && s.pos == |w| && s.out == data && s.far <= far
  {
    hide Reaches, Has;
    assert Finishes(bits, |w|, data, far);
    s :| Reaches(Start(), s, bits) && s.mode == DONE && s.pos == |w| && s.out == data && s.far <= far;
  }

  lemma StreamHas(stream: seq<byte>, all: seq<byte>)
    requires stream <= all
    ensures |BytesBits(all)| % 8 == 0 && Has(BytesBits(all), 0, BytesBits(stream))
    ensures |BytesBits(stream)| == 8 * |stream|
    ensures At(Start(), BytesBits(all))
  {
    hide BytesBits;
    assert all == stream + all[|stream|..];
    BytesConcat(stream, all[|stream|..]);
    StartAt(BytesBits(all));
  }

  lemma DoneStuck(s: State, bits: seq<bool>)
    requires At(s, bits) && s.mode == DONE
    ensures Stuck(s, bits)
  {
  }

  /** The state in which a stream leaves the decoder. */
  lemma EndState(stream: seq<byte>, data: seq<byte>, far: nat) returns (s: State)
    requires Delivers(BytesBits(stream), data, far)
    ensures Led(s, stream) && After(s, stream) == None && s.out == data && s.far <= far && s.mode == DONE
  {
    hide *;
    var bits := BytesBits(stream);
    StreamHas(stream, stream);
    s := Delivered(bits, data, bits, far);
    ReachedAt(s, bits);
    MakeLed(s, stream);
    EndAfter(s, stream);
  }

  /** Whatever part of a stream a decoder has had, its output begins the data, and it has not had to give
      up if its window is as large as the distances in the stream. */
  lemma OnTheWay(i: Inflate, stream: seq<byte>, data: seq<byte>, far: nat)
    requires i.Valid() && i.all <= stream && Delivers(BytesBits(stream), data, far) && far <= Pow2(i.wbits)
    ensures i.exact && i.hist <= data
    ensures i.all == stream && After(i.abs, i.all) == None ==> i.hist == data && i.st.mode == DONE
  {
    hide *;
    i.ValidParts();
    var s := EndState(stream, data, far);
    FarWithin(s, stream, Pow2(i.wbits));
    WithinPrefix(i.all, stream, Pow2(i.wbits));
    i.WithinExact();
    OneCourse(i.abs, i.all, s, stream);
    if i.all == stream && After(i.abs, i.all) == None {
      SameStop(i.abs, s, stream);
    }
  }

  function Concat(pieces: seq<seq<byte>>): seq<byte>
  {
    if pieces == [] then [] else Concat(pieces[..|pieces| - 1]) + pieces[|pieces| - 1]
  }

  /** deflate() on the data in pieces of any size, with or without lazy matching, and then with Z_FINISH
      until the stream is complete. The tokens sent on the way stand for the data, and each has its reason. */
  method Compress(d: Deflate, fast: bool, pieces: seq<seq<byte>>) returns (stream: seq<byte>)
    requires d.Running(fast) && d.total == [] && d.input == []
    modifies d, d.block, d.block.w, d.block.l, d.block.d, d.block.bl
    modifies d.block.l.heap, d.block.d.heap, d.block.bl.heap
    ensures GoodCfg(d.cfg) && Delivers(BytesBits(stream), Concat(pieces), MaxDist(d.cfg))
    ensures Log(d.cfg, d.Tuned(), fast, d.log) && Expandable([], TokensIn(d.log))
    ensures Expand([], TokensIn(d.log)) == Concat(pieces)
  {
    hide *;
    ConcatNone();
    var r: Result;
    for k := 0 to |pieces|
      invariant d.Running(fast) && d.total + d.input == Concat(pieces[..k])
    {
      ConcatNext(pieces, k);
      ghost var before := d.input;
      d.Supply(pieces[k], fast);
      assert d.total + (before + pieces[k]) == d.total + before + pieces[k];
      r := d.Compress(fast, true, false);
    }
    assert pieces[..|pieces|] == pieces;
    r := d.Compress(fast, false, true);
    while r == NeedMore
      invariant r != BlockDone && d.total + d.input == Concat(pieces) && (r == NeedMore ==> d.Running(fast))
      invariant r != NeedMore ==>
        d.input == [] && GoodCfg(d.cfg) && Delivers(d.block.w.Written(), d.total, MaxDist(d.cfg))
      invariant r != NeedMore ==> d.block.w.Written() == BytesBits(d.block.w.pending)
      invariant Log(d.cfg, d.Tuned(), fast, d.log) && SeenIn(d.total, d.log)
      invariant r != NeedMore ==> End(d.log) == |d.total|
      decreases r == NeedMore, |d.input| + d.lookahead
    {
      r := d.Compress(fast, false, true);
    }
    assert d.total + [] == d.total;
    stream := d.block.w.pending;
    LogExpands(d.cfg, d.Tuned(), fast, d.log, d.total);
    assert d.total[..|d.total|] == d.total;
  }

  /** One call of inflate(): how many bytes of input it gets, its output space, and whether with Z_FINISH. */
  datatype Portion = Portion(size: nat, space: nat, finish: bool)

  /** inflate() on a stream in portions of any size, then on what is left of it, and on until it does not
      fill its output space. */
  method Decompress(i: Inflate, stream: seq<byte>, portions: seq<Portion>, space: nat, ghost data: seq<byte>,
                    ghost far: nat)
    returns (out: seq<byte>)
    requires i.Valid() && i.all == [] && i.hist == [] && space >= 1
    requires Delivers(BytesBits(stream), data, far) && far <= Pow2(i.wbits)
    modifies i, i.codes, i.distCodes, i.work
    ensures out == data && i.st.mode == DONE
  {
    hide *;
    var rest: seq<byte> := stream;
    out := [];
    for k := 0 to |portions|
      invariant i.Valid() && i.all + rest == stream && i.hist == out
    {
      var n: nat := if portions[k].size < |rest| then portions[k].size else |rest|;
      assert i.all + rest == i.all + rest[..n] + rest[n..];
      var o := i.Call(rest[..n], portions[k].space, portions[k].finish);
      out := out + o;
      rest := rest[n..];
    }
    var o := i.Call(rest, space, false);
    out := out + o;
    OnTheWay(i, stream, data, far);
    while |o| == space
      invariant i.Valid() && i.all == stream && i.hist == out && i.exact && out <= data
      invariant |o| == space || After(i.abs, i.all) == None
      decreases |data| - |out| + if |o| == space then 1 else 0
    {
      o := i.Call([], space, false);
      assert stream + [] == stream;
      out := out + o;
      OnTheWay(i, stream, data, far);
    }
    OnTheWay(i, stream, data, far);
  }

  /** What deflate() was given, in any pieces and with either way of matching, comes out of inflate(), in
      any portions, if inflate()'s window holds every distance that deflate() may use. */
  method Transmit(d: Deflate, fast: bool, pieces: seq<seq<byte>>, i: Inflate, portions: seq<Portion>, space: nat)
    returns (out: seq<byte>)
    requires d.Running(fast) && d.total == [] && d.input == []
    requires i.Valid() && i.all == [] && i.hist == [] && space >= 1 && d.cfg.W <= Pow2(i.wbits)
    modifies d, d.block, d.block.w, d.block.l, d.block.d, d.block.bl
    modifies d.block.l.heap, d.block.d.heap, d.block.bl.heap, i, i.codes, i.distCodes, i.work
    ensures out == Concat(pieces) && i.st.mode == DONE
  {
    hide *;
    var stream := Compress(d, fast, pieces);
    DistBelow(d.cfg);
    out := Decompress(i, stream, portions, space, Concat(pieces), MaxDist(d.cfg));
  }

  lemma DistBelow(c: Cfg)
    requires GoodCfg(c)
    ensures MaxDist(c) <= c.W
  {
  }

  lemma ConcatNone()
    ensures Concat([]) == []
  {
  }

  lemma ConcatNext(pieces: seq<seq<byte>>, k: nat)
    requires k < |pieces|
    ensures Concat(pieces[..k + 1]) == Concat(pieces[..k]) + pieces[k]
  {
    assert pieces[..k + 1][..k] == pieces[..k];
  }
}
