/** How far back matches reach: which runs a window of limited size can serve. */
module InflateReach {
  import opened Powers
  import opened BitStreams
  import opened Canonical
  import opened TableSpec
  import opened InflateSpec
  import opened InflateRuns
  import opened InflateInput
  import opened InflateSteps

  /** The distance of a match, if it is valid at all, ends in the last `size` bytes of the first `base`
      bytes of output, or in what was put out since. */
  predicate Near(m: State, base: nat, size: nat)
  {
    m.offset <= |m.out| ==> m.offset + base <= |m.out| + size
  }

  /** Every match on the way to s, from the output hist on. */
  ghost predicate Cleared(s: State, all: seq<byte>, hist: seq<byte>, wbits: nat)
  {
    forall m :: Led(m, all) && m.mode == MATCH && |hist| <= |m.out| < |s.out| ==> Near(m, |hist|, Pow2(wbits))
  }

  /** A call of inflate() that finds `base` bytes of output in its window and has room for `space`
      more needs no byte that has left the window. */
  ghost predicate Served(all: seq<byte>, base: nat, space: nat, size: nat)
  {
    forall m :: Led(m, all) && m.mode == MATCH && base <= |m.out| < base + space ==> Near(m, base, size)
  }

  /** No match in the input reaches back further than `size` bytes. */
  ghost predicate Within(all: seq<byte>, size: nat)
  {
    forall m :: Led(m, all) && m.mode == MATCH && m.offset <= |m.out| ==> m.offset <= size
  }

  /** Distances up to the window's size are served whatever the calls. */
  lemma WithinServed(all: seq<byte>, base: nat, space: nat, size: nat)
    requires Within(all, size)
    ensures Served(all, base, space, size)
  {
    hide Led;
  }

  /** A run that goes on from s makes the step from s. */
  lemma Ahead(s: State, m: State, bits: seq<bool>)
    requires At(s, bits) && Reaches(s, m, bits) && s != m
    ensures Step(s, bits).Some? && Step(s, bits).value.out <= m.out && Step(s, bits).value.far <= m.far
  {
    hide Step, At;
    var n: nat :| Iter(s, bits, n) == Some(m);
    assert n > 0;
    StepAt(s, bits);
    IterOut(Step(s, bits).value, bits, n - 1);
    IterFar(Step(s, bits).value, bits, n - 1);
  }

  lemma {:induction false} IterFar(s: State, bits: seq<bool>, n: nat)
    requires At(s, bits) && Iter(s, bits, n).Some?
    ensures s.far <= Iter(s, bits, n).value.far
    decreases n
  {
    hide Step, At;
    if n > 0 {
      StepAt(s, bits);
      StepOk(s, bits);
      IterFar(Step(s, bits).value, bits, n - 1);
    }
  }

  lemma Grows(m: State, all: seq<byte>)
    requires Led(m, all) && m.mode == MATCH && m.offset <= |m.out|
    ensures At(m, BytesBits(all)) && Step(m, BytesBits(all)).Some? && |Step(m, BytesBits(all)).value.out| > |m.out|
    ensures Step(m, BytesBits(all)).value.far >= m.offset
  {
    hide BytesBits, Reaches;
  }

  /** At each length of the output only one state of the run adds to it. */
  lemma OneWriter(s: State, m: State, all: seq<byte>)
    requires Led(s, all) && Led(m, all) && |s.out| == |m.out| && m.mode == MATCH && m.offset <= |m.out|
    requires After(s, all).Some? && |After(s, all).value.out| > |s.out|
    ensures m == s
  {
    hide BytesBits, Reaches, Step, At, Ok;
    var bits := BytesBits(all);
    Grows(m, all);
    OneRun(Start(), s, m, bits);
    if m != s {
      if Reaches(s, m, bits) {
        Ahead(s, m, bits);
      } else {
        Ahead(m, s, bits);
      }
    }
  }

  lemma StepSize(s: State, all: seq<byte>)
    requires After(s, all).Some?
    ensures |After(s, all).value.out| <= |s.out| + 1
  {
    hide BytesBits, Decode, Rest, Accepted, Peek;
  }

  /** One step on, past a match that is near. */
  lemma ClearedStep(s: State, all: seq<byte>, hist: seq<byte>, wbits: nat)
    requires Led(s, all) && Cleared(s, all, hist, wbits) && After(s, all).Some?
    requires s.mode == MATCH ==> Near(s, |hist|, Pow2(wbits))
    ensures Led(After(s, all).value, all) && Cleared(After(s, all).value, all, hist, wbits)
  {
    hide Led, After, Pow2;
    LedStep(s, all);
    var s' := After(s, all).value;
    forall m | Led(m, all) && m.mode == MATCH && |hist| <= |m.out| < |s'.out| ensures Near(m, |hist|, Pow2(wbits)) {
      if |m.out| >= |s.out| && m.offset <= |m.out| {
        StepSize(s, all);
        OneWriter(s, m, all);
      }
    }
  }

  /** n bytes of a match are n steps. */
  lemma {:induction false} MatchRun(s: State, all: seq<byte>, n: nat, hist: seq<byte>, wbits: nat)
    requires Led(s, all) && s.mode == MATCH && 1 <= s.offset <= |s.out| && 1 <= n <= s.length
    requires Cleared(s, all, hist, wbits) && Near(s, |hist|, Pow2(wbits))
    ensures Led(Copied(s, n), all) && Cleared(Copied(s, n), all, hist, wbits)
    decreases n
  {
    hide Led, After, BytesBits, Cleared, Pow2;
    MatchOne(s, all);
    ClearedStep(s, all, hist, wbits);
    if n > 1 {
      MatchRun(After(s, all).value, all, n - 1, hist, wbits);
    }
  }

  /** Lines 906-914: n bytes at once are n steps. */
  lemma {:induction false} CopyRun(s: State, all: seq<byte>, next: seq<byte>, n: nat, hist: seq<byte>, wbits: nat)
    requires Led(s, all) && s.mode == COPY && n <= s.length && n <= |next| && Held(all, next, 0, 0, s.pos)
    requires Cleared(s, all, hist, wbits)
    ensures var s' := s.(out := s.out + next[..n], length := s.length - n, pos := s.pos + 8 * n);
      Led(s', all) && Cleared(s', all, hist, wbits) && Held(all, next[n..], 0, 0, s'.pos)
    decreases n
  {
    hide Led, Cleared, Held, BytesBits, Peek, Reaches, After;
    if n == 0 {
      assert s.out + next[..0] == s.out && next[0..] == next;
    } else {
      var s1 := s.(out := s.out + [next[0]], length := s.length - 1, pos := s.pos + 8);
      HeldByte(all, next, s.pos);
      CopyOne(s, all, next[0]);
      ClearedStep(s, all, hist, wbits);
      CopyRun(s1, all, next[1..], n - 1, hist, wbits);
      assert s.out + [next[0]] + next[1..][..n - 1] == s.out + next[..n];
      assert next[1..][n - 1..] == next[n..];
    }
  }

  /** At the beginning of a call. */
  lemma ClearedFresh(s: State, all: seq<byte>, hist: seq<byte>, wbits: nat)
    requires |s.out| <= |hist|
    ensures Cleared(s, all, hist, wbits)
  {
  }

  /** The call has filled its space. */
  lemma ClearedFull(s: State, all: seq<byte>, hist: seq<byte>, space: nat, wbits: nat)
    requires Cleared(s, all, hist, wbits) && |s.out| == |hist| + space
    ensures Served(all, |hist|, space, Pow2(wbits))
  {
    hide Led, Pow2;
  }

  /** The machine can do no more. */
  lemma ClearedEnd(s: State, all: seq<byte>, hist: seq<byte>, space: nat, wbits: nat)
    requires Led(s, all) && Cleared(s, all, hist, wbits) && After(s, all) == None
    ensures Served(all, |hist|, space, Pow2(wbits))
  {
    hide BytesBits, Reaches, Step, At, Ok, Pow2;
    forall m | Led(m, all) && m.mode == MATCH && |hist| <= |m.out| < |hist| + space
      ensures Near(m, |hist|, Pow2(wbits))
    {
      if m.offset <= |m.out| {
        BeforeEnd(s, m, all);
      }
    }
  }

  lemma BeforeEnd(s: State, m: State, all: seq<byte>)
    requires Led(s, all) && After(s, all) == None && Led(m, all) && m.mode == MATCH && m.offset <= |m.out|
    ensures |m.out| < |s.out| && m.offset <= s.far
  {
    hide BytesBits, Reaches, Step, At, Ok;
    var bits := BytesBits(all);
    Grows(m, all);
    OneRun(Start(), s, m, bits);
    if m != s {
      if Reaches(s, m, bits) {
        Ahead(s, m, bits);
      } else {
        Ahead(m, s, bits);
      }
    }
  }

  /** Where a finished run has not copied over more than `size` bytes, no match reaches further. */
  lemma FarWithin(s: State, all: seq<byte>, size: nat)
    requires Led(s, all) && After(s, all) == None && s.far <= size
    ensures Within(all, size)
  {
    hide Led, After;
    forall m | Led(m, all) && m.mode == MATCH && m.offset <= |m.out| ensures m.offset <= size {
      BeforeEnd(s, m, all);
    }
  }

  /** What the test of line 1151 finds too far back, though it is not before the beginning, has left the
      window. */
  lemma NotNear(s: State, hist: seq<byte>, put: seq<byte>, window: seq<byte>, wnext: nat, whave: nat, wbits: nat)
    requires Written(s.out, hist, put, window, wnext, whave, wbits) && |put| + whave < s.offset <= |s.out|
    ensures !Near(s, |hist|, Pow2(wbits))
  {
    hide Pow2;
  }

  lemma IsNear(s: State, hist: seq<byte>, put: seq<byte>, window: seq<byte>, wnext: nat, whave: nat, wbits: nat)
    requires Written(s.out, hist, put, window, wnext, whave, wbits) && s.offset <= |put| + whave
    ensures Near(s, |hist|, Pow2(wbits))
  {
    hide Pow2;
  }

  lemma NearFar(s: State, base: nat, size: nat)
    requires s.offset > |s.out|
    ensures Near(s, base, size)
  {
  }

  lemma Unserved(m: State, all: seq<byte>, base: nat, space: nat, size: nat)
    requires Led(m, all) && m.mode == MATCH && base <= |m.out| < base + space && !Near(m, base, size)
    ensures !Served(all, base, space, size) && size < m.offset <= |m.out|
  {
  }

  lemma TooFarBack(m: State, all: seq<byte>, size: nat)
    requires Led(m, all) && m.mode == MATCH && size < m.offset <= |m.out|
    ensures !Within(all, size)
  {
  }

  /** The format allows no distance above 32K. */
  lemma AllWithin(all: seq<byte>)
    ensures Within(all, Pow2(MAXBITS))
  {
    hide Led, Pow2;
    FifteenBits();
    forall m | Led(m, all) && m.mode == MATCH && m.offset <= |m.out| ensures m.offset <= Pow2(MAXBITS) {
      MatchLimits(m, all);
    }
  }

  lemma WithinPrefix(all: seq<byte>, stream: seq<byte>, size: nat)
    requires Within(stream, size) && all <= stream
    ensures Within(all, size)
  {
    hide Led;
    forall m | Led(m, all) && m.mode == MATCH && m.offset <= |m.out| ensures m.offset <= size {
      assert all + stream[|all|..] == stream;
      LedMore(m, all, stream[|all|..]);
    }
  }
}
