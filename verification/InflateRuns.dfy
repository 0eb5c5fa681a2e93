/** Runs of the decoding machine: more input never changes what was done with less, so that
    the output does not depend on how the input arrives. */
module InflateRuns {
  import opened Powers
  import opened Bits
  import opened BitStreams
  import opened Canonical
  import opened TableSpec
  import opened InflateSpec

  lemma PeekMono(b: seq<bool>, c: seq<bool>, pos: nat, n: nat)
    requires Fits(pos, n, b)
    ensures Fits(pos, n, b + c) && Peek(b + c, pos, n) == Peek(b, pos, n)
  {
    assert (b + c)[pos..pos + n] == b[pos..pos + n];
  }

  /** Decoding at pos gives the same with more bits behind. */
  lemma DecodeMono(t: CodeType, lens: seq<nat>, b: seq<bool>, c: seq<bool>, pos: nat)
    requires Accepted(t, lens) && pos <= |b| && Fits(pos, Decode(lens, Rest(b, pos)).bits, b)
    ensures Decode(lens, Rest(b + c, pos)) == Decode(lens, Rest(b, pos))
  {
    hide Accepted, ValueOf, Low, Pow2, Code;
    var n := |b| - pos;
    var x, y := Rest(b, pos), Rest(b + c, pos);
    assert (b + c)[pos..][..n] == b[pos..];
    ValuePrefix((b + c)[pos..], n);
    LowSmall(x, n);
    DecodeLow(t, lens, x, y, n);
  }

  lemma CodeLenMono(s: State, b: seq<bool>, c: seq<bool>)
    requires Ok(s) && s.mode == CODELENS && s.have < s.nlen + s.ndist && s.pos <= |b| && CodeLenStep(s, b).Some?
    ensures CodeLenStep(s, b + c) == CodeLenStep(s, b)
  {
    hide Accepted, Rest, Decode, Repeat, Peek;
    var d := Decode(s.lcode, Rest(b, s.pos));
    DecodeMono(CODES, s.lcode, b, c, s.pos);
    if Fits(s.pos, d.bits + 2, b) { PeekMono(b, c, s.pos + d.bits, 2); }
    if Fits(s.pos, d.bits + 3, b) { PeekMono(b, c, s.pos + d.bits, 3); }
    if Fits(s.pos, d.bits + 7, b) { PeekMono(b, c, s.pos + d.bits, 7); }
  }

  lemma ReadMono(s: State, b: seq<bool>, c: seq<bool>)
    requires Ok(s) && s.pos <= |b| && |b| % 8 == 0 && |c| % 8 == 0 && Step(s, b).Some?
    requires s.mode in {TYPE, STORED, COPY, TABLE, LENLENS, LENEXT, DISTEXT}
    ensures Step(s, b + c) == Step(s, b)
  {
    hide Accepted, Peek, ClearFrom, FixedLens, FixedDists, Align;
    forall pos: nat, n: nat | Fits(pos, n, b) ensures Fits(pos, n, b + c) && Peek(b + c, pos, n) == Peek(b, pos, n) {
      PeekMono(b, c, pos, n);
    }
  }

  /** A step taken on less input is the step taken on more. */
  lemma StepMono(s: State, b: seq<bool>, c: seq<bool>)
    requires Ok(s) && s.pos <= |b| && |b| % 8 == 0 && |c| % 8 == 0 && Step(s, b).Some?
    ensures Step(s, b + c) == Step(s, b)
  {
    hide Accepted, Rest, Decode, Peek, TypeStep, StoredStep, CopyStep, TableStep, LenLensStep, CodeLenStep;
    match s.mode
    case CODELENS => if s.have < s.nlen + s.ndist { CodeLenMono(s, b, c); }
    case LEN => DecodeMono(LENS, s.lcode, b, c, s.pos);
    case DIST => DecodeMono(DISTS, s.dcode, b, c, s.pos);
    case MATCH =>
    case LIT =>
    case _ => ReadMono(s, b, c);
  }

  /** A state at its place in the input. */
  predicate At(s: State, bits: seq<bool>)
  {
    Ok(s) && s.pos <= |bits| && |bits| % 8 == 0
  }

  /** The state n steps on, if the machine gets so far. */
  ghost function Iter(s: State, bits: seq<bool>, n: nat): (r: Option<State>)
    requires At(s, bits)
    ensures r.Some? ==> At(r.value, bits)
    decreases n
  {
    if n == 0 then Some(s)
    else if Step(s, bits).None? then None
    else
      StepOk(s, bits);
      Iter(Step(s, bits).value, bits, n - 1)
  }

  ghost predicate Reaches(s: State, s': State, bits: seq<bool>)
    requires At(s, bits)
  {
    exists n: nat :: Iter(s, bits, n) == Some(s')
  }

  /** The machine can go no further on this input. */
  predicate Stuck(s: State, bits: seq<bool>)
    requires At(s, bits)
  {
    Step(s, bits).None?
  }

  lemma {:induction false} IterConcat(s: State, bits: seq<bool>, n: nat, m: nat)
    requires At(s, bits) && Iter(s, bits, n).Some?
    ensures Iter(s, bits, n + m) == Iter(Iter(s, bits, n).value, bits, m)
    decreases n
  {
    hide Step, At;
    if n > 0 {
      StepAt(s, bits);
      IterConcat(Step(s, bits).value, bits, n - 1, m);
    }
  }

  lemma StepAt(s: State, bits: seq<bool>)
    requires At(s, bits)
    ensures Ok(s) && s.pos <= |bits| && |bits| % 8 == 0
    ensures Step(s, bits).Some? ==> At(Step(s, bits).value, bits) && s.out <= Step(s, bits).value.out
  {
    hide Step;
    if Step(s, bits).Some? {
      StepOk(s, bits);
    }
  }

  lemma {:induction false} IterMono(s: State, b: seq<bool>, c: seq<bool>, n: nat)
    requires At(s, b) && At(s, b + c) && |c| % 8 == 0 && Iter(s, b, n).Some?
    ensures Iter(s, b + c, n) == Iter(s, b, n)
    decreases n
  {
    hide Step, At;
    if n > 0 {
      StepAt(s, b);
      StepAt(s, b + c);
      StepMono(s, b, c);
      IterMono(Step(s, b).value, b, c, n - 1);
    }
  }

  lemma {:induction false} IterOut(s: State, bits: seq<bool>, n: nat)
    requires At(s, bits) && Iter(s, bits, n).Some?
    ensures s.out <= Iter(s, bits, n).value.out
    decreases n
  {
    hide Step, At;
    if n > 0 {
      StepAt(s, bits);
      IterOut(Step(s, bits).value, bits, n - 1);
    }
  }

  lemma ReachesTrans(s: State, s': State, s'': State, bits: seq<bool>)
    requires At(s, bits) && Reaches(s, s', bits) && At(s', bits) && Reaches(s', s'', bits)
    ensures Reaches(s, s'', bits)
  {
    hide Step, At, Iter;
    var n: nat :| Iter(s, bits, n) == Some(s');
    var m: nat :| Iter(s', bits, m) == Some(s'');
    IterConcat(s, bits, n, m);
  }

  lemma ReachesSelf(s: State, bits: seq<bool>)
    requires At(s, bits)
    ensures Reaches(s, s, bits)
  {
    assert Iter(s, bits, 0) == Some(s);
  }

  lemma ReachesStep(s: State, bits: seq<bool>)
    requires At(s, bits) && Step(s, bits).Some?
    ensures Reaches(s, Step(s, bits).value, bits) && At(Step(s, bits).value, bits)
  {
    hide Step;
    StepOk(s, bits);
    assert Iter(Step(s, bits).value, bits, 0) == Some(Step(s, bits).value);
    assert Iter(s, bits, 1) == Some(Step(s, bits).value);
  }

  /** What was reached stays reached when more input arrives. */
  lemma ReachesMore(s: State, s': State, b: seq<bool>, c: seq<bool>)
    requires At(s, b) && |c| % 8 == 0 && Reaches(s, s', b)
    ensures At(s, b + c) && Reaches(s, s', b + c) && At(s', b)
  {
    hide Step, Iter;
    var n: nat :| Iter(s, b, n) == Some(s');
    assert At(s, b + c);
    IterMono(s, b, c, n);
  }

  /** Of two states reached on the same input, one reaches the other. */
  lemma OneRun(s: State, s1: State, s2: State, bits: seq<bool>)
    requires At(s, bits) && Reaches(s, s1, bits) && Reaches(s, s2, bits)
    ensures At(s1, bits) && At(s2, bits) && (Reaches(s1, s2, bits) || Reaches(s2, s1, bits))
    ensures s1.out <= s2.out || s2.out <= s1.out
  {
    hide Step, At, Iter;
    var n: nat :| Iter(s, bits, n) == Some(s1);
    var m: nat :| Iter(s, bits, m) == Some(s2);
    if n <= m {
      IterConcat(s, bits, n, m - n);
      IterOut(s1, bits, m - n);
    } else {
      IterConcat(s, bits, m, n - m);
      IterOut(s2, bits, n - m);
    }
  }

  lemma StuckStays(s: State, s': State, bits: seq<bool>)
    requires At(s, bits) && Stuck(s, bits) && Reaches(s, s', bits)
    ensures s' == s
  {
    hide Step, At;
    var n: nat :| Iter(s, bits, n) == Some(s');
  }

  /** Two runs that got the same input, cut up in any way, and that both came to a stop for
      want of more are in the same state with the same output. */
  lemma SameEnd(s: State, s1: State, s2: State, bits: seq<bool>)
    requires At(s, bits) && Reaches(s, s1, bits) && Reaches(s, s2, bits)
    requires At(s1, bits) && Stuck(s1, bits) && At(s2, bits) && Stuck(s2, bits)
    ensures s1 == s2
  {
    hide Step, At, Reaches, Stuck;
    OneRun(s, s1, s2, bits);
    if Reaches(s1, s2, bits) {
      StuckStays(s1, s2, bits);
    } else {
      StuckStays(s2, s1, bits);
    }
  }
}
