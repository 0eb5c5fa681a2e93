/** The decoder as a deterministic machine that reads one bit string and appends to one
    output: the states of inflate() from TYPE on, without buffers, calls or tables. */
module InflateSpec {
  import opened Powers
  import opened BitStreams
  import opened Canonical
  import opened TableSpec

  datatype Option<T> = None | Some(value: T)

  datatype Mode =
    | TYPE | STORED | COPY | TABLE | LENLENS | CODELENS | LEN | LENEXT | DIST | DISTEXT | MATCH | LIT | DONE | BAD

  /** pos counts the bits read; lcode and dcode are the code lengths behind the tables in use; far is the
      largest distance that any byte has been copied over. */
  datatype State = State(mode: Mode, last: bool, pos: nat, out: seq<byte>, length: nat, offset: nat, extra: nat,
                         nlen: nat, ndist: nat, ncode: nat, have: nat, lens: seq<nat>, lcode: seq<nat>,
                         dcode: seq<nat>, far: nat)

  const ORDER: seq<nat> := [16, 17, 18, 0, 8, 7, 9, 6, 10, 5, 11, 4, 12, 3, 13, 2, 14, 1, 15]

  /** The lengths of the fixed code: section 3.2.6 of RFC 1951. */
  function FixedLens(): seq<nat>
  {
    seq(144, _ => 8) + seq(112, _ => 9) + seq(24, _ => 7) + seq(8, _ => 8)
  }

  function FixedDists(): seq<nat>
  {
    seq(32, _ => 5)
  }

  function Start(): State
  {
    State(TYPE, false, 0, [], 0, 0, 0, 0, 0, 0, 0, seq(320, _ => 0), [], [], 0)
  }

  function Fits(pos: nat, n: nat, bits: seq<bool>): bool
  {
    pos + n <= |bits|
  }

  /** The n bits at pos as a number. */
  function Peek(bits: seq<bool>, pos: nat, n: nat): (r: nat)
    requires Fits(pos, n, bits)
    ensures r < Pow2(n)
  {
    ValueOf(bits[pos..pos + n])
  }

  /** All the bits from pos on. */
  function Rest(bits: seq<bool>, pos: nat): nat
    requires pos <= |bits|
  {
    ValueOf(bits[pos..])
  }

  function Align(pos: nat): nat
  {
    (pos + 7) / 8 * 8
  }

  /** Lines 849-886. */
  function TypeStep(s: State, bits: seq<bool>): Option<State>
  {
    if s.last then Some(s.(mode := DONE, pos := Align(s.pos)))
    else if !Fits(s.pos, 3, bits) then None
    else
      var v := Peek(bits, s.pos, 3);
      var s1 := s.(last := v % 2 == 1, pos := s.pos + 3);
      match v / 2
      case 0 => Some(s1.(mode := STORED))
      case 1 => Some(s1.(mode := LEN, lcode := FixedLens(), dcode := FixedDists()))
      case 2 => Some(s1.(mode := TABLE))
      case _ => Some(s1.(mode := BAD))
  }

  /** Lines 887-900. */
  function StoredStep(s: State, bits: seq<bool>): Option<State>
  {
    if s.pos % 8 != 0 then Some(s.(pos := Align(s.pos)))
    else if !Fits(s.pos, 32, bits) then None
    else
      var len, check := Peek(bits, s.pos, 16), Peek(bits, s.pos + 16, 16);
      if len + check != 0xFFFF then Some(s.(mode := BAD))
      else Some(s.(mode := COPY, length := len, pos := s.pos + 32))
  }

  lemma PeekByte(bits: seq<bool>, pos: nat)
    requires Fits(pos, 8, bits)
    ensures Peek(bits, pos, 8) < 256
  {
    hide ValueOf;
    EightBits();
  }

  /** Lines 903-919, one byte at a time. */
  function CopyStep(s: State, bits: seq<bool>): Option<State>
  {
    if s.length == 0 then Some(s.(mode := TYPE))
    else if !Fits(s.pos, 8, bits) then None
    else
      PeekByte(bits, s.pos);
      Some(s.(out := s.out + [Peek(bits, s.pos, 8)], length := s.length - 1, pos := s.pos + 8))
  }

  /** Lines 920-937. */
  function TableStep(s: State, bits: seq<bool>): Option<State>
  {
    if !Fits(s.pos, 14, bits) then None
    else
      var s1 := s.(nlen := Peek(bits, s.pos, 5) + 257, ndist := Peek(bits, s.pos + 5, 5) + 1,
                   ncode := Peek(bits, s.pos + 10, 4) + 4, pos := s.pos + 14);
      if s1.nlen > 286 || s1.ndist > 30 then Some(s1.(mode := BAD)) else Some(s1.(mode := LENLENS, have := 0))
  }

  /** Zeros for the code length codes that were not sent. */
  function ClearFrom(lens: seq<nat>, k: nat): (r: seq<nat>)
    requires |lens| == 320
    ensures |r| == 320
    decreases 19 - k
  {
    if k >= 19 then lens else ClearFrom(lens[ORDER[k] := 0], k + 1)
  }

  /** Lines 938-958. */
  function LenLensStep(s: State, bits: seq<bool>): Option<State>
    requires |s.lens| == 320 && s.ncode <= 19
  {
    if s.have < s.ncode then
      if !Fits(s.pos, 3, bits) then None
      else Some(s.(lens := s.lens[ORDER[s.have] := Peek(bits, s.pos, 3)], have := s.have + 1, pos := s.pos + 3))
    else
      var lens := ClearFrom(s.lens, s.have);
      if Accepted(CODES, lens[..19]) then Some(s.(mode := CODELENS, lens := lens, lcode := lens[..19], have := 0))
      else Some(s.(mode := BAD, lens := lens))
  }

  /** n copies of len from index have on. */
  function Repeat(lens: seq<nat>, have: nat, n: nat, len: nat): (r: seq<nat>)
    requires have + n <= |lens|
    ensures |r| == |lens|
  {
    lens[..have] + seq(n, _ => len) + lens[have + n..]
  }

  /** Lines 970-1004: the symbol of n bits stands for `copy` lengths and has `more` bits after it. */
  function RepeatStep(s: State, bits: seq<bool>, n: nat, len: nat, base: nat, more: nat): Option<State>
    requires |s.lens| == 320 && s.nlen + s.ndist <= 320
  {
    if !Fits(s.pos, n + more, bits) then None
    else
      var copy := base + Peek(bits, s.pos + n, more);
      var s1 := s.(pos := s.pos + n + more);
      if s.have + copy > s.nlen + s.ndist then Some(s1.(mode := BAD))
      else Some(s1.(lens := Repeat(s.lens, s.have, copy, len), have := s.have + copy))
  }

  /** Lines 959-1005. */
  function CodeLenStep(s: State, bits: seq<bool>): Option<State>
    requires |s.lens| == 320 && s.nlen + s.ndist <= 320 && s.have < s.nlen + s.ndist && |s.lcode| == 19
    requires s.pos <= |bits|
  {
    var d := Decode(s.lcode, Rest(bits, s.pos));
    var val := if d.sym == 19 then 0 else d.sym;
    if !Fits(s.pos, d.bits, bits) then None
    else if val < 16 then Some(s.(lens := s.lens[s.have := val], have := s.have + 1, pos := s.pos + d.bits))
    else if val == 16 then
      if s.have == 0 then
        if Fits(s.pos, d.bits + 2, bits) then Some(s.(mode := BAD, pos := s.pos + d.bits)) else None
      else RepeatStep(s, bits, d.bits, s.lens[s.have - 1], 3, 2)
    else if val == 17 then RepeatStep(s, bits, d.bits, 0, 3, 3)
    else RepeatStep(s, bits, d.bits, 0, 11, 7)
  }

  /** Lines 1007-1043. */
  function CodesDone(s: State): State
    requires |s.lens| == 320 && s.nlen + s.ndist <= 320 && s.nlen > 256
  {
    if s.lens[256] == 0 || !Accepted(LENS, s.lens[..s.nlen])
       || !Accepted(DISTS, s.lens[s.nlen..s.nlen + s.ndist]) then s.(mode := BAD)
    else s.(mode := LEN, lcode := s.lens[..s.nlen], dcode := s.lens[s.nlen..s.nlen + s.ndist])
  }

  /** Lines 1044-1092. */
  function LenStep(s: State, bits: seq<bool>): Option<State>
    requires |s.lcode| <= 288 && s.pos <= |bits|
  {
    var d := Decode(s.lcode, Rest(bits, s.pos));
    var s1 := s.(pos := s.pos + d.bits);
    if !Fits(s.pos, d.bits, bits) then None
    else if d.sym == |s.lcode| then Some(s1.(mode := BAD))
    else if d.sym < 256 then Some(s1.(mode := LIT, length := d.sym))
    else if d.sym == 256 then Some(s1.(mode := TYPE))
    else if d.sym >= 286 then Some(s1.(mode := BAD))
    else Some(s1.(mode := LENEXT, length := LBASE[d.sym - 257], extra := LEXT[d.sym - 257] - 16))
  }

  /** Lines 1093-1102. */
  function LenExtStep(s: State, bits: seq<bool>): Option<State>
  {
    if !Fits(s.pos, s.extra, bits) then None
    else Some(s.(mode := DIST, length := s.length + Peek(bits, s.pos, s.extra), pos := s.pos + s.extra))
  }

  /** Lines 1103-1129. */
  function DistStep(s: State, bits: seq<bool>): Option<State>
    requires |s.dcode| <= 32 && s.pos <= |bits|
  {
    var d := Decode(s.dcode, Rest(bits, s.pos));
    var s1 := s.(pos := s.pos + d.bits);
    if !Fits(s.pos, d.bits, bits) then None
    else if d.sym == |s.dcode| || d.sym >= 30 then Some(s1.(mode := BAD))
    else Some(s1.(mode := DISTEXT, offset := DBASE[d.sym], extra := DEXT[d.sym] - 16))
  }

  /** Lines 1130-1145. */
  function DistExtStep(s: State, bits: seq<bool>): Option<State>
  {
    if !Fits(s.pos, s.extra, bits) then None
    else Some(s.(mode := MATCH, offset := s.offset + Peek(bits, s.pos, s.extra), pos := s.pos + s.extra))
  }

  function Max(a: nat, b: nat): nat
  {
    if a < b then b else a
  }

  /** Lines 1146-1190, one byte at a time. */
  function MatchStep(s: State): State
    requires s.offset >= 1 && s.length >= 1
  {
    if s.offset > |s.out| then s.(mode := BAD)
    else s.(mode := if s.length == 1 then LEN else MATCH, out := s.out + [s.out[|s.out| - s.offset]],
            length := s.length - 1, far := Max(s.far, s.offset))
  }

  /** Lines 1191-1196. */
  function LitStep(s: State): State
    requires s.length < 256
  {
    s.(mode := LEN, out := s.out + [s.length])
  }

  /** The codes in use were accepted. */
  predicate GoodCodes(s: State)
  {
    Accepted(LENS, s.lcode) && |s.lcode| <= 288 && Accepted(DISTS, s.dcode) && |s.dcode| <= 32
  }

  predicate GoodCounts(s: State)
  {
    257 <= s.nlen <= 286 && 1 <= s.ndist <= 30
  }

  /** What holds between steps. */
  predicate Ok(s: State)
  {
    && |s.lens| == 320
    && match s.mode
       case LENLENS =>
         GoodCounts(s) && s.have <= s.ncode <= 19 && forall k :: 0 <= k < s.have ==> s.lens[ORDER[k]] <= 7
       case CODELENS =>
         && GoodCounts(s) && s.have <= s.nlen + s.ndist && |s.lcode| == 19 && Accepted(CODES, s.lcode)
         && (forall i :: 0 <= i < s.have ==> s.lens[i] <= MAXBITS)
       case COPY => s.pos % 8 == 0
       case LEN => GoodCodes(s)
       case LENEXT => GoodCodes(s) && s.length >= 3 && s.extra <= 5 && s.length + Pow2(s.extra) <= 259
       case DIST => GoodCodes(s) && 3 <= s.length <= 258
       case DISTEXT =>
         GoodCodes(s) && 3 <= s.length <= 258 && s.offset >= 1 && s.extra <= 13 && s.offset + Pow2(s.extra) <= 32769
       case MATCH => GoodCodes(s) && 1 <= s.length <= 258 && 1 <= s.offset <= 32768
       case LIT => GoodCodes(s) && s.length < 256
       case _ => true
  }

  /** The next state, or None where the machine stops: for want of bits, or at the end. */
  function Step(s: State, bits: seq<bool>): Option<State>
    requires Ok(s) && s.pos <= |bits| && |bits| % 8 == 0
  {
    match s.mode
    case TYPE => TypeStep(s, bits)
    case STORED => StoredStep(s, bits)
    case COPY => CopyStep(s, bits)
    case TABLE => TableStep(s, bits)
    case LENLENS => LenLensStep(s, bits)
    case CODELENS => if s.have < s.nlen + s.ndist then CodeLenStep(s, bits) else Some(CodesDone(s))
    case LEN => LenStep(s, bits)
    case LENEXT => LenExtStep(s, bits)
    case DIST => DistStep(s, bits)
    case DISTEXT => DistExtStep(s, bits)
    case MATCH => Some(MatchStep(s))
    case LIT => Some(LitStep(s))
    case DONE => None
    case BAD => None
  }

  /** How one state may follow another. */
  ghost predicate Follows(s: State, s': State, bits: seq<bool>)
  {
    Ok(s') && s.pos <= s'.pos <= |bits| && s.out <= s'.out && s.far <= s'.far
  }

  lemma {:induction false} OccConst(n: nat, v: nat, b: nat)
    ensures Occ(seq(n, _ => v), b) == if v == b then n else 0
  {
    if n > 0 {
      OccConst(n - 1, v, b);
      assert seq(n, _ => v)[..n - 1] == seq(n - 1, _ => v);
    }
  }

  lemma {:induction false} OccConcat(s: seq<nat>, t: seq<nat>, b: nat)
    ensures Occ(s + t, b) == Occ(s, b) + Occ(t, b)
  {
    if t == [] {
      assert s + t == s;
    } else {
      OccConcat(s, t[..|t| - 1], b);
      assert (s + t)[..|s + t| - 1] == s + t[..|t| - 1];
    }
  }

  lemma FixedOcc(b: nat)
    ensures Occ(FixedLens(), b) == if b == 7 then 24 else if b == 8 then 152 else if b == 9 then 112 else 0
    ensures Occ(FixedDists(), b) == if b == 5 then 32 else 0
  {
    hide Occ;
    var a1: seq<nat>, a2: seq<nat>, a3: seq<nat>, a4: seq<nat>
      := seq(144, _ => 8), seq(112, _ => 9), seq(24, _ => 7), seq(8, _ => 8);
    OccConst(144, 8, b);
    OccConst(112, 9, b);
    OccConst(24, 7, b);
    OccConst(8, 8, b);
    OccConst(32, 5, b);
    OccConcat(a1, a2, b);
    OccConcat(a1 + a2, a3, b);
    OccConcat(a1 + a2 + a3, a4, b);
  }

  /** The fixed codes are complete. */
  lemma FixedAccepted()
    ensures Accepted(LENS, FixedLens()) && |FixedLens()| == 288 && RootCovers(FixedLens(), 9)
    ensures Accepted(DISTS, FixedDists()) && |FixedDists()| == 32 && RootCovers(FixedDists(), 5)
    ensures Space(FixedLens(), MAXBITS) == Pow2(MAXBITS) == Space(FixedDists(), MAXBITS)
  {
    hide Occ, Space, Pow2;
    var l, d := FixedLens(), FixedDists();
    FixedSpace(l, d);
    SpaceAtMax(l, 9);
    SpaceAtMax(d, 5);
  }

  lemma FixedSpace(l: seq<nat>, d: seq<nat>)
    requires l == FixedLens() && d == FixedDists()
    ensures Space(l, 9) == Pow2(9) && Space(d, 5) == Pow2(5)
  {
    hide Occ, FixedLens, FixedDists;
    forall b ensures Occ(l, b) == if b == 7 then 24 else if b == 8 then 152 else if b == 9 then 112 else 0 {
      FixedOcc(b);
    }
    forall b ensures Occ(d, b) == if b == 5 then 32 else 0 {
      FixedOcc(b);
    }
    assert Space(l, 0) == 0 && Space(l, 1) == 0 && Space(l, 2) == 0 && Space(l, 3) == 0 && Space(l, 4) == 0;
    assert Space(l, 5) == 0 && Space(l, 6) == 0 && Space(l, 7) == 24 && Space(l, 8) == 200 && Space(l, 9) == 512;
    assert Space(d, 0) == 0 && Space(d, 1) == 0 && Space(d, 2) == 0 && Space(d, 3) == 0 && Space(d, 4) == 0;
    assert Pow2(5) == 32 && Pow2(9) == 512;
  }

  lemma AlignFits(pos: nat, n: nat)
    requires pos <= n && n % 8 == 0
    ensures pos <= Align(pos) <= n && Align(pos) % 8 == 0
  {
  }

  lemma TypeOk(s: State, bits: seq<bool>)
    requires Ok(s) && s.mode == TYPE && s.pos <= |bits| && |bits| % 8 == 0 && TypeStep(s, bits).Some?
    ensures Follows(s, TypeStep(s, bits).value, bits)
  {
    hide Accepted, FixedLens, FixedDists, Peek, Align, Space, Pow2, RootCovers;
    AlignFits(s.pos, |bits|);
    FixedAccepted();
  }

  lemma StoredOk(s: State, bits: seq<bool>)
    requires Ok(s) && s.mode == STORED && s.pos <= |bits| && |bits| % 8 == 0 && StoredStep(s, bits).Some?
    ensures Follows(s, StoredStep(s, bits).value, bits)
  {
    hide Peek, Align;
    AlignFits(s.pos, |bits|);
  }

  lemma PeekSmall(bits: seq<bool>, pos: nat, n: nat)
    requires Fits(pos, n, bits) && n <= 7
    ensures Peek(bits, pos, n) < 128 && (n <= 5 ==> Peek(bits, pos, n) < 32) && (n <= 4 ==> Peek(bits, pos, n) < 16)
    ensures n <= 3 ==> Peek(bits, pos, n) < 8
  {
    hide ValueOf;
    Pow2Mono(n, 7);
    assert Pow2(7) == 128;
    if n <= 5 { Pow2Mono(n, 5); }
    if n <= 4 { Pow2Mono(n, 4); }
    if n <= 3 { Pow2Mono(n, 3); }
  }

  lemma TableOk(s: State, bits: seq<bool>)
    requires Ok(s) && s.mode == TABLE && s.pos <= |bits| && TableStep(s, bits).Some?
    ensures Follows(s, TableStep(s, bits).value, bits)
  {
    hide Peek;
    PeekSmall(bits, s.pos + 10, 4);
  }

  lemma {:induction false} ClearedOk(lens: seq<nat>, k: nat, i: nat)
    requires |lens| == 320 && k <= 19 && i < 19
    requires forall j :: 0 <= j < k ==> lens[ORDER[j]] <= 7
    ensures ORDER[i] < 320 && ClearFrom(lens, k)[ORDER[i]] <= 7
    decreases 19 - k
  {
    if k < 19 {
      ClearedOk(lens[ORDER[k] := 0], k + 1, i);
    }
  }

  lemma InOrder(i: nat) returns (k: nat)
    requires i < 19
    ensures k < 19 && ORDER[k] == i
  {
    k := [3, 17, 15, 13, 11, 9, 7, 5, 4, 6, 8, 10, 12, 14, 16, 18, 0, 1, 2][i];
  }

  /** The lengths of the code length codes are at most 7. */
  lemma ClearedSmall(lens: seq<nat>, k: nat)
    requires |lens| == 320 && k <= 19
    requires forall j :: 0 <= j < k ==> lens[ORDER[j]] <= 7
    ensures RootCovers(ClearFrom(lens, k)[..19], 7)
  {
    hide ClearFrom;
    forall i | 0 <= i < 19 ensures ClearFrom(lens, k)[i] <= 7 {
      var j := InOrder(i);
      ClearedOk(lens, k, j);
    }
  }

  lemma LenLensOk(s: State, bits: seq<bool>)
    requires Ok(s) && s.mode == LENLENS && s.pos <= |bits| && LenLensStep(s, bits).Some?
    ensures Follows(s, LenLensStep(s, bits).value, bits)
  {
    hide Peek, Accepted, ClearFrom;
    if s.have < s.ncode && Fits(s.pos, 3, bits) {
      PeekSmall(bits, s.pos, 3);
    }
  }

  lemma RepeatOk(s: State, bits: seq<bool>, n: nat, len: nat, base: nat, more: nat)
    requires Ok(s) && s.mode == CODELENS && s.pos <= |bits| && len <= MAXBITS
    requires RepeatStep(s, bits, n, len, base, more).Some?
    ensures Follows(s, RepeatStep(s, bits, n, len, base, more).value, bits)
  {
    hide Peek, Accepted;
  }

  lemma CodeLensOk(s: State, bits: seq<bool>)
    requires Ok(s) && s.mode == CODELENS && s.have < s.nlen + s.ndist && s.pos <= |bits| && CodeLenStep(s, bits).Some?
    ensures Follows(s, CodeLenStep(s, bits).value, bits)
  {
    hide Peek, Accepted, Repeat, RepeatStep, Rest;
    var d := Decode(s.lcode, Rest(bits, s.pos));
    var val := if d.sym == 19 then 0 else d.sym;
    if Fits(s.pos, d.bits, bits) && val >= 16 {
      if val == 16 {
        if s.have > 0 {
          RepeatOk(s, bits, d.bits, s.lens[s.have - 1], 3, 2);
        }
      } else if val == 17 {
        RepeatOk(s, bits, d.bits, 0, 3, 3);
      } else {
        RepeatOk(s, bits, d.bits, 0, 11, 7);
      }
    }
  }

  lemma LenOk(s: State, bits: seq<bool>)
    requires Ok(s) && s.mode == LEN && s.pos <= |bits| && LenStep(s, bits).Some?
    ensures Follows(s, LenStep(s, bits).value, bits)
  {
    hide Accepted, Rest, Decode, Pow2, LBASE, LEXT;
    var sym := Decode(s.lcode, Rest(bits, s.pos)).sym;
    LengthEntries(sym);
    if 257 <= sym < 286 {
      LengthLimit(sym - 257);
    }
  }

  /** No length is above 258. */
  lemma LengthLimit(c: nat)
    requires c < 29
    ensures LEXT[c] >= 16 && LBASE[c] + Pow2(LEXT[c] - 16) <= 259
  {
    assert Pow2(0) == 1 && Pow2(1) == 2 && Pow2(2) == 4 && Pow2(3) == 8 && Pow2(4) == 16 && Pow2(5) == 32;
  }

  lemma LengthEntries(sym: nat)
    ensures 257 <= sym < 286 ==> LBASE[sym - 257] >= 3 && 16 <= LEXT[sym - 257] <= 21
  {
  }

  lemma DistanceEntries(sym: nat)
    ensures sym < 30 ==> 1 <= DBASE[sym] && 16 <= DEXT[sym] <= 29
  {
  }

  /** No distance is above 32768. */
  lemma DistanceLimit(sym: nat)
    requires sym < 30
    ensures DEXT[sym] >= 16 && DBASE[sym] + Pow2(DEXT[sym] - 16) <= 32769
  {
    hide Pow2;
    assert Pow2(13) == 8192 by { ThirteenBits(); }
    if sym < 28 {
      assert DEXT[sym] <= 28 && DBASE[sym] <= 16385;
      Pow2Mono(DEXT[sym] - 16, 13);
    } else {
      assert DEXT[sym] == 29 && DBASE[sym] <= 24577;
    }
  }

  lemma ThirteenBits()
    ensures Pow2(13) == 8192
  {
    assert Pow2(5) == 32 && Pow2(8) == 256;
    Pow2Add(5, 8);
  }

  lemma DistOk(s: State, bits: seq<bool>)
    requires Ok(s) && s.mode == DIST && s.pos <= |bits| && DistStep(s, bits).Some?
    ensures Follows(s, DistStep(s, bits).value, bits)
  {
    hide Accepted, Rest, Decode, Pow2, DBASE, DEXT;
    var sym := Decode(s.dcode, Rest(bits, s.pos)).sym;
    DistanceEntries(sym);
    if sym < 30 {
      DistanceLimit(sym);
    }
  }

  /** Every step keeps the invariant, reads on and adds to the output. */
  lemma StepOk(s: State, bits: seq<bool>)
    requires Ok(s) && s.pos <= |bits| && |bits| % 8 == 0 && Step(s, bits).Some?
    ensures Follows(s, Step(s, bits).value, bits)
  {
    hide Accepted, Rest, Decode, TypeStep, StoredStep, TableStep, LenLensStep, CodeLenStep, LenStep, DistStep, Peek;
    match s.mode
    case TYPE => TypeOk(s, bits);
    case STORED => StoredOk(s, bits);
    case TABLE => TableOk(s, bits);
    case LENLENS => LenLensOk(s, bits);
    case CODELENS => if s.have < s.nlen + s.ndist { CodeLensOk(s, bits); }
    case LEN => LenOk(s, bits);
    case DIST => DistOk(s, bits);
    case _ =>
  }
}
