/** The steps of inflate() on values: what the fields of inflate_state, the accumulator and the
    window have to do with the state of the machine of InflateSpec, and that every state of the
    switch does what that machine does. */
module InflateSteps {
  import opened Powers
  import opened Bits
  import opened BitStreams
  import opened Canonical
  import opened TableSpec
  import opened InflateTable
  import opened InflateSpec
  import opened InflateRuns
  import opened InflateInput
  import opened InflateLookup
  import opened Tokens
  import IW = InflateWindow

  const ENOUGH: nat := ENOUGH_LENS + ENOUGH_DISTS

  /** The fields of inflate_state that mirror the abstract state. */
  datatype Conc = Conc(mode: Mode, last: bool, length: nat, offset: nat, extra: nat, nlen: nat, ndist: nat, ncode: nat,
                       have: nat, lens: seq<nat>, lencode: seq<Entry>, lenbits: nat,
                       distcode: seq<Entry>, distbits: nat)

  ghost predicate BothServe(c: Conc, s: State)
  {
    Serves(LENS, s.lcode, c.lencode, c.lenbits) && Serves(DISTS, s.dcode, c.distcode, c.distbits)
  }

  /** The fields that matter in each state agree. */
  ghost predicate Mirrors(c: Conc, s: State)
  {
    && c.mode == s.mode && c.last == s.last && c.lens == s.lens
    && match s.mode
       case COPY => c.length == s.length
       case LENLENS => c.nlen == s.nlen && c.ndist == s.ndist && c.ncode == s.ncode && c.have == s.have
       case CODELENS =>
         && c.nlen == s.nlen && c.ndist == s.ndist && c.have == s.have
         && Serves(CODES, s.lcode, c.lencode, c.lenbits) && RootCovers(s.lcode, c.lenbits)
       case LEN => BothServe(c, s)
       case LENEXT => BothServe(c, s) && c.length == s.length && c.extra == s.extra
       case DIST => BothServe(c, s) && c.length == s.length
       case DISTEXT => BothServe(c, s) && c.length == s.length && c.offset == s.offset && c.extra == s.extra
       case MATCH => BothServe(c, s) && c.length == s.length && c.offset == s.offset
       case LIT => BothServe(c, s) && c.length == s.length
       case _ => true
  }

  /** The abstract state is one that the whole input leads to. */
  ghost predicate Led(s: State, all: seq<byte>)
  {
    At(Start(), BytesBits(all)) && At(s, BytesBits(all)) && Reaches(Start(), s, BytesBits(all))
  }

  /** The next abstract state, where there is one. */
  ghost function After(s: State, all: seq<byte>): Option<State>
  {
    if At(s, BytesBits(all)) then Step(s, BytesBits(all)) else None
  }

  lemma LedStep(s: State, all: seq<byte>)
    requires Led(s, all) && After(s, all).Some?
    ensures Led(After(s, all).value, all)
  {
    hide Step, Reaches, At, BytesBits, Ok;
    LedParts(s, all);
    ReachesStep(s, BytesBits(all));
    ReachesTrans(Start(), s, Step(s, BytesBits(all)).value, BytesBits(all));
  }

  lemma LedParts(s: State, all: seq<byte>)
    requires Led(s, all)
    ensures At(s, BytesBits(all)) && Ok(s) && s.pos <= |BytesBits(all)| && |BytesBits(all)| % 8 == 0
  {
    hide Ok, Reaches, BytesBits;
  }

  lemma MakeLed(s: State, all: seq<byte>)
    requires At(Start(), BytesBits(all)) && At(s, BytesBits(all)) && Reaches(Start(), s, BytesBits(all))
    ensures Led(s, all)
  {
    hide At, Reaches, BytesBits;
  }

  /** The output is that of earlier calls, shown by the window, and that of this call. */
  ghost predicate Written(out: seq<byte>, hist: seq<byte>, put: seq<byte>, window: seq<byte>, wnext: nat, whave: nat,
                          wbits: nat)
  {
    out == hist + put && WindowOk(hist, window, wnext, whave, wbits)
  }

  ghost predicate WindowOk(hist: seq<byte>, window: seq<byte>, wnext: nat, whave: nat, wbits: nat)
  {
    if window == [] then hist == [] && whave == 0 else |window| == Pow2(wbits) && IW.Holds(window, wnext, whave, hist)
  }

  ghost predicate Lean(s: State, all: seq<byte>, next: seq<byte>, bits: nat)
  {
    bits < 8 || (|next| <= |all| && After(s, all[..|all| - |next|]) == None)
  }

  /** Where the states stand in a turn that neither reads nor writes. */
  function Rank(m: Mode): nat
  {
    match m
    case LENLENS => 9
    case CODELENS => 8
    case LENEXT => 7
    case DIST => 6
    case DISTEXT => 5
    case MATCH => 4
    case LEN => 3
    case COPY => 2
    case TYPE => 1
    case STORED => 1
    case TABLE => 1
    case LIT => 1
    case DONE => 0
    case BAD => 0
  }

  /** Bits were read, or bytes written, or the state moved on. */
  predicate Progress(n: nat, l: nat, m: Mode, n': nat, l': nat, m': Mode)
  {
    n' < n || (n' == n && (l' < l || (l' == l && Rank(m') < Rank(m))))
  }

  lemma AlignDrop(pos: nat, bits: nat)
    requires (pos + bits) % 8 == 0
    ensures Align(pos) == pos + bits % 8
  {
  }

  lemma HeldAligned(all: seq<byte>, next: seq<byte>, hold: nat, bits: nat, pos: nat)
    requires Held(all, next, hold, bits, pos)
    ensures (pos + bits) % 8 == 0
  {
  }

  lemma TypeLast(c: Conc, s: State, all: seq<byte>)
    requires Led(s, all) && Mirrors(c, s) && s.mode == TYPE && s.last
    ensures After(s, all) == Some(s.(mode := DONE, pos := Align(s.pos)))
    ensures Mirrors(c.(mode := DONE), s.(mode := DONE, pos := Align(s.pos)))
  {
    hide Align, BytesBits, Reaches;
  }

  lemma TypeNone(s: State, all: seq<byte>)
    requires Led(s, all) && s.mode == TYPE && !s.last && !Fits(s.pos, 3, BytesBits(all))
    ensures After(s, all) == None
  {
    hide Align, BytesBits, Fits, Reaches;
  }

  function BlockMode(k: nat): Mode
  {
    if k == 0 then STORED else if k == 1 then LEN else if k == 2 then TABLE else BAD
  }

  /** Lines 857-886. */
  lemma TypeNext(c: Conc, s: State, all: seq<byte>, v: nat, c': Conc) returns (s': State)
    requires Led(s, all) && Mirrors(c, s) && s.mode == TYPE && !s.last && Fits(s.pos, 3, BytesBits(all))
    requires v == Peek(BytesBits(all), s.pos, 3) && c'.last == (v % 2 == 1) && c'.lens == c.lens
    requires c'.mode == BlockMode(v / 2)
    requires v / 2 == 1 ==> Serves(LENS, FixedLens(), c'.lencode, c'.lenbits)
    requires v / 2 == 1 ==> Serves(DISTS, FixedDists(), c'.distcode, c'.distbits)
    ensures After(s, all) == Some(s') && Mirrors(c', s') && s'.pos == s.pos + 3 && s'.out == s.out && s'.mode != COPY
  {
    hide Align, BytesBits, Serves, Peek, FixedLens, FixedDists, Reaches;
    s' := Step(s, BytesBits(all)).value;
  }

  /** What has been pulled, as an input of its own. */
  lemma PulledHeld(all: seq<byte>, next: seq<byte>, hold: nat, bits: nat, pos: nat)
    requires Held(all, next, hold, bits, pos)
    ensures |next| <= |all| && Held(all[..|all| - |next|], [], hold, bits, pos)
  {
    hide ValueOf, BytesBits;
    var p := all[..|all| - |next|];
    assert all == p + next;
    BytesConcat(p, next);
    assert BytesBits(all)[pos..pos + bits] == BytesBits(p)[pos..pos + bits];
    assert p[|p|..] == [];
  }

  /** The states that need a given number of bits, or none, can step when they have them. */
  lemma MustStep(s: State, p: seq<byte>, hold: nat, bits: nat)
    requires Ok(s) && Held(p, [], hold, bits, s.pos)
    ensures s.mode == TYPE && (s.last || bits >= 3) ==> After(s, p).Some?
    ensures s.mode == STORED && (s.pos % 8 != 0 || bits >= 32) ==> After(s, p).Some?
    ensures s.mode == COPY && (s.length == 0 || bits >= 8) ==> After(s, p).Some?
    ensures s.mode == TABLE && bits >= 14 ==> After(s, p).Some?
    ensures s.mode == LENLENS && (s.have == s.ncode || bits >= 3) ==> After(s, p).Some?
    ensures s.mode == CODELENS && s.have == s.nlen + s.ndist ==> After(s, p).Some?
    ensures (s.mode == LENEXT || s.mode == DISTEXT) && bits >= s.extra ==> After(s, p).Some?
    ensures s.mode == MATCH || s.mode == LIT ==> After(s, p).Some?
  {
    hide BytesBits, ValueOf, Peek, Accepted, CodeLenStep, LenStep, DistStep, ClearFrom, Align, FixedLens, FixedDists;
    PulledAt(s, p, hold, bits);
    assert |BytesBits(p)| == s.pos + bits;
  }

  lemma HeldSame(all: seq<byte>, next: seq<byte>, next': seq<byte>, hold: nat, hold': nat, bits: nat, pos: nat)
    requires Held(all, next, hold, bits, pos) && Held(all, next', hold', bits, pos)
    ensures hold' == hold && next' == next
  {
    hide ValueOf, BytesBits;
  }

  /** So can the states that need a symbol, when they have it. */
  lemma MustDecode(s: State, p: seq<byte>, hold: nat, bits: nat)
    requires Ok(s) && Held(p, [], hold, bits, s.pos)
    ensures s.mode == LEN && Decode(s.lcode, hold).bits <= bits ==> After(s, p).Some?
    ensures s.mode == DIST && Decode(s.dcode, hold).bits <= bits ==> After(s, p).Some?
  {
    hide Ok, ValueOf, Decode, Accepted, BytesBits;
    PulledAt(s, p, hold, bits);
    assert BytesBits(p)[s.pos..] == BytesBits(p)[s.pos..s.pos + bits];
    if s.mode == LEN && Decode(s.lcode, hold).bits <= bits {
      LenCan(s, p, hold);
    } else if s.mode == DIST && Decode(s.dcode, hold).bits <= bits {
      DistCan(s, p, hold);
    }
  }

  lemma LenCan(s: State, p: seq<byte>, hold: nat)
    requires At(s, BytesBits(p)) && s.mode == LEN && Rest(BytesBits(p), s.pos) == hold
    requires Fits(s.pos, Decode(s.lcode, hold).bits, BytesBits(p))
    ensures After(s, p).Some?
  {
    hide Decode, Accepted, BytesBits, Rest;
  }

  lemma DistCan(s: State, p: seq<byte>, hold: nat)
    requires At(s, BytesBits(p)) && s.mode == DIST && Rest(BytesBits(p), s.pos) == hold
    requires Fits(s.pos, Decode(s.dcode, hold).bits, BytesBits(p))
    ensures After(s, p).Some?
  {
    hide Decode, Accepted, BytesBits, Rest;
  }

  /** The same for a code length and what follows it. */
  lemma MustCodeLen(s: State, p: seq<byte>, hold: nat, bits: nat)
    requires Ok(s) && Held(p, [], hold, bits, s.pos) && s.mode == CODELENS && s.have < s.nlen + s.ndist <= 320
    requires |s.lens| == 320 && |s.lcode| == 19
    requires var d := Decode(s.lcode, hold);
      && d.sym <= 19 && d.bits <= bits
      && (LengthValue(d) >= 16 ==> d.bits + RepeatMore(LengthValue(d)) <= bits)
    ensures After(s, p).Some?
  {
    hide Ok, ValueOf, Decode, Accepted, BytesBits, Repeat;
    PulledAt(s, p, hold, bits);
    assert BytesBits(p)[s.pos..] == BytesBits(p)[s.pos..s.pos + bits];
    CodeLenCan(s, p, hold);
  }

  lemma CodeLenCan(s: State, p: seq<byte>, hold: nat)
    requires At(s, BytesBits(p)) && s.mode == CODELENS && s.have < s.nlen + s.ndist <= 320 && |s.lens| == 320
    requires |s.lcode| == 19
    requires Rest(BytesBits(p), s.pos) == hold
    requires var d := Decode(s.lcode, hold);
      && d.sym <= 19 && Fits(s.pos, d.bits, BytesBits(p))
      && (LengthValue(d) >= 16 ==> Fits(s.pos, d.bits + RepeatMore(LengthValue(d)), BytesBits(p)))
    ensures After(s, p).Some?
  {
    hide Decode, Accepted, BytesBits, Rest, Repeat;
  }

  lemma PulledAt(s: State, p: seq<byte>, hold: nat, bits: nat)
    requires Ok(s) && Held(p, [], hold, bits, s.pos)
    ensures At(s, BytesBits(p)) && |BytesBits(p)| == s.pos + bits
  {
    hide Ok, ValueOf;
  }

  lemma StoredAlign(c: Conc, s: State, all: seq<byte>)
    requires Led(s, all) && Mirrors(c, s) && s.mode == STORED && s.pos % 8 != 0
    ensures After(s, all) == Some(s.(pos := Align(s.pos))) && Mirrors(c, s.(pos := Align(s.pos)))
  {
    hide Align, BytesBits, Reaches;
  }

  lemma StoredNone(s: State, all: seq<byte>)
    requires Led(s, all) && s.mode == STORED && s.pos % 8 == 0 && !Fits(s.pos, 32, BytesBits(all))
    ensures After(s, all) == None
  {
    hide Align, BytesBits, Fits, Reaches;
  }

  /** Lines 889-899. */
  lemma StoredNext(c: Conc, s: State, all: seq<byte>, len: nat, check: nat, c': Conc) returns (s': State)
    requires Led(s, all) && Mirrors(c, s) && s.mode == STORED && s.pos % 8 == 0 && s.pos + 32 <= |BytesBits(all)|
    requires len == Peek(BytesBits(all), s.pos, 16) && check == Peek(BytesBits(all), s.pos + 16, 16)
    requires c' == if len + check == 0xFFFF then c.(mode := COPY, length := len) else c.(mode := BAD)
    ensures After(s, all) == Some(s') && Mirrors(c', s') && s'.out == s.out
    ensures s'.mode == (if len + check == 0xFFFF then COPY else BAD)
    ensures s'.pos == if len + check == 0xFFFF then s.pos + 32 else s.pos
  {
    hide Align, BytesBits, Peek, Reaches;
    s' := Step(s, BytesBits(all)).value;
  }

  lemma CopyNone(s: State, all: seq<byte>)
    requires Led(s, all) && s.mode == COPY && s.length > 0 && !Fits(s.pos, 8, BytesBits(all))
    ensures After(s, all) == None
  {
    hide Align, BytesBits, Fits, Reaches;
  }

  lemma CopyDone(c: Conc, s: State, all: seq<byte>)
    requires Led(s, all) && Mirrors(c, s) && s.mode == COPY && s.length == 0
    ensures After(s, all) == Some(s.(mode := TYPE)) && Mirrors(c.(mode := TYPE), s.(mode := TYPE))
  {
    hide Align, BytesBits, Reaches;
  }

  lemma CopyOne(s: State, all: seq<byte>, b: byte)
    requires Led(s, all) && s.mode == COPY && s.length > 0 && Fits(s.pos, 8, BytesBits(all))
    requires Peek(BytesBits(all), s.pos, 8) == b
    ensures After(s, all) == Some(s.(out := s.out + [b], length := s.length - 1, pos := s.pos + 8))
  {
    hide Align, BytesBits, Peek, Reaches;
  }

  lemma WrittenMore(out: seq<byte>, hist: seq<byte>, put: seq<byte>, window: seq<byte>, wnext: nat, whave: nat,
                    wbits: nat,
                    more: seq<byte>)
    requires Written(out, hist, put, window, wnext, whave, wbits)
    ensures Written(out + more, hist, put + more, window, wnext, whave, wbits)
  {
    hide IW.Holds;
    assert hist + put + more == hist + (put + more);
  }

  lemma TableNone(s: State, all: seq<byte>)
    requires Led(s, all) && s.mode == TABLE && !Fits(s.pos, 14, BytesBits(all))
    ensures After(s, all) == None
  {
    hide Align, BytesBits, Fits, Reaches;
  }

  /** Lines 921-937. */
  lemma TableNext(c: Conc, s: State, all: seq<byte>, nlen: nat, ndist: nat, ncode: nat, c': Conc) returns (s': State)
    requires Led(s, all) && Mirrors(c, s) && s.mode == TABLE && s.pos + 14 <= |BytesBits(all)|
    requires nlen == Peek(BytesBits(all), s.pos, 5) + 257 && ndist == Peek(BytesBits(all), s.pos + 5, 5) + 1
    requires ncode == Peek(BytesBits(all), s.pos + 10, 4) + 4
    requires c' == if nlen > 286 || ndist > 30 then c.(mode := BAD, nlen := nlen, ndist := ndist, ncode := ncode)
                   else c.(mode := LENLENS, nlen := nlen, ndist := ndist, ncode := ncode, have := 0)
    ensures After(s, all) == Some(s') && Mirrors(c', s') && s'.out == s.out && s'.pos == s.pos + 14 && s'.mode != COPY
  {
    hide Align, BytesBits, Peek, Reaches;
    s' := Step(s, BytesBits(all)).value;
  }

  lemma LenLensNone(s: State, all: seq<byte>)
    requires Led(s, all) && s.mode == LENLENS && s.have < s.ncode && !Fits(s.pos, 3, BytesBits(all))
    ensures After(s, all) == None
  {
    hide Align, BytesBits, Fits, Reaches;
  }

  /** Lines 939-943. */
  lemma LenLensNext(c: Conc, s: State, all: seq<byte>, v: nat)
    requires Led(s, all) && Mirrors(c, s) && s.mode == LENLENS && s.have < s.ncode && s.pos + 3 <= |BytesBits(all)|
    requires v == Peek(BytesBits(all), s.pos, 3)
    ensures s.have < 19 && |s.lens| == 320
    ensures var s' := s.(lens := s.lens[ORDER[s.have] := v], have := s.have + 1, pos := s.pos + 3);
      After(s, all) == Some(s') && Mirrors(c.(lens := s'.lens, have := s'.have), s')
  {
    hide Align, BytesBits, Peek, Reaches, ClearFrom;
  }

  lemma LenLensParts(c: Conc, s: State, all: seq<byte>)
    requires Led(s, all) && Mirrors(c, s) && s.mode == LENLENS
    ensures c.have == s.have <= s.ncode == c.ncode <= 19 && |s.lens| == 320
  {
    hide BytesBits, Reaches;
  }

  /** Lines 944-958: the code length code is complete. */
  lemma LenLensDone(c: Conc, s: State, all: seq<byte>, lens: seq<nat>, ok: bool, c': Conc) returns (s': State)
    requires Led(s, all) && Mirrors(c, s) && s.mode == LENLENS && s.have == s.ncode && |s.lens| == 320
    requires lens == ClearFrom(s.lens, s.have) && ok == Accepted(CODES, lens[..19])
    requires if ok
      then c' == c.(mode := CODELENS, lens := lens, have := 0, lencode := c'.lencode, lenbits := c'.lenbits)
                && Serves(CODES, lens[..19], c'.lencode, c'.lenbits) && RootCovers(lens[..19], c'.lenbits)
             else c'.mode == BAD && c'.last == c.last && c'.lens == lens
    ensures After(s, all) == Some(s') && Mirrors(c', s') && s'.out == s.out && s'.pos == s.pos && s'.mode == c'.mode
  {
    hide Align, BytesBits, Peek, Reaches, ClearFrom, Accepted, Serves;
    s' := Step(s, BytesBits(all)).value;
  }

  /** The lengths that inflate_table gets for the code length code. */
  lemma LenLensSmall(s: State, all: seq<byte>)
    requires Led(s, all) && s.mode == LENLENS && |s.lens| == 320 && s.have <= 19
    ensures RootCovers(ClearFrom(s.lens, s.have)[..19], 7)
  {
    hide BytesBits, Reaches, ClearFrom;
    ClearedSmall(s.lens, s.have);
  }

  /** One more byte does not change the bits below it. */
  lemma LowPulled(hold: nat, b: nat, bits: nat, n: nat)
    requires n <= bits
    ensures Low(hold + b * Pow2(bits), n) == Low(hold, n)
  {
    LowPlus(hold, b, bits, n);
  }

  /** No byte was pulled before it was needed: b0 bits were there at first. */
  ghost predicate Thrifty(code: seq<nat>, b0: nat, hold: nat, bits: nat)
  {
    bits == b0 || (bits >= b0 + 8 && Decode(code, Low(hold, bits - 8)).bits > bits - 8)
  }

  lemma ThriftyPull(code: seq<nat>, b0: nat, hold: nat, bits: nat, b: nat)
    requires hold < Pow2(bits) && bits >= b0 && Decode(code, hold).bits > bits
    ensures Thrifty(code, b0, hold + b * Pow2(bits), bits + 8)
  {
    hide Low, Pow2, Decode;
    LowPulled(hold, b, bits, bits);
    LowSmall(hold, bits);
  }

  lemma ThriftyEnd(t: CodeType, code: seq<nat>, b0: nat, hold: nat, bits: nat)
    requires Accepted(t, code) && Thrifty(code, b0, hold, bits) && 1 <= Decode(code, hold).bits
    ensures bits == b0 || (Decode(code, hold).bits > bits - 8 >= b0)
  {
    hide Low, Decode, Accepted;
    var n := Decode(code, hold).bits;
    if bits != b0 && n <= bits - 8 {
      LowLow(hold, bits - 8, bits - 8);
      DecodeLow(t, code, hold, Low(hold, bits - 8), bits - 8);
    }
  }

  lemma RootSmall(t: CodeType, lens: seq<nat>, table: seq<Entry>, root: nat)
    requires Serves(t, lens, table, root)
    ensures root <= MAXBITS && Pow2(root) <= |table|
  {
  }

  lemma CodeLenParts(c: Conc, s: State, all: seq<byte>)
    requires Led(s, all) && Mirrors(c, s) && s.mode == CODELENS
    ensures c.have == s.have <= s.nlen + s.ndist <= 316 && c.nlen == s.nlen > 256 && c.ndist == s.ndist
    ensures |s.lens| == 320
    ensures |s.lcode| == 19 && Serves(CODES, s.lcode, c.lencode, c.lenbits) && Accepted(CODES, s.lcode)
    ensures forall i :: 0 <= i < s.have ==> s.lens[i] <= MAXBITS
    ensures 1 <= s.ndist <= 30 && s.nlen <= 286
  {
    hide BytesBits, Reaches, Serves, Accepted;
  }

  /** Where the decoded symbol takes the abstract machine: n is its number of bits. */
  lemma CodeLenSee(s: State, all: seq<byte>, n: nat)
    requires Led(s, all) && s.mode == CODELENS && s.have < s.nlen + s.ndist <= 320 && |s.lens| == 320 && |s.lcode| == 19
    ensures s.pos <= |BytesBits(all)| && After(s, all) == CodeLenStep(s, BytesBits(all))
  {
    hide BytesBits, Reaches, CodeLenStep;
  }

  lemma CodeLenNone(s: State, all: seq<byte>)
    requires Led(s, all) && s.mode == CODELENS && s.have < s.nlen + s.ndist <= 320 && |s.lens| == 320 && |s.lcode| == 19
    requires s.pos <= |BytesBits(all)|
    requires !Fits(s.pos, Decode(s.lcode, Rest(BytesBits(all), s.pos)).bits, BytesBits(all))
    ensures After(s, all) == None
  {
    hide BytesBits, Reaches, Decode, Rest;
    CodeLenSee(s, all, 0);
  }

  function LengthValue(d: Symbol): nat
  {
    if d.sym == 19 then 0 else d.sym
  }

  lemma CodeHit(lens: seq<nat>, d: Symbol)
    requires |lens| == 19 && d.sym <= 19
    ensures HitOf(CODES, lens, d).val == LengthValue(d)
  {
  }

  /** Lines 966-969. */
  lemma CodeLenPlain(c: Conc, s: State, all: seq<byte>, d: Symbol)
    requires Led(s, all) && Mirrors(c, s) && s.mode == CODELENS && s.have < s.nlen + s.ndist <= 320 && |s.lens| == 320
    requires |s.lcode| == 19 && s.pos <= |BytesBits(all)| && d == Decode(s.lcode, Rest(BytesBits(all), s.pos))
    requires Fits(s.pos, d.bits, BytesBits(all)) && LengthValue(d) < 16
    ensures var s' := s.(lens := s.lens[s.have := LengthValue(d)], have := s.have + 1, pos := s.pos + d.bits);
      After(s, all) == Some(s') && Mirrors(c.(lens := s'.lens, have := s'.have), s')
  {
    hide BytesBits, Reaches, Decode, Rest, Serves, RepeatStep, Accepted;
    CodeLenSee(s, all, 0);
  }

  /** The length, the smallest count and the extra bits of symbols 16 to 18. */
  function RepeatBase(val: nat): nat
  {
    if val == 18 then 11 else 3
  }

  function RepeatMore(val: nat): nat
  {
    if val == 16 then 2 else if val == 17 then 3 else 7
  }

  lemma CodeLenShort(s: State, all: seq<byte>, d: Symbol)
    requires Led(s, all) && s.mode == CODELENS && s.have < s.nlen + s.ndist <= 320 && |s.lens| == 320
    requires |s.lcode| == 19 && s.pos <= |BytesBits(all)| && d == Decode(s.lcode, Rest(BytesBits(all), s.pos))
    requires d.sym <= 19
    requires LengthValue(d) >= 16 && !Fits(s.pos, d.bits + RepeatMore(LengthValue(d)), BytesBits(all))
    ensures After(s, all) == None
  {
    hide BytesBits, Reaches, Decode, Rest, Accepted;
    CodeLenSee(s, all, 0);
  }

  /** Lines 971-978: nothing to repeat. */
  lemma CodeLenFirst(c: Conc, s: State, all: seq<byte>, d: Symbol)
    requires Led(s, all) && Mirrors(c, s) && s.mode == CODELENS && s.have < s.nlen + s.ndist <= 320 && |s.lens| == 320
    requires |s.lcode| == 19 && s.pos <= |BytesBits(all)| && d == Decode(s.lcode, Rest(BytesBits(all), s.pos))
    requires LengthValue(d) == 16 && s.have == 0 && Fits(s.pos, d.bits + 2, BytesBits(all))
    ensures var s' := s.(mode := BAD, pos := s.pos + d.bits);
      After(s, all) == Some(s') && Mirrors(c.(mode := BAD), s')
  {
    hide BytesBits, Reaches, Decode, Rest, Serves, RepeatStep, Accepted;
    CodeLenSee(s, all, 0);
  }

  /** Lines 979-1004. */
  lemma CodeLenRepeat(c: Conc, s: State, all: seq<byte>, d: Symbol, len: nat, copy: nat, c': Conc) returns (s': State)
    requires Led(s, all) && Mirrors(c, s) && s.mode == CODELENS && s.have < s.nlen + s.ndist <= 320 && |s.lens| == 320
    requires |s.lcode| == 19 && s.pos <= |BytesBits(all)| && d == Decode(s.lcode, Rest(BytesBits(all), s.pos))
    requires 16 <= LengthValue(d) <= 18 && (LengthValue(d) == 16 ==> s.have > 0)
    requires Fits(s.pos, d.bits + RepeatMore(LengthValue(d)), BytesBits(all))
    requires len == if LengthValue(d) == 16 then s.lens[s.have - 1] else 0
    requires copy == RepeatBase(LengthValue(d)) + Peek(BytesBits(all), s.pos + d.bits, RepeatMore(LengthValue(d)))
    requires c' == if s.have + copy > s.nlen + s.ndist then c.(mode := BAD)
                   else c.(lens := Repeat(s.lens, s.have, copy, len), have := s.have + copy)
    ensures After(s, all) == Some(s') && Mirrors(c', s') && s'.out == s.out && s'.mode == c'.mode
    ensures s'.pos == s.pos + d.bits + RepeatMore(LengthValue(d))
  {
    hide BytesBits, Reaches, Decode, Rest, Serves, Peek, Accepted, Repeat;
    CodeLenSee(s, all, 0);
    s' := After(s, all).value;
  }

  lemma CodesDoneIs(c: Conc, s: State, all: seq<byte>, ok: bool, c': Conc) returns (s': State)
    requires Led(s, all) && Mirrors(c, s) && s.mode == CODELENS && s.have == s.nlen + s.ndist <= 320 && |s.lens| == 320
    requires s.nlen > 256
    requires ok == (s.lens[256] != 0 && Accepted(LENS, s.lens[..s.nlen])
                    && Accepted(DISTS, s.lens[s.nlen..s.nlen + s.ndist]))
    requires c'.last == c.last && c'.lens == c.lens && c'.mode == if ok then LEN else BAD
    requires ok ==> Serves(LENS, s.lens[..s.nlen], c'.lencode, c'.lenbits)
    requires ok ==> Serves(DISTS, s.lens[s.nlen..s.nlen + s.ndist], c'.distcode, c'.distbits)
    ensures After(s, all) == Some(s') && Mirrors(c', s') && s'.out == s.out && s'.pos == s.pos && s'.mode == c'.mode
  {
    hide BytesBits, Reaches, Serves, Accepted, CodeLenStep;
    s' := CodesDone(s);
  }

  /** A part of the lengths read is fit for inflate_table. */
  lemma LensPart(lens: seq<nat>, i: nat, j: nat, n: nat)
    requires i <= j <= n <= |lens| && forall k :: 0 <= k < n ==> lens[k] <= MAXBITS
    ensures LengthsOk(lens[i..j])
  {
  }

  lemma TableSpaces(l: seq<nat>, d: seq<nat>)
    ensures SpaceFor(LENS, l, 9, ENOUGH) && SpaceFor(DISTS, d, 6, ENOUGH) && MaxCodes(LENS) == 288
    ensures MaxCodes(DISTS) == 32
  {
  }

  lemma LenParts(c: Conc, s: State, all: seq<byte>)
    requires Led(s, all) && Mirrors(c, s) && (s.mode == LEN || s.mode == DIST)
    ensures Serves(LENS, s.lcode, c.lencode, c.lenbits) && Serves(DISTS, s.dcode, c.distcode, c.distbits)
    ensures Accepted(LENS, s.lcode) && |s.lcode| <= 288 && Accepted(DISTS, s.dcode) && |s.dcode| <= 32
  {
    hide BytesBits, Reaches, Serves, Accepted;
  }

  lemma LenNone(s: State, all: seq<byte>)
    requires Led(s, all) && s.mode == LEN && s.pos <= |BytesBits(all)|
    requires !Fits(s.pos, Decode(s.lcode, Rest(BytesBits(all), s.pos)).bits, BytesBits(all))
    ensures After(s, all) == None
  {
    hide BytesBits, Reaches, Decode, Rest, Accepted;
  }

  lemma DistNone(s: State, all: seq<byte>)
    requires Led(s, all) && s.mode == DIST && s.pos <= |BytesBits(all)|
    requires !Fits(s.pos, Decode(s.dcode, Rest(BytesBits(all), s.pos)).bits, BytesBits(all))
    ensures After(s, all) == None
  {
    hide BytesBits, Reaches, Decode, Rest, Accepted;
  }

  /** The tests of lines 1073-1090 on op, as masks of single bits. */
  function Bit32(op: nat): bool
  {
    op / 32 % 2 == 1
  }

  function Bit64(op: nat): bool
  {
    op / 64 % 2 == 1
  }

  function Bit16(op: nat): bool
  {
    op / 16 % 2 == 1
  }

  /** Lines 1072-1092: what the state becomes. */
  function LenOutcome(c: Conc, op: nat, val: nat): Conc
  {
    var c1 := c.(length := val);
    if op == 0 then c1.(mode := LIT)
    else if Bit32(op) then c1.(mode := TYPE)
    else if Bit64(op) then c1.(mode := BAD)
    else c1.(mode := LENEXT, extra := op % 16)
  }

  /** Lines 1122-1129. */
  function DistOutcome(c: Conc, op: nat, val: nat): Conc
  {
    if Bit64(op) then c.(mode := BAD) else c.(mode := DISTEXT, offset := val, extra := op % 16)
  }

  /** How the entries of the literal and length symbols are told apart. */
  lemma LenEntries(i: nat)
    requires i < 288
    ensures var e := SymbolEntry(LENS, i, 0);
      && (i < 256 ==> e.op == 0 && e.val == i)
      && (i == 256 ==> e.op != 0 && Bit32(e.op))
      && (257 <= i < 286 ==>
            && e.op != 0 && !Bit32(e.op) && !Bit64(e.op)
            && e.op % 16 == LEXT[i - 257] - 16 && e.val == LBASE[i - 257])
      && (286 <= i ==> e.op != 0 && !Bit32(e.op) && Bit64(e.op))
  {
    if 257 <= i < 286 {
      LengthEntries(i);
    }
  }

  lemma DistEntries(i: nat)
    requires i < 32
    ensures var e := SymbolEntry(DISTS, i, 0);
      && (i < 30 ==> !Bit64(e.op) && e.op % 16 == DEXT[i] - 16 && e.val == DBASE[i])
      && (30 <= i ==> Bit64(e.op))
  {
    if i < 30 {
      DistanceEntries(i);
    }
  }

  /** The block and its codes are the same. */
  predicate SameCodes(s: State, s': State)
  {
    s'.lcode == s.lcode && s'.dcode == s.dcode && s'.last == s.last && s'.lens == s.lens
  }

  lemma LenNext(c: Conc, s: State, all: seq<byte>, d: Symbol, op: nat, val: nat) returns (s': State)
    requires Led(s, all) && Mirrors(c, s) && s.mode == LEN && s.pos <= |BytesBits(all)| && |s.lcode| <= 288
    requires d == Decode(s.lcode, Rest(BytesBits(all), s.pos)) && Fits(s.pos, d.bits, BytesBits(all))
    requires d.sym <= |s.lcode|
    requires Hit(op, val, d.bits) == HitOf(LENS, s.lcode, d)
    ensures After(s, all) == Some(s') && Mirrors(LenOutcome(c, op, val), s') && SameCodes(s, s')
    ensures s'.out == s.out && s'.pos == s.pos + d.bits && s'.mode != COPY
  {
    hide BytesBits, Reaches, Decode, Rest, Accepted, Serves, SymbolEntry, Bit32, Bit64, LBASE, LEXT;
    if d.sym < |s.lcode| {
      LenEntries(d.sym);
    } else {
      InvalidEntry();
    }
    s' := Step(s, BytesBits(all)).value;
  }

  lemma InvalidEntry()
    ensures !Bit32(64) && Bit64(64)
  {
  }

  lemma DistNext(c: Conc, s: State, all: seq<byte>, d: Symbol, op: nat, val: nat) returns (s': State)
    requires Led(s, all) && Mirrors(c, s) && s.mode == DIST && s.pos <= |BytesBits(all)| && |s.dcode| <= 32
    requires d == Decode(s.dcode, Rest(BytesBits(all), s.pos)) && Fits(s.pos, d.bits, BytesBits(all))
    requires d.sym <= |s.dcode|
    requires Hit(op, val, d.bits) == HitOf(DISTS, s.dcode, d)
    ensures After(s, all) == Some(s') && Mirrors(DistOutcome(c, op, val), s') && SameCodes(s, s')
    ensures s'.length == s.length
    ensures s'.out == s.out && s'.pos == s.pos + d.bits && s'.mode != COPY
  {
    hide BytesBits, Reaches, Decode, Rest, Accepted, Serves, SymbolEntry, Bit64, DBASE, DEXT;
    if d.sym < |s.dcode| {
      DistEntries(d.sym);
    } else {
      InvalidEntry();
    }
    s' := Step(s, BytesBits(all)).value;
  }

  lemma ExtraParts(c: Conc, s: State, all: seq<byte>)
    requires Led(s, all) && Mirrors(c, s) && (s.mode == LENEXT || s.mode == DISTEXT)
    ensures c.extra == s.extra <= 13
  {
    hide BytesBits, Reaches, Serves, Accepted;
  }

  lemma ExtraNone(s: State, all: seq<byte>)
    requires Led(s, all) && (s.mode == LENEXT || s.mode == DISTEXT) && !Fits(s.pos, s.extra, BytesBits(all))
    ensures After(s, all) == None
  {
    hide BytesBits, Reaches, Fits, Accepted;
  }

  /** Lines 1094-1102. */
  lemma LenExtNext(c: Conc, s: State, all: seq<byte>, v: nat)
    requires Led(s, all) && Mirrors(c, s) && s.mode == LENEXT && Fits(s.pos, s.extra, BytesBits(all))
    requires v == Peek(BytesBits(all), s.pos, s.extra)
    ensures var s' := s.(mode := DIST, length := s.length + v, pos := s.pos + s.extra);
      After(s, all) == Some(s') && Mirrors(c.(mode := DIST, length := c.length + v), s')
  {
    hide BytesBits, Reaches, Serves, Accepted, Peek;
  }

  /** Lines 1131-1145. */
  lemma DistExtNext(c: Conc, s: State, all: seq<byte>, v: nat)
    requires Led(s, all) && Mirrors(c, s) && s.mode == DISTEXT && Fits(s.pos, s.extra, BytesBits(all))
    requires v == Peek(BytesBits(all), s.pos, s.extra)
    ensures var s' := s.(mode := MATCH, offset := s.offset + v, pos := s.pos + s.extra);
      After(s, all) == Some(s') && Mirrors(c.(mode := MATCH, offset := c.offset + v), s')
  {
    hide BytesBits, Reaches, Serves, Accepted, Peek;
  }

  lemma LitNext(c: Conc, s: State, all: seq<byte>)
    requires Led(s, all) && Mirrors(c, s) && s.mode == LIT
    ensures c.length == s.length < 256
    ensures var s' := s.(mode := LEN, out := s.out + [s.length]);
      After(s, all) == Some(s') && Mirrors(c.(mode := LEN), s')
  {
    hide BytesBits, Reaches, Serves, Accepted;
  }

  lemma MatchParts(c: Conc, s: State, all: seq<byte>)
    requires Led(s, all) && Mirrors(c, s) && s.mode == MATCH
    ensures c.length == s.length >= 1 && c.offset == s.offset >= 1
  {
    hide BytesBits, Reaches, Serves, Accepted;
  }

  lemma MatchBad(c: Conc, s: State, all: seq<byte>)
    requires Led(s, all) && Mirrors(c, s) && s.mode == MATCH && s.offset > |s.out|
    ensures After(s, all) == Some(s.(mode := BAD)) && Mirrors(c.(mode := BAD), s.(mode := BAD))
  {
    hide BytesBits, Reaches, Serves, Accepted;
  }

  lemma MatchOne(s: State, all: seq<byte>)
    requires Led(s, all) && s.mode == MATCH && 1 <= s.offset <= |s.out| && s.length >= 1
    ensures After(s, all) == Some(s.(mode := if s.length == 1 then LEN else MATCH,
                                     out := s.out + [s.out[|s.out| - s.offset]], length := s.length - 1,
                                     far := Max(s.far, s.offset)))
  {
    hide BytesBits, Reaches, Serves, Accepted;
  }

  /** A match after n of its bytes have been copied. */
  function Copied(s: State, n: nat): State
    requires 1 <= s.offset <= |s.out| && 1 <= n <= s.length
  {
    s.(mode := if n == s.length then LEN else MATCH, out := CopyBack(s.out, n, s.offset), length := s.length - n,
       far := Max(s.far, s.offset))
  }

  lemma MatchMirrors(c: Conc, s: State, n: nat)
    requires Mirrors(c, s) && s.mode == MATCH && 1 <= n <= s.length && 1 <= s.offset <= |s.out|
    ensures Mirrors(c.(mode := if n == s.length then LEN else MATCH, length := c.length - n), Copied(s, n))
    ensures Copied(s, n).out == CopyBack(s.out, n, s.offset) && Copied(s, n).pos == s.pos
    ensures Copied(s, n).mode == (if n == s.length then LEN else MATCH) && SameCodes(s, Copied(s, n))
  {
    hide Serves, CopyBack;
  }

  lemma {:induction false} CopyBackSnoc(out: seq<byte>, n: nat, dist: nat)
    requires 1 <= dist <= |out|
    ensures CopyBack(out, n + 1, dist) == CopyBack(out, n, dist) + [CopyBack(out, n, dist)[|out| + n - dist]]
    decreases n
  {
    if n > 0 {
      CopyBackSnoc(out + [out[|out| - dist]], n - 1, dist);
    }
  }

  /** Lines 1171-1188: a byte of the window is a byte of the output before this call. */
  lemma WindowByte(hist: seq<byte>, window: seq<byte>, wnext: nat, whave: nat, wbits: nat, k: nat)
    requires WindowOk(hist, window, wnext, whave, wbits) && 1 <= k <= whave
    ensures wnext < |window| && whave <= |window| && k <= |hist|
    ensures (if k <= wnext then window[wnext - k] else window[|window| + wnext - k]) == hist[|hist| - k]
  {
    assert IW.Back(window, wnext, k) == hist[|hist| - k];
  }

  lemma WindowSizes(hist: seq<byte>, window: seq<byte>, wnext: nat, whave: nat, wbits: nat)
    requires WindowOk(hist, window, wnext, whave, wbits)
    ensures whave <= |hist| && whave <= |window| && (window != [] ==> wnext < |window|)
  {
  }

  lemma WrittenSizes(out: seq<byte>, hist: seq<byte>, put: seq<byte>, window: seq<byte>, wnext: nat, whave: nat,
                     wbits: nat)
    requires Written(out, hist, put, window, wnext, whave, wbits)
    ensures out == hist + put && whave <= |hist| && whave <= |window| && (window != [] ==> wnext < |window|)
  {
  }

  lemma WrittenOut(out: seq<byte>, hist: seq<byte>, put: seq<byte>, window: seq<byte>, wnext: nat, whave: nat,
                   wbits: nat,
                   out': seq<byte>, put': seq<byte>)
    requires Written(out, hist, put, window, wnext, whave, wbits) && out' == hist + put'
    ensures Written(out', hist, put', window, wnext, whave, wbits)
  {
    hide IW.Holds;
  }

  lemma WrittenWindow(out: seq<byte>, hist: seq<byte>, put: seq<byte>, window: seq<byte>, wnext: nat, whave: nat,
                      wbits: nat)
    requires Written(out, hist, put, window, wnext, whave, wbits)
    ensures WindowOk(hist, window, wnext, whave, wbits)
  {
    hide WindowOk;
  }

  lemma WrittenNone(out: seq<byte>, hist: seq<byte>, put: seq<byte>, window: seq<byte>, wnext: nat, whave: nat,
                    wbits: nat)
    requires Written(out, hist, put, window, wnext, whave, wbits)
    ensures window == [] ==> hist == [] && whave == 0
  {
  }

  lemma WrittenAgain(out: seq<byte>, hist: seq<byte>, window: seq<byte>, wnext: nat, whave: nat, wbits: nat)
    requires out == hist && (window != [] ==> WindowOk(hist, window, wnext, whave, wbits))
    requires window == [] ==> hist == [] && whave == 0
    ensures Written(out, hist, [], window, wnext, whave, wbits)
  {
    assert hist + [] == hist;
  }

  lemma EndAfter(s: State, all: seq<byte>)
    requires s.mode == BAD || s.mode == DONE
    ensures After(s, all) == None
  {
  }

  lemma ProgressParts(n: nat, l: nat, m: Mode, n': nat, l': nat, m': Mode)
    requires Progress(n, l, m, n', l', m')
    ensures n' < n || (n' == n && (l' < l || (l' == l && Rank(m') < Rank(m))))
  {
  }

  lemma LeanMore(s: State, all: seq<byte>, next: seq<byte>, bits: nat, more: seq<byte>)
    requires Lean(s, all, next, bits) && |next| <= |all|
    ensures Lean(s, all + more, next + more, bits)
  {
    hide After;
    assert (all + more)[..|all + more| - |next + more|] == all[..|all| - |next|];
  }

  lemma LedMore(s: State, all: seq<byte>, more: seq<byte>)
    requires Led(s, all)
    ensures Led(s, all + more)
  {
    hide Reaches, BytesBits;
    BytesConcat(all, more);
    ReachesMore(Start(), s, BytesBits(all), BytesBits(more));
  }

  lemma NewWindow(window: seq<byte>)
    requires window != []
    ensures IW.Holds(window, 0, 0, [])
  {
  }

  lemma ProgressIs(n: nat, l: nat, m: Mode, n': nat, l': nat, m': Mode)
    requires n' < n || (n' == n && (l' < l || (l' == l && Rank(m') < Rank(m))))
    ensures Progress(n, l, m, n', l', m')
  {
  }

  lemma Ranks()
    ensures Rank(BAD) < Rank(CODELENS) && Rank(LEN) < Rank(CODELENS)
    ensures Rank(BAD) < Rank(MATCH) && Rank(DIST) < Rank(LENEXT) && Rank(MATCH) < Rank(DISTEXT)
  {
  }

  lemma FifteenBits()
    ensures Pow2(MAXBITS) == 32768
  {
    assert Pow2(5) == 32 && Pow2(10) == 1024;
    Pow2Add(5, 10);
  }

  lemma CopyBackNone(out: seq<byte>, dist: nat)
    requires 1 <= dist <= |out|
    ensures CopyBack(out, 0, dist) == out
  {
  }

  lemma ThriftyStart(code: seq<nat>, hold: nat, bits: nat)
    ensures Thrifty(code, bits, hold, bits)
  {
    hide Decode;
  }

  lemma ServesAccepted(t: CodeType, lens: seq<nat>, table: seq<Entry>, root: nat)
    requires Serves(t, lens, table, root)
    ensures Accepted(t, lens)
  {
    hide Accepted;
  }

  lemma HitBits(t: CodeType, lens: seq<nat>, d: Symbol)
    requires |lens| <= MaxCodes(t) && d.sym <= |lens| && (d.sym == |lens| ==> d.bits == 1)
    ensures HitOf(t, lens, d).bits == d.bits
  {
    hide SymbolEntry;
  }

  lemma OrderFits(k: nat)
    requires k < 19
    ensures k < |ORDER| && ORDER[k] < 19
  {
  }

  lemma CodesSpace(lens: seq<nat>)
    requires |lens| == 19 && RootCovers(lens, 7)
    ensures LengthsOk(lens) && |lens| <= MaxCodes(CODES) && SpaceFor(CODES, lens, 7, ENOUGH)
  {
    assert Pow2(7) == 128;
  }

  /** What the caller learns from inflate_table. */
  lemma TableOutcome(t: CodeType, lens: seq<nat>, ret: int, root: nat, table: seq<Entry>, bits: nat)
    requires LengthsOk(lens) && (ret == -1 || ret == 0 || ret == 1)
    requires (ret == -1 <==> OverSubscribed(lens) || Incomplete(t, lens))
    requires ret == 0 ==> ExactDecoder(t, lens, table, root) && RootFor(lens, bits, root)
    ensures ret == 0 ==> Serves(t, lens, table, root)
    ensures ret == 0 && RootCovers(lens, bits) ==> RootCovers(lens, root)
    ensures ret == -1 <==> !Accepted(t, lens)
  {
    hide ExactDecoder, OverSubscribed, Incomplete;
  }

  lemma MirrorsLength(c: Conc, s: State)
    requires Mirrors(c, s) && s.mode == COPY
    ensures c.length == s.length
  {
  }

  lemma MirrorsCopy(c: Conc, s: State)
    requires c.mode == s.mode == COPY && c.last == s.last && c.lens == s.lens && c.length == s.length
    ensures Mirrors(c, s)
  {
  }

  lemma MirrorsMode(c: Conc, s: State)
    requires Mirrors(c, s)
    ensures c.mode == s.mode && c.last == s.last && c.lens == s.lens
  {
    hide Serves;
  }

  /** inffast.c asks for the bit 16 first: it marks lengths and distances. */
  lemma LenBit16(lens: seq<nat>, d: Symbol, op: nat, val: nat)
    requires |lens| <= 288 && d.sym <= |lens| && Hit(op, val, d.bits) == HitOf(LENS, lens, d)
    ensures !IsLink(Entry(op, 0, val))
    ensures op != 0 ==> (Bit16(op) <==> !Bit32(op) && !Bit64(op))
    ensures op != 0 && !Bit16(op) ==> Bit64(op)
    ensures op == 0 ==> val < 256
    ensures op % 16 <= 13 && (Bit16(op) ==> op % 16 <= 5)
  {
    if d.sym < |lens| {
      var i := d.sym;
      if 257 <= i {
        LengthOps(i - 257);
      }
    }
  }

  lemma LengthOps(c: nat)
    requires c < 31
    ensures (if c < 29 then 16 <= LEXT[c] <= 21 else LEXT[c] == 77 || LEXT[c] == 202)
  {
  }

  lemma DistBit16(lens: seq<nat>, d: Symbol, op: nat, val: nat)
    requires |lens| <= 32 && d.sym <= |lens| && Hit(op, val, d.bits) == HitOf(DISTS, lens, d)
    ensures !IsLink(Entry(op, 0, val)) && (Bit16(op) <==> !Bit64(op)) && op % 16 <= 13
  {
    if d.sym < |lens| {
      DistOps(d.sym);
    }
  }

  lemma DistOps(c: nat)
    requires c < 32
    ensures (if c < 30 then 16 <= DEXT[c] <= 29 else DEXT[c] == 64)
  {
  }

  /** Between symbols only the codes matter. */
  lemma MirrorsLen(c: Conc, s: State, s': State)
    requires Mirrors(c, s) && s.mode == LEN && s'.mode == LEN && SameCodes(s, s')
    ensures Mirrors(c, s')
  {
    hide Serves;
  }

  lemma MirrorsEnd(c: Conc, s: State, s': State, m: Mode)
    requires Mirrors(c, s) && SameCodes(s, s') && s'.mode == m && (m == TYPE || m == BAD)
    ensures Mirrors(c.(mode := m), s')
  {
    hide Serves;
  }

  /** A symbol that could not be read from the bits in sight has more bits than those. */
  lemma StalledSymbol(t: CodeType, code: seq<nat>, all: seq<byte>, next: seq<byte>, hold: nat, bits: nat, pos: nat)
    requires Accepted(t, code) && Held(all, next, hold, bits, pos) && Decode(code, hold).bits > bits >= 1
    ensures pos <= |BytesBits(all)| && Decode(code, Rest(BytesBits(all), pos)).bits > bits
  {
    hide Accepted, Held, Decode, Rest, Low;
    HeldRest(all, next, hold, bits, pos);
    var x := Rest(BytesBits(all), pos);
    if Decode(code, x).bits <= bits {
      DecodeLow(t, code, x, hold, bits);
    }
  }

  lemma LenExtParts(c: Conc, s: State, all: seq<byte>)
    requires Led(s, all) && Mirrors(c, s) && s.mode == LENEXT
    ensures c.length == s.length >= 3
  {
    hide BytesBits, Reaches, Serves, Accepted;
  }

  lemma DistExtParts(c: Conc, s: State, all: seq<byte>)
    requires Led(s, all) && Mirrors(c, s) && s.mode == DISTEXT
    ensures c.offset == s.offset && c.length == s.length >= 3
  {
    hide BytesBits, Reaches, Serves, Accepted;
  }

  lemma {:induction false} CopyBackParts(out: seq<byte>, a: nat, b: nat, dist: nat)
    requires 1 <= dist <= |out|
    ensures CopyBack(out, a + b, dist) == CopyBack(CopyBack(out, a, dist), b, dist)
    decreases a
  {
    if a > 0 {
      CopyBackParts(out + [out[|out| - dist]], a - 1, b, dist);
    }
  }

  lemma SameCodesTrans(s: State, s1: State, s2: State)
    requires SameCodes(s, s1) && SameCodes(s1, s2)
    ensures SameCodes(s, s2)
  {
  }

  lemma MatchLimits(s: State, all: seq<byte>)
    requires Led(s, all) && s.mode == MATCH
    ensures 1 <= s.length <= 258 && 1 <= s.offset <= 32768
  {
    hide BytesBits, Reaches, Accepted;
  }

  lemma SameCodesMode(s: State, s1: State, s2: State)
    requires SameCodes(s, s1) && s2 == s1.(mode := s2.mode, out := s2.out, length := s2.length, far := s2.far)
    ensures SameCodes(s, s2)
  {
  }

  lemma MirrorsBad(c: Conc, s: State, s1: State)
    requires Mirrors(c, s) && SameCodes(s, s1)
    ensures Mirrors(c.(mode := BAD), s1.(mode := BAD))
  {
    hide Serves;
  }

  lemma DistOutcomeIs(c: Conc, op: nat, val: nat)
    requires Bit16(op) <==> !Bit64(op)
    ensures Bit16(op) ==> DistOutcome(c, op, val) == c.(mode := DISTEXT, offset := val, extra := op % 16)
    ensures !Bit16(op) ==> DistOutcome(c, op, val) == c.(mode := BAD)
  {
    hide Bit16, Bit64;
  }

  lemma LenOutcomeIs(c: Conc, op: nat, val: nat)
    requires op != 0 ==> (Bit16(op) <==> !Bit32(op) && !Bit64(op))
    requires op != 0 && !Bit16(op) ==> Bit64(op)
    ensures op == 0 ==> LenOutcome(c, op, val) == c.(length := val, mode := LIT)
    ensures op != 0 && Bit16(op) ==> LenOutcome(c, op, val) == c.(length := val, mode := LENEXT, extra := op % 16)
    ensures op != 0 && !Bit16(op) ==>
      LenOutcome(c, op, val) == c.(length := val, mode := if Bit32(op) then TYPE else BAD)
  {
    hide Bit16, Bit32, Bit64;
  }

  lemma MaxbitsIs()
    ensures MAXBITS == 15
  {
  }

  lemma BackSlice(all: seq<byte>, next0: seq<byte>, n: nat)
    requires n <= |next0| <= |all| && next0 == all[|all| - |next0|..]
    ensures next0[|next0| - n..] == all[|all| - n..]
  {
  }

  lemma HeldSuffix(all: seq<byte>, next: seq<byte>, hold: nat, bits: nat, pos: nat)
    requires Held(all, next, hold, bits, pos)
    ensures |next| <= |all| && next == all[|all| - |next|..]
  {
    hide ValueOf, BytesBits;
  }

  /** Lines 1062-1063: the entry of the second table is the symbol that the bits show. */
  lemma SecondEntry(t: CodeType, code: seq<nat>, table: seq<Entry>, root: nat, hold: nat, from: Entry)
    requires Serves(t, code, table, root) && Low(hold, root) < |table| && from == table[Low(hold, root)] && IsLink(from)
    ensures from.bits == root && from.val + High(Low(hold, root + from.op), root) < |table| && |code| <= MaxCodes(t)
    ensures var f := table[from.val + High(Low(hold, root + from.op), root)];
      && HitOf(t, code, Decode(code, hold)) == Hit(f.op, f.val, root + f.bits)
      && Decode(code, hold).bits == root + f.bits <= MAXBITS
  {
    hide Serves, Low, High, Decode, Lookup, HitOf, RootCovers;
    RootIs(t, code, table, root, hold);
    LookupIs(t, code, table, root, hold);
    HitBits(t, code, Decode(code, hold));
    SecondIndex(hold, root, from.op);
  }

  /** The fixed codes are fit for inflate_table, and ENOUGH is enough for them. */
  lemma FixedReady()
    ensures LengthsOk(FixedLens()) && |FixedLens()| <= MaxCodes(LENS) && |FixedLens()| <= 320
    ensures Accepted(LENS, FixedLens())
    ensures SpaceFor(LENS, FixedLens(), 9, ENOUGH) && Pow2(9) <= Limit(LENS) && RootCovers(FixedLens(), 9)
    ensures LengthsOk(FixedDists()) && |FixedDists()| <= MaxCodes(DISTS) && |FixedDists()| <= 320
    ensures Accepted(DISTS, FixedDists())
    ensures SpaceFor(DISTS, FixedDists(), 5, ENOUGH) && Pow2(5) <= Limit(DISTS) && RootCovers(FixedDists(), 5)
  {
    hide FixedLens, FixedDists, OverSubscribed, Incomplete, RootCovers, Space;
    FixedAccepted();
    assert Pow2(5) == 32 && Pow2(9) == 512;
  }

  lemma StartSync(c: Conc)
    requires c == Conc(TYPE, false, 0, 0, 0, 0, 0, 0, 0, seq(320, _ => 0), [], 0, [], 0)
    ensures Led(Start(), []) && Mirrors(c, Start()) && Held([], [], 0, 0, Start().pos) && Start().mode == TYPE
    ensures forall wbits :: Written(Start().out, [], [], [], 0, 0, wbits)
  {
    hide Reaches;
    ReachesSelf(Start(), BytesBits([]));
  }

  lemma StartIs()
    ensures Start().mode == TYPE && Start().out == []
  {
  }
}
