/** inflate() of inflate.c from the state TYPE on, for raw deflate data: a resumable machine with
    a bit accumulator, decoding tables and a circular window, against the machine of InflateSpec
    that has the whole input and output in sight. */
module Inflater {
  import opened Powers
  import opened Bits
  import opened BitStreams
  import opened Canonical
  import opened TableSpec
  import opened InflateTable
  import opened InflateSpec
  import opened InflateInput
  import opened InflateLookup
  import opened Tokens
  import IW = InflateWindow
  import opened InflateSteps
  import opened InflateReach
  import TableRoom

  class Inflate {
    const wbits: nat
    const fixedLen: seq<Entry>
    const fixedLenBits: nat
    const fixedDist: seq<Entry>
    const fixedDistBits: nat
    const codes: array<Entry>
    const distCodes: array<Entry>
    const work: array<nat>
    var st: Conc
    var hold: nat
    var bits: nat
    /** Empty until the first updatewindow, then wsize bytes. */
    var window: seq<byte>
    var wnext: nat
    var whave: nat
    /** next_in[0 .. avail_in], what this call has put out, and avail_out. */
    var next: seq<byte>
    var put: seq<byte>
    var left: nat
    /** All the input so far, the abstract state, the output of earlier calls, and whether the
        decoder has not had to give up on a match whose bytes have left the window. */
    ghost var all: seq<byte>
    ghost var abs: State
    ghost var hist: seq<byte>
    ghost var exact: bool

    /** inflateInit2_ for raw data, and the tables of fixedtables. */
    constructor (wbits: nat)
      requires wbits <= MAXBITS
      ensures Valid() && exact && all == [] && hist == [] && this.wbits == wbits
      ensures fresh(codes) && fresh(distCodes) && fresh(work)
    {
      hide *;
      var fc: array<Entry> := NewCodes();
      var fd: array<Entry> := NewCodes();
      var wk: array<nat> := NewWork();
      FixedReady();
      var ok, lroot := TableFor(LENS, FixedLens(), fc, 9, wk);
      var ok2, droot := TableFor(DISTS, FixedDists(), fd, 5, wk);
      this.wbits := wbits;
      fixedLen, fixedLenBits, fixedDist, fixedDistBits := fc[..], lroot, fd[..], droot;
      codes, distCodes, work := fc, fd, wk;
      st := Conc(TYPE, false, 0, 0, 0, 0, 0, 0, 0, seq(320, _ => 0), [], 0, [], 0);
      hold, bits, next, put, left := 0, 0, [], [], 0;
      window, wnext, whave := [], 0, 0;
      all, abs, hist, exact := [], Start(), [], true;
      new;
      MakeArrays();
      StartSync(st);
      StartIs();
      ClearedFresh(abs, all, hist, wbits);
      MidAgain();
      SyncFresh();
      MakeValid();
    }

    lemma MakeArrays()
      requires codes.Length == ENOUGH && distCodes.Length == ENOUGH && work.Length == 320 && codes != distCodes
      requires wbits <= MAXBITS
      requires Serves(LENS, FixedLens(), fixedLen, fixedLenBits)
      requires Serves(DISTS, FixedDists(), fixedDist, fixedDistBits)
      ensures Arrays()
    {
      hide Serves, FixedLens, FixedDists;
    }

    ghost predicate Arrays()
    {
      && codes.Length == ENOUGH && distCodes.Length == ENOUGH && work.Length == 320 && codes != distCodes
      && wbits <= MAXBITS
      && Serves(LENS, FixedLens(), fixedLen, fixedLenBits) && Serves(DISTS, FixedDists(), fixedDist, fixedDistBits)
    }

    /** The accumulator stands at the abstract position, and the window and this call's output are
        the abstract output. */
    ghost predicate Mid()
      reads this
    {
      && Arrays() && exact && Led(abs, all) && Cleared(abs, all, hist, wbits) && Mirrors(st, abs)
      && Held(all, next, hold, bits, abs.pos) && bits <= 32
      && Written(abs.out, hist, put, window, wnext, whave, wbits) && (abs.mode == COPY ==> bits == 0)
    }

    /** The accumulator holds less than a byte, or what it holds is not enough for a step: nothing
        is ever pulled before it is needed. */
    ghost predicate Sync()
      reads this
    {
      Mid() && Lean(abs, all, next, bits)
    }

    lemma SyncParts()
      requires Sync()
      ensures Mid() && Lean(abs, all, next, bits)
    {
      hide Mid, Lean;
    }

    lemma MakeSync()
      requires Mid() && Lean(abs, all, next, bits)
      ensures Sync()
    {
      hide Mid, Lean;
    }

    /** Nothing more can be done with the input there is. */
    lemma SyncStopped()
      requires Mid() && next == [] && After(abs, all) == None
      ensures Sync()
    {
      hide Mid, After;
      assert all[..|all|] == all;
    }

    lemma SyncFresh()
      requires Mid() && (bits < 8 || st.mode == BAD || st.mode == DONE)
      ensures Sync()
    {
      hide Mid, After;
      if bits >= 8 {
        MidParts();
        EndAfter(abs, all[..|all| - |next|]);
      }
    }

    /** How many bits can be in sight when a step is due that needs n of them. */
    lemma Few(n: nat)
      requires Sync()
      requires match st.mode
        case TYPE => st.last || n == 3
        case STORED => abs.pos % 8 != 0 || n == 32
        case COPY => st.length == 0
        case TABLE => n == 14
        case LENLENS => abs.have == abs.ncode || n == 3
        case CODELENS => abs.have == abs.nlen + abs.ndist
        case LENEXT => n == abs.extra
        case DISTEXT => n == abs.extra
        case MATCH => true
        case LIT => true
        case _ => false
      ensures match st.mode
        case TYPE => bits < 8 || (!st.last && bits < n)
        case STORED => bits < 8 || (abs.pos % 8 == 0 && bits < n)
        case COPY => bits < 8
        case TABLE => bits < 8 || bits < n
        case LENLENS => bits < 8 || (abs.have != abs.ncode && bits < n)
        case CODELENS => bits < 8
        case LENEXT => bits < 8 || bits < n
        case DISTEXT => bits < 8 || bits < n
        case _ => bits < 8
    {
      hide Mid, After, Held, Led, Cleared, Mirrors, Written, Arrays, Ok;
      SyncParts();
      MidParts();
      LedParts(abs, all);
      PulledHeld(all, next, hold, bits, abs.pos);
      MustStep(abs, all[..|all| - |next|], hold, bits);
      MirrorsMode(st, abs);
      if st.mode == COPY {
        MirrorsLength(st, abs);
      }
    }

    /** The same where a symbol is needed. */
    lemma FewSymbol(n: nat)
      requires Sync() && (st.mode == LEN || st.mode == DIST)
      requires n == Decode(if st.mode == LEN then abs.lcode else abs.dcode, hold).bits
      ensures bits < 8 || bits < n
    {
      hide Mid, After, Held, Led, Cleared, Mirrors, Written, Arrays, Ok, Decode;
      SyncParts();
      MidParts();
      LedParts(abs, all);
      PulledHeld(all, next, hold, bits, abs.pos);
      MustDecode(abs, all[..|all| - |next|], hold, bits);
    }

    lemma FewLength(d: Symbol)
      requires Sync() && st.mode == CODELENS && abs.have < abs.nlen + abs.ndist && d == Decode(abs.lcode, hold)
      requires d.sym <= 19
      ensures bits < 8 || bits < d.bits || (LengthValue(d) >= 16 && bits < d.bits + RepeatMore(LengthValue(d)))
    {
      hide Mid, After, Held, Led, Cleared, Mirrors, Written, Arrays, Ok, Decode;
      SyncParts();
      MidParts();
      LedParts(abs, all);
      CodeLenParts(st, abs, all);
      PulledHeld(all, next, hold, bits, abs.pos);
      if d.bits <= bits && (LengthValue(d) >= 16 ==> d.bits + RepeatMore(LengthValue(d)) <= bits) {
        MustCodeLen(abs, all[..|all| - |next|], hold, bits);
      }
    }

    lemma MidParts()
      requires Mid()
      ensures Arrays() && exact && Led(abs, all) && Cleared(abs, all, hist, wbits) && Mirrors(st, abs)
      ensures Held(all, next, hold, bits, abs.pos) && bits <= 32
      ensures Written(abs.out, hist, put, window, wnext, whave, wbits) && (abs.mode == COPY ==> bits == 0)
      ensures st.mode == abs.mode && st.last == abs.last && st.lens == abs.lens
    {
      hide Arrays, Held, Mirrors, Led, Cleared, Written;
      MirrorsMode(st, abs);
    }

    /** The abstract machine has come to s'. */
    ghost method Jump(s': State)
      requires Arrays() && exact && Led(s', all) && Cleared(s', all, hist, wbits) && bits <= 32
      requires (s'.mode == COPY ==> bits == 0)
      requires Mirrors(st, s') && Held(all, next, hold, bits, s'.pos)
      requires Written(s'.out, hist, put, window, wnext, whave, wbits)
      modifies this`abs
      ensures Mid() && abs == s'
    {
      hide Arrays, Held, Mirrors, Led, Cleared, Written;
      abs := s';
    }

    /** The abstract machine takes its step along. */
    ghost method Follow(s': State)
      requires Arrays() && exact && Led(abs, all) && Cleared(abs, all, hist, wbits) && bits <= 32
      requires After(abs, all) == Some(s') && (s'.mode == COPY ==> bits == 0)
      requires Mirrors(st, s') && Held(all, next, hold, bits, s'.pos)
      requires Written(s'.out, hist, put, window, wnext, whave, wbits)
      requires abs.mode == MATCH ==> Near(abs, |hist|, Pow2(wbits))
      modifies this`abs
      ensures Mid() && abs == s'
    {
      hide Arrays, Held, Mirrors, Led, Cleared, Written, After, Near, Pow2;
      ClearedStep(abs, all, hist, wbits);
      Jump(s');
    }

    /** PULLBYTE, lines 506-512. */
    method PullByte() returns (ok: bool)
      requires Held(all, next, hold, bits, abs.pos)
      modifies this`hold, this`bits, this`next
      ensures Held(all, next, hold, bits, abs.pos) && ok == (old(next) != [])
      ensures if ok
        then bits == old(bits) + 8 && next == old(next)[1..] && hold == old(hold) + old(next)[0] * Pow2(old(bits))
        else bits == old(bits) && next == [] && hold == old(hold)
    {
      hide Held, Pow2;
      if next == [] {
        return false;
      }
      PullHeld(all, next, hold, bits, abs.pos);
      hold := hold + next[0] * Pow2(bits);
      next := next[1..];
      bits := bits + 8;
      ok := true;
    }

    /** NEEDBITS, lines 516-520. */
    method NeedBits(n: nat) returns (ok: bool)
      requires Held(all, next, hold, bits, abs.pos)
      modifies this`hold, this`bits, this`next
      ensures Held(all, next, hold, bits, abs.pos)
      ensures if ok then bits >= n else bits < n && next == []
      ensures 8 * |next| + bits == old(8 * |next| + bits) && bits >= old(bits) && bits % 8 == old(bits) % 8
      ensures if old(bits) >= n then bits == old(bits) else bits < n + 8
    {
      hide Held, Pow2;
      while bits < n
        invariant Held(all, next, hold, bits, abs.pos) && 8 * |next| + bits == old(8 * |next| + bits)
        invariant bits >= old(bits) && bits % 8 == old(bits) % 8 && (bits == old(bits) || bits < n + 8)
        invariant old(bits) >= n ==> bits == old(bits)
      {
        ok := PullByte();
        if !ok {
          return;
        }
      }
      ok := true;
    }

    /** DROPBITS, lines 527-531, with the abstract position moved along. */
    method DropBits(n: nat, ghost pos: nat)
      requires Held(all, next, hold, bits, pos) && n <= bits
      modifies this`hold, this`bits
      ensures Held(all, next, hold, bits, pos + n) && bits == old(bits) - n && hold == High(old(hold), n)
    {
      hide Held, High;
      DropHeld(all, next, hold, bits, pos, n);
      hold := High(hold, n);
      bits := bits - n;
    }

    /** The bits of input still to be used, in the accumulator and before it. */
    ghost function Bitcount(): nat
      reads this`next, this`bits
    {
      8 * |next| + bits
    }

    /** BYTEBITS, lines 534-538. */
    method ByteBits(ghost pos: nat)
      requires Held(all, next, hold, bits, pos)
      modifies this`hold, this`bits
      ensures Held(all, next, hold, bits, Align(pos)) && bits == old(bits) - old(bits) % 8
    {
      hide Held, High, Align;
      HeldAligned(all, next, hold, bits, pos);
      AlignDrop(pos, bits);
      DropBits(bits % 8, pos);
    }

    /** Lines 852-856: the last block has ended. */
    method TypeEnd()
      requires Mid() && st.mode == TYPE && st.last
      modifies this`st, this`hold, this`bits, this`abs
      ensures Mid() && st.mode == DONE && Bitcount() <= old(Bitcount()) && bits <= old(bits)
    {
      hide Mid, Arrays, Held, Mirrors, Led, Cleared, Written, After, Align;
      MidParts();
      TypeLast(st, abs, all);
      ByteBits(abs.pos);
      st := st.(mode := DONE);
      Follow(abs.(mode := DONE, pos := Align(abs.pos)));
    }

    /** Lines 857-886: the type of the next block. */
    method TypeRead()
      requires Mid() && st.mode == TYPE && !st.last && bits >= 3
      modifies this`st, this`hold, this`bits, this`abs
      ensures Mid() && Bitcount() < old(Bitcount()) && bits == old(bits) - 3
    {
      hide Mid, Arrays, Held, Mirrors, Led, Cleared, Written, After, BytesBits, Serves, Peek, Low, High, Fits,
        FixedLens, FixedDists,
        BlockMode;
      ghost var c := st;
      MidParts();
      FixedServe();
      HeldPeek(all, next, hold, bits, abs.pos, 3);
      var v: nat := Low(hold, 3);
      st := st.(last := v % 2 == 1, mode := BlockMode(v / 2));
      if v / 2 == 1 {
        st := st.(lencode := fixedLen, lenbits := fixedLenBits, distcode := fixedDist, distbits := fixedDistBits);
      }
      DropBits(3, abs.pos);
      ghost var s' := TypeNext(c, abs, all, v, st);
      Follow(s');
    }

    lemma FixedServe()
      requires Arrays()
      ensures Serves(LENS, FixedLens(), fixedLen, fixedLenBits) && Serves(DISTS, FixedDists(), fixedDist, fixedDistBits)
    {
      hide Serves, FixedLens, FixedDists;
    }

    /** TYPEDO, lines 849-886. */
    method TypeState() returns (stop: bool)
      requires Sync() && st.mode == TYPE
      modifies this`st, this`hold, this`bits, this`next, this`abs
      ensures Sync()
      ensures if stop then After(abs, all) == None
        else Progress(old(Bitcount()), left, TYPE, Bitcount(), left, st.mode)
    {
      hide Sync, Mid, Arrays, Held, Mirrors, Led, Cleared, Written, After, BytesBits, Fits;
      stop := false;
      SyncParts();
      Few(3);
      if st.last {
        TypeEnd();
        SyncFresh();
      } else {
        MidParts();
        var ok := NeedBits(3);
        MidAgain();
        if ok {
          TypeRead();
          SyncFresh();
        } else {
          HeldEnd(all, hold, bits, abs.pos, 3);
          TypeNone(abs, all);
          SyncStopped();
          stop := true;
        }
      }
    }

    /** STORED, lines 887-900. */
    method StoredState() returns (stop: bool)
      requires Sync() && st.mode == STORED
      modifies this`st, this`hold, this`bits, this`next, this`abs
      ensures Sync()
      ensures if stop then After(abs, all) == None
        else Progress(old(Bitcount()), left, STORED, Bitcount(), left, st.mode)
    {
      hide Sync, Mid, Arrays, Held, Mirrors, Led, Cleared, Written, After, BytesBits, Fits, Align;
      SyncParts();
      StoredBoundary();
      MidParts();
      stop := false;
      var ok := NeedBits(32);
      MidAgain();
      if ok {
        StoredRead();
        SyncFresh();
      } else {
        HeldEnd(all, hold, bits, abs.pos, 32);
        StoredNone(abs, all);
        SyncStopped();
        stop := true;
      }
    }

    lemma ArraySizes()
      requires Arrays()
      ensures codes.Length == ENOUGH && distCodes.Length == ENOUGH && work.Length == 320 && codes != distCodes
      ensures ENOUGH == 1444 && ENOUGH_LENS == 852 && ENOUGH_DISTS == 592
    {
      hide Serves, FixedLens, FixedDists;
    }

    lemma MidAgain()
      requires Arrays() && exact && Led(abs, all) && Cleared(abs, all, hist, wbits) && Mirrors(st, abs)
      requires Held(all, next, hold, bits, abs.pos) && bits <= 32
      requires Written(abs.out, hist, put, window, wnext, whave, wbits) && (abs.mode == COPY ==> bits == 0)
      ensures Mid()
    {
      hide Arrays, Held, Mirrors, Led, Cleared, Written;
    }

    method StoredBoundary()
      requires Mid() && st.mode == STORED
      modifies this`hold, this`bits, this`abs
      ensures Mid() && st.mode == STORED && abs.pos % 8 == 0 && bits % 8 == 0 && Bitcount() <= old(Bitcount())
    {
      hide Mid, Arrays, Held, Mirrors, Led, Cleared, Written, After, BytesBits, Align;
      MidParts();
      HeldAligned(all, next, hold, bits, abs.pos);
      AlignDrop(abs.pos, bits);
      if bits % 8 != 0 {
        StoredAlign(st, abs, all);
        ByteBits(abs.pos);
        Follow(abs.(pos := Align(abs.pos)));
      }
    }

    /** Lines 889-899. */
    method StoredRead()
      requires Mid() && st.mode == STORED && abs.pos % 8 == 0 && bits == 32
      modifies this`st, this`hold, this`bits, this`abs
      ensures Mid() && (st.mode == BAD || bits == 0)
      ensures (Bitcount() < old(Bitcount()) || (Bitcount() == old(Bitcount()) && st.mode == BAD))
    {
      hide Mid, Arrays, Held, Mirrors, Led, Cleared, Written, After, BytesBits, Peek, Low, High, Pow2;
      ghost var c := st;
      MidParts();
      HeldPeek(all, next, hold, bits, abs.pos, 16);
      HeldPeekAt(all, next, hold, bits, abs.pos, 16, 16);
      HeldSmall(all, next, hold, bits, abs.pos);
      HighBound(hold, 16, 16);
      LowSmall(High(hold, 16), 16);
      HeldPeek(all, next, hold, bits, abs.pos, 32);
      var len: nat, check: nat := Low(hold, 16), High(hold, 16);
      if len != 0xFFFF - check {
        st := st.(mode := BAD);
        ghost var s' := StoredNext(c, abs, all, len, check, st);
        Follow(s');
      } else {
        st := st.(length := len, mode := COPY);
        ghost var s' := StoredNext(c, abs, all, len, check, st);
        HighAll(hold, 32);
        DropHeld(all, next, hold, bits, abs.pos, 32);
        hold, bits := 0, 0;
        Follow(s');
      }
    }

    /** COPY, lines 903-919. */
    method CopyState() returns (stop: bool)
      requires Sync() && st.mode == COPY
      modifies this`st, this`next, this`put, this`left, this`abs
      ensures Sync() && |put| + left == |old(put)| + old(left)
      ensures if stop then After(abs, all) == None || left == 0
        else Progress(old(Bitcount()), old(left), COPY, Bitcount(), left, st.mode)
    {
      hide Sync, Mid, Arrays, Held, Mirrors, Led, Cleared, Written, After, BytesBits, Fits;
      stop := false;
      SyncParts();
      MidParts();
      MirrorsLength(st, abs);
      var copy: nat := st.length;
      if copy != 0 {
        copy := if copy > |next| then |next| else copy;
        copy := if copy > left then left else copy;
        if copy == 0 {
          if left != 0 {
            HeldEnd(all, hold, bits, abs.pos, 8);
            CopyNone(abs, all);
          }
          return true;
        }
        CopyBytes(copy);
        SyncFresh();
      } else {
        CopyDone(st, abs, all);
        st := st.(mode := TYPE);
        Follow(abs.(mode := TYPE));
        SyncFresh();
      }
    }

    method CopyBytes(copy: nat)
      requires Mid() && st.mode == COPY && 1 <= copy <= st.length && copy <= |next| && copy <= left
      modifies this`st, this`next, this`put, this`left, this`abs
      ensures Mid() && st.mode == COPY && bits == 0 && |next| == |old(next)| - copy && left == old(left) - copy
      ensures |put| == |old(put)| + copy
    {
      hide Mid, Arrays, Held, Mirrors, Led, Cleared, Written, After, BytesBits;
      MidParts();
      MirrorsLength(st, abs);
      HeldSmall(all, next, hold, bits, abs.pos);
      PowNone();
      CopyRun(abs, all, next, copy, hist, wbits);
      WrittenMore(abs.out, hist, put, window, wnext, whave, wbits, next[..copy]);
      ghost var s' := abs.(out := abs.out + next[..copy], length := abs.length - copy, pos := abs.pos + 8 * copy);
      put := put + next[..copy];
      next := next[copy..];
      left := left - copy;
      st := st.(length := st.length - copy);
      MirrorsCopy(st, s');
      Jump(s');
    }

    /** TABLE, lines 920-937. */
    method TableState() returns (stop: bool)
      requires Sync() && st.mode == TABLE
      modifies this`st, this`hold, this`bits, this`next, this`abs
      ensures Sync()
      ensures if stop then After(abs, all) == None
        else Progress(old(Bitcount()), left, TABLE, Bitcount(), left, st.mode)
    {
      hide Sync, Mid, Arrays, Held, Mirrors, Led, Cleared, Written, After, BytesBits, Fits;
      stop := false;
      SyncParts();
      Few(14);
      MidParts();
      var ok := NeedBits(14);
      MidAgain();
      if ok {
        TableRead();
        SyncFresh();
      } else {
        HeldEnd(all, hold, bits, abs.pos, 14);
        TableNone(abs, all);
        SyncStopped();
        stop := true;
      }
    }

    method TableRead()
      requires Mid() && st.mode == TABLE && bits >= 14
      modifies this`st, this`hold, this`bits, this`abs
      ensures Mid() && Bitcount() < old(Bitcount()) && bits == old(bits) - 14
    {
      hide Mid, Arrays, Held, Mirrors, Led, Cleared, Written, After, BytesBits, Peek, Low, High;
      ghost var c := st;
      MidParts();
      ghost var pos := abs.pos;
      HeldPeek(all, next, hold, bits, pos, 5);
      HeldPeek(all, next, hold, bits, pos, 14);
      var nlen: nat := Low(hold, 5) + 257;
      DropBits(5, pos);
      HeldPeek(all, next, hold, bits, pos + 5, 5);
      var ndist: nat := Low(hold, 5) + 1;
      DropBits(5, pos + 5);
      HeldPeek(all, next, hold, bits, pos + 10, 4);
      var ncode: nat := Low(hold, 4) + 4;
      DropBits(4, pos + 10);
      st := st.(nlen := nlen, ndist := ndist, ncode := ncode);
      if nlen > 286 || ndist > 30 {
        st := st.(mode := BAD);
      } else {
        st := st.(have := 0, mode := LENLENS);
      }
      ghost var s' := TableNext(c, abs, all, nlen, ndist, ncode, st);
      Follow(s');
    }

    /** LENLENS, lines 938-958. */
    method LenLensState() returns (stop: bool)
      requires Sync() && st.mode == LENLENS
      modifies this`st, this`hold, this`bits, this`next, this`abs, codes, work
      ensures Sync()
      ensures if stop then After(abs, all) == None
        else Progress(old(Bitcount()), left, LENLENS, Bitcount(), left, st.mode)
    {
      hide Sync, Mid, Arrays, Held, Mirrors, Led, Cleared, Written, After, BytesBits, Fits;
      stop := false;
      SyncParts();
      Few(3);
      MidParts();
      LenLensParts(st, abs, all);
      if st.have < st.ncode {
        var ok := NeedBits(3);
        MidAgain();
        if ok {
          LenLensRead();
          SyncFresh();
        } else {
          HeldEnd(all, hold, bits, abs.pos, 3);
          LenLensNone(abs, all);
          SyncStopped();
          stop := true;
        }
      } else {
        LenLensTable();
        SyncFresh();
      }
    }

    method LenLensRead()
      requires Mid() && st.mode == LENLENS && st.have < st.ncode && bits >= 3
      modifies this`st, this`hold, this`bits, this`abs
      ensures Mid() && Bitcount() < old(Bitcount()) && bits == old(bits) - 3
    {
      hide Mid, Arrays, Held, Mirrors, Led, Cleared, Written, After, BytesBits, Peek, Low, High, ORDER;
      MidParts();
      LenLensParts(st, abs, all);
      HeldPeek(all, next, hold, bits, abs.pos, 3);
      var v: nat := Low(hold, 3);
      LenLensNext(st, abs, all, v);
      OrderFits(st.have);
      DropBits(3, abs.pos);
      ghost var s' := abs.(lens := abs.lens[ORDER[abs.have] := v], have := abs.have + 1, pos := abs.pos + 3);
      st := st.(lens := st.lens[ORDER[st.have] := v], have := st.have + 1);
      Follow(s');
    }

    /** Lines 944-958. */
    method LenLensTable()
      requires Mid() && st.mode == LENLENS && st.have == st.ncode
      modifies this`st, this`abs, codes, work
      ensures Mid() && (st.mode == CODELENS || st.mode == BAD)
    {
      hide *;
      ghost var c := st;
      MidParts();
      LenLensParts(st, abs, all);
      var lens: seq<nat> := ClearRest(st.lens, st.have);
      LenLensSmall(abs, all);
      CodesSpace(lens[..19]);
      ArraySizes();
      var ret, root, used := BuildTable(CODES, lens[..19], codes, 7, work);
      st := st.(lens := lens);
      TableOutcome(CODES, lens[..19], ret, root, codes[..], 7);
      if ret != 0 {
        st := st.(mode := BAD);
      } else {
        st := st.(have := 0, lencode := codes[..], lenbits := root, mode := CODELENS);
      }
      ghost var s' := LenLensDone(c, abs, all, lens, ret == 0, st);
      Follow(s');
    }

    /** Lines 1054-1058, 1104-1108 and 961-965: the entry of the root table. */
    method FetchRoot(table: seq<Entry>, root: nat, ghost t: CodeType, ghost code: seq<nat>) returns (ok: bool,
                     here: Entry)
      requires Serves(t, code, table, root) && Held(all, next, hold, bits, abs.pos)
      modifies this`hold, this`bits, this`next
      ensures Held(all, next, hold, bits, abs.pos) && Bitcount() == old(Bitcount())
      ensures (bits == old(bits) || bits < MAXBITS + 8)
      ensures bits >= old(bits) && Thrifty(code, old(bits), hold, bits) && Low(hold, root) < |table|
      ensures here == table[Low(hold, root)]
      ensures if ok then here.bits <= bits else next == [] && Decode(code, hold).bits > bits
    {
      hide Thrifty, Serves, Held, Low, Decode, Lookup, Pow2, HitOf, RootCovers;
      RootIs(t, code, table, root, hold);
      ThriftyStart(code, hold, bits);
      here := table[Low(hold, root)];
      while here.bits > bits
        invariant Held(all, next, hold, bits, abs.pos) && Bitcount() == old(Bitcount())
        invariant Low(hold, root) < |table| && here == table[Low(hold, root)]
        invariant (bits == old(bits) || bits < MAXBITS + 8) && bits >= old(bits) && Thrifty(code, old(bits), hold, bits)
        decreases |next|
      {
        RootIs(t, code, table, root, hold);
        LookupIs(t, code, table, root, hold);
        HitBits(t, code, Decode(code, hold));
        RootSmall(t, code, table, root);
        HeldSmall(all, next, hold, bits, abs.pos);
        if next != [] {
          ThriftyPull(code, old(bits), hold, bits, next[0]);
        }
        ok := PullByte();
        if !ok {
          return;
        }
        RootIs(t, code, table, root, hold);
        here := table[Low(hold, root)];
      }
      ok := true;
    }

    /** Lines 1054-1070 and 1104-1120: a symbol, by way of a second table if need be. n is the number of
        its bits, still to be dropped. */
    method Fetch(table: seq<Entry>, root: nat, ghost t: CodeType, ghost code: seq<nat>)
      returns (ok: bool, op: nat, val: nat, n: nat)
      requires Serves(t, code, table, root) && Held(all, next, hold, bits, abs.pos)
      modifies this`hold, this`bits, this`next
      ensures Held(all, next, hold, bits, abs.pos) && Bitcount() == old(Bitcount())
      ensures (bits == old(bits) || bits < MAXBITS + 8)
      ensures if ok then |code| <= MaxCodes(t) && Hit(op, val, n) == HitOf(t, code, Decode(code, hold))
                && n == Decode(code, hold).bits <= bits
              else next == [] && Decode(code, hold).bits > bits
      ensures ok ==> if old(bits) >= n then bits == old(bits) else bits < n + 8
    {
      hide Thrifty, Serves, Held, Low, High, Decode, Lookup, Pow2, HitOf, RootCovers;
      var here: Entry;
      ok, here := FetchRoot(table, root, t, code);
      op, val, n := here.op, here.val, here.bits;
      LookupIs(t, code, table, root, hold);
      HitBits(t, code, Decode(code, hold));
      RootIs(t, code, table, root, hold);
      if ok && here.op != 0 && here.op < 16 {
        ok, op, val, n := FetchSecond(table, root, here, t, code, old(bits));
      }
      LookupIs(t, code, table, root, hold);
      ServesAccepted(t, code, table, root);
      ThriftyEnd(t, code, old(bits), hold, bits);
    }

    /** Lines 1060-1067. */
    method FetchSecond(table: seq<Entry>, root: nat, from: Entry, ghost t: CodeType, ghost code: seq<nat>,
                       ghost b0: nat)
      returns (ok: bool, op: nat, val: nat, n: nat)
      requires Serves(t, code, table, root) && Held(all, next, hold, bits, abs.pos)
      requires Low(hold, root) < |table| && from == table[Low(hold, root)] && IsLink(from) && from.bits <= bits
      requires Thrifty(code, b0, hold, bits) && bits >= b0
      modifies this`hold, this`bits, this`next
      ensures Thrifty(code, b0, hold, bits)
      ensures Held(all, next, hold, bits, abs.pos) && Bitcount() == old(Bitcount())
      ensures (bits == old(bits) || bits < MAXBITS + 8)
      ensures if ok then |code| <= MaxCodes(t) && Hit(op, val, n) == HitOf(t, code, Decode(code, hold))
                && n == Decode(code, hold).bits <= bits
              else next == [] && Decode(code, hold).bits > bits
    {
      hide Thrifty, Serves, Held, Low, High, Decode, HitOf, Pow2, IsLink;
      SecondEntry(t, code, table, root, hold, from);
      var here: Entry := table[from.val + High(Low(hold, from.bits + from.op), from.bits)];
      while from.bits + here.bits > bits
        invariant Held(all, next, hold, bits, abs.pos) && Bitcount() == old(Bitcount())
        invariant Low(hold, root) < |table| && from == table[Low(hold, root)] && from.bits == root <= bits
        invariant |code| <= MaxCodes(t)
        invariant HitOf(t, code, Decode(code, hold)) == Hit(here.op, here.val, root + here.bits)
        invariant Decode(code, hold).bits == root + here.bits <= MAXBITS
        invariant (bits == old(bits) || bits < MAXBITS + 8) && bits >= b0 && Thrifty(code, b0, hold, bits)
        decreases |next|
      {
        ghost var h, b, nx := hold, bits, next;
        HeldSmall(all, next, hold, bits, abs.pos);
        if next != [] {
          ThriftyPull(code, b0, hold, bits, next[0]);
        }
        ok := PullByte();
        if !ok {
          op, val, n := 0, 0, 0;
          return;
        }
        LowPulled(h, nx[0], b, root);
        SecondEntry(t, code, table, root, hold, from);
        here := table[from.val + High(Low(hold, from.bits + from.op), from.bits)];
      }
      ok, op, val, n := true, here.op, here.val, from.bits + here.bits;
    }

    /** CODELENS, lines 959-1005: one symbol. */
    method CodeLenState() returns (stop: bool)
      requires Sync() && st.mode == CODELENS && st.have < st.nlen + st.ndist
      modifies this`st, this`hold, this`bits, this`next, this`abs
      ensures Sync()
      ensures if stop then After(abs, all) == None else Bitcount() < old(Bitcount())
    {
      hide Sync, Mid, Arrays, Held, Mirrors, Led, Cleared, Written, After, BytesBits, Fits, Decode, Serves, Accepted,
        HitOf, Rest, SymbolEntry;
      SyncParts();
      MidParts();
      CodeLenParts(st, abs, all);
      LookupIs(CODES, abs.lcode, st.lencode, st.lenbits, hold);
      FewLength(Decode(abs.lcode, hold));
      ghost var h, b, nx := hold, bits, next;
      var ok, op, val: nat, n: nat := Fetch(st.lencode, st.lenbits, CODES, abs.lcode);
      MidAgain();
      if !ok {
        UnseenSymbol(CODES, abs.lcode, all, hold, bits, abs.pos);
        CodeLenNone(abs, all);
        SyncStopped();
        return true;
      }
      if bits == b {
        HeldSame(all, nx, next, h, hold, bits, abs.pos);
      }
      ghost var d := Decode(abs.lcode, hold);
      LookupIs(CODES, abs.lcode, st.lencode, st.lenbits, hold);
      CodeHit(abs.lcode, d);
      SeenSymbol(CODES, abs.lcode, all, next, hold, bits, abs.pos);
      if val < 16 {
        CodeLenPlain(st, abs, all, d);
        CodeLenOne(val, n, d);
        SyncFresh();
        return false;
      }
      var more: nat := RepeatMore(val);
      ok := NeedBits(n + more);
      MidAgain();
      if !ok {
        HeldEnd(all, hold, bits, abs.pos, n + more);
        CodeLenShort(abs, all, d);
        SyncStopped();
        return true;
      }
      CodeLenMany(val, n, d);
      SyncFresh();
      return false;
    }

    method CodeLenOne(val: nat, n: nat, ghost d: Symbol)
      requires Mid() && st.mode == CODELENS && st.have < |st.lens| && val < 16 && 1 <= n <= bits
      requires abs.have < |abs.lens|
      requires val == LengthValue(d) && n == d.bits && abs.have == st.have
      requires var s' := abs.(lens := abs.lens[abs.have := val], have := abs.have + 1, pos := abs.pos + n);
        After(abs, all) == Some(s') && Mirrors(st.(lens := s'.lens, have := s'.have), s')
      modifies this`st, this`hold, this`bits, this`abs
      ensures Mid() && Bitcount() < old(Bitcount()) && bits == old(bits) - n
    {
      hide Mid, Arrays, Held, Mirrors, Led, Cleared, Written, After;
      MidParts();
      ghost var s' := abs.(lens := abs.lens[abs.have := val], have := abs.have + 1, pos := abs.pos + n);
      DropBits(n, abs.pos);
      st := st.(lens := st.lens[st.have := val], have := st.have + 1);
      Follow(s');
    }

    /** Lines 970-1004. */
    method CodeLenMany(val: nat, n: nat, ghost d: Symbol)
      requires Mid() && st.mode == CODELENS && st.have < st.nlen + st.ndist && 16 <= val <= 18 && val == LengthValue(d)
      requires n == d.bits && 1 <= n && n + RepeatMore(val) <= bits && abs.pos <= |BytesBits(all)|
      requires d == Decode(abs.lcode, Rest(BytesBits(all), abs.pos))
      modifies this`st, this`hold, this`bits, this`abs
      ensures Mid() && Bitcount() < old(Bitcount()) && (st.mode == BAD || bits == old(bits) - n - RepeatMore(val))
    {
      hide Mid, Arrays, Held, Mirrors, Led, Cleared, Written, After, BytesBits, Decode, Serves, Accepted, Rest, Peek,
        Low, High, Repeat, LengthValue, Fits;
      MidParts();
      CodeLenParts(st, abs, all);
      ghost var c, pos := st, abs.pos;
      HeldPeek(all, next, hold, bits, pos, n + RepeatMore(val));
      DropBits(n, pos);
      if val == 16 && st.have == 0 {
        CodeLenFirst(c, abs, all, d);
        st := st.(mode := BAD);
        Follow(abs.(mode := BAD, pos := pos + n));
        return;
      }
      var len: nat := if val == 16 then st.lens[st.have - 1] else 0;
      HeldPeek(all, next, hold, bits, pos + n, RepeatMore(val));
      var copy: nat := RepeatBase(val) + Low(hold, RepeatMore(val));
      DropBits(RepeatMore(val), pos + n);
      if st.have + copy > st.nlen + st.ndist {
        st := st.(mode := BAD);
      } else {
        var lens: seq<nat> := FillLens(st.lens, st.have, copy, len);
        st := st.(lens := lens, have := st.have + copy);
      }
      ghost var s' := CodeLenRepeat(c, abs, all, d, len, copy, st);
      Follow(s');
    }

    /** Lines 1007-1043: the tables of a dynamic block. */
    method CodesState()
      requires Mid() && st.mode == CODELENS && st.have == st.nlen + st.ndist
      modifies this`st, this`abs, codes, distCodes, work
      ensures Mid() && (st.mode == BAD || st.mode == LEN)
    {
      hide *;
      MidParts();
      CodeLenParts(st, abs, all);
      ghost var c := st;
      var llens: seq<nat>, dlens: seq<nat> := st.lens[..st.nlen], st.lens[st.nlen..st.nlen + st.ndist];
      LensPart(st.lens, 0, st.nlen, st.have);
      LensPart(st.lens, st.nlen, st.nlen + st.ndist, st.have);
      assert st.lens[0..st.nlen] == llens;
      TableSpaces(llens, dlens);
      ArraySizes();
      var ok := st.lens[256] != 0;
      var lroot: nat, droot: nat := 0, 0;
      if ok {
        ok, lroot, droot := BothTables(llens, dlens, codes, distCodes, work);
      }
      st := st.(mode := if ok then LEN else BAD, lencode := codes[..], lenbits := lroot, distcode := distCodes[..],
                distbits := droot);
      ghost var s' := CodesDoneIs(c, abs, all, ok, st);
      Follow(s');
    }

    /** LEN, lines 1044-1092. */
    method LenState() returns (stop: bool)
      requires Sync() && st.mode == LEN
      modifies this`st, this`hold, this`bits, this`next, this`abs
      ensures Sync()
      ensures if stop then After(abs, all) == None else Bitcount() < old(Bitcount())
    {
      hide *;
      MaxbitsIs();
      BitcountIs();
      SyncParts();
      MidParts();
      LenParts(st, abs, all);
      FewSymbol(Decode(abs.lcode, hold).bits);
      ghost var h, b, nx := hold, bits, next;
      var ok, op: nat, val: nat, n: nat := Fetch(st.lencode, st.lenbits, LENS, abs.lcode);
      BitcountIs();
      MidAgain();
      if !ok {
        UnseenSymbol(LENS, abs.lcode, all, hold, bits, abs.pos);
        LenNone(abs, all);
        SyncStopped();
        return true;
      }
      if bits == b {
        HeldSame(all, nx, next, h, hold, bits, abs.pos);
      }
      ghost var d := Decode(abs.lcode, hold);
      LookupIs(LENS, abs.lcode, st.lencode, st.lenbits, hold);
      HitBits(LENS, abs.lcode, d);
      SeenSymbol(LENS, abs.lcode, all, next, hold, bits, abs.pos);
      ghost var s' := LenNext(st, abs, all, d, op, val);
      DropBits(n, abs.pos);
      st := LenOutcome(st, op, val);
      Follow(s');
      SyncFresh();
      BitcountIs();
      stop := false;
    }

    /** DIST, lines 1103-1129. */
    method DistState() returns (stop: bool)
      requires Sync() && st.mode == DIST
      modifies this`st, this`hold, this`bits, this`next, this`abs
      ensures Sync()
      ensures if stop then After(abs, all) == None else Bitcount() < old(Bitcount())
    {
      hide *;
      MaxbitsIs();
      BitcountIs();
      SyncParts();
      MidParts();
      LenParts(st, abs, all);
      FewSymbol(Decode(abs.dcode, hold).bits);
      ghost var h, b, nx := hold, bits, next;
      var ok, op: nat, val: nat, n: nat := Fetch(st.distcode, st.distbits, DISTS, abs.dcode);
      BitcountIs();
      MidAgain();
      if !ok {
        UnseenSymbol(DISTS, abs.dcode, all, hold, bits, abs.pos);
        DistNone(abs, all);
        SyncStopped();
        return true;
      }
      if bits == b {
        HeldSame(all, nx, next, h, hold, bits, abs.pos);
      }
      ghost var d := Decode(abs.dcode, hold);
      LookupIs(DISTS, abs.dcode, st.distcode, st.distbits, hold);
      HitBits(DISTS, abs.dcode, d);
      SeenSymbol(DISTS, abs.dcode, all, next, hold, bits, abs.pos);
      ghost var s' := DistNext(st, abs, all, d, op, val);
      DropBits(n, abs.pos);
      st := DistOutcome(st, op, val);
      Follow(s');
      SyncFresh();
      BitcountIs();
      stop := false;
    }

    /** LENEXT, lines 1093-1102. */
    method LenExtState() returns (stop: bool)
      requires Sync() && st.mode == LENEXT
      modifies this`st, this`hold, this`bits, this`next, this`abs
      ensures Sync()
      ensures if stop then After(abs, all) == None else Bitcount() <= old(Bitcount()) && st.mode == DIST
    {
      hide Sync, Mid, Arrays, Held, Mirrors, Led, Cleared, Written, After, BytesBits, Fits, Peek, Low, High;
      SyncParts();
      MidParts();
      ExtraParts(st, abs, all);
      Few(st.extra);
      var ok := NeedBits(st.extra);
      MidAgain();
      if !ok {
        HeldEnd(all, hold, bits, abs.pos, st.extra);
        ExtraNone(abs, all);
        SyncStopped();
        return true;
      }
      HeldPeek(all, next, hold, bits, abs.pos, st.extra);
      var v: nat := Low(hold, st.extra);
      LenExtNext(st, abs, all, v);
      DropBits(st.extra, abs.pos);
      st := st.(length := st.length + v, mode := DIST);
      Follow(abs.(mode := DIST, length := abs.length + v, pos := abs.pos + abs.extra));
      SyncFresh();
      stop := false;
    }

    /** DISTEXT, lines 1130-1145. */
    method DistExtState() returns (stop: bool)
      requires Sync() && st.mode == DISTEXT
      modifies this`st, this`hold, this`bits, this`next, this`abs
      ensures Sync()
      ensures if stop then After(abs, all) == None else Bitcount() <= old(Bitcount()) && st.mode == MATCH
    {
      hide Sync, Mid, Arrays, Held, Mirrors, Led, Cleared, Written, After, BytesBits, Fits, Peek, Low, High;
      SyncParts();
      MidParts();
      ExtraParts(st, abs, all);
      Few(st.extra);
      var ok := NeedBits(st.extra);
      MidAgain();
      if !ok {
        HeldEnd(all, hold, bits, abs.pos, st.extra);
        ExtraNone(abs, all);
        SyncStopped();
        return true;
      }
      HeldPeek(all, next, hold, bits, abs.pos, st.extra);
      var v: nat := Low(hold, st.extra);
      DistExtNext(st, abs, all, v);
      DropBits(st.extra, abs.pos);
      st := st.(offset := st.offset + v, mode := MATCH);
      Follow(abs.(mode := MATCH, offset := abs.offset + v, pos := abs.pos + abs.extra));
      SyncFresh();
      stop := false;
    }

    /** LIT, lines 1191-1196. */
    method LitState() returns (stop: bool)
      requires Sync() && st.mode == LIT
      modifies this`st, this`put, this`left, this`abs
      ensures Sync() && |put| + left == |old(put)| + old(left)
      ensures if stop then left == 0 else left < old(left)
    {
      hide Sync, Mid, Arrays, Held, Mirrors, Led, Cleared, Written, After;
      if left == 0 {
        return true;
      }
      SyncParts();
      Few(0);
      MidParts();
      LitNext(st, abs, all);
      WrittenMore(abs.out, hist, put, window, wnext, whave, wbits, [st.length]);
      put := put + [st.length];
      left := left - 1;
      st := st.(mode := LEN);
      Follow(abs.(mode := LEN, out := abs.out + [abs.length]));
      SyncFresh();
      stop := false;
    }

    /** Lines 1171-1188: n bytes from the window, beginning c0 bytes back. */
    method FromWindow(from: nat, n: nat, dist: nat, ghost c0: nat)
      requires WindowOk(hist, window, wnext, whave, wbits) && c0 + |put| == dist && 1 <= n <= c0 <= whave
      requires if c0 > wnext then from + c0 == |window| + wnext && n <= c0 - wnext else from == wnext - c0
      modifies this`put
      ensures |put| == |old(put)| + n && dist <= |hist| + |old(put)|
      ensures hist + put == CopyBack(hist + old(put), n, dist)
    {
      hide WindowOk, CopyBack;
      ghost var p0 := put;
      WindowSizes(hist, window, wnext, whave, wbits);
      CopyBackNone(hist + put, dist);
      var k: nat := 0;
      while k < n
        invariant k <= n && hist + put == CopyBack(hist + p0, k, dist) && |put| == |p0| + k
      {
        CopyBackSnoc(hist + p0, k, dist);
        WindowByte(hist, window, wnext, whave, wbits, c0 - k);
        assert (hist + put)[|hist| + |p0| + k - dist] == hist[|hist| - (c0 - k)];
        put := put + [window[from + k]];
        k := k + 1;
      }
    }

    /** Lines 1180-1188: n bytes from this call's output. */
    method FromOutput(n: nat, dist: nat)
      requires 1 <= dist <= |put|
      modifies this`put
      ensures hist + put == CopyBack(hist + old(put), n, dist) && |put| == |old(put)| + n
    {
      hide CopyBack;
      ghost var p0 := put;
      var from: nat := |put| - dist;
      CopyBackNone(hist + put, dist);
      var k: nat := 0;
      while k < n
        invariant k <= n && hist + put == CopyBack(hist + p0, k, dist) && |put| == |p0| + k
      {
        CopyBackSnoc(hist + p0, k, dist);
        put := put + [put[from + k]];
        k := k + 1;
      }
    }

    /** Lines 1184-1189: the copied bytes count. */
    method AfterCopy(n: nat, ghost p0: seq<byte>)
      requires Arrays() && exact && Led(abs, all) && Cleared(abs, all, hist, wbits) && Mirrors(st, abs)
      requires Held(all, next, hold, bits, abs.pos) && bits <= 32 && Near(abs, |hist|, Pow2(wbits))
      requires abs.mode == MATCH && st.mode == MATCH && st.length == abs.length && 1 <= n <= abs.length && n <= left
      requires Written(abs.out, hist, p0, window, wnext, whave, wbits) && 1 <= abs.offset <= |abs.out|
      requires abs.out == hist + p0 && hist + put == CopyBack(hist + p0, n, abs.offset)
      modifies this`st, this`left, this`abs
      ensures Mid() && left == old(left) - n && (st.mode == MATCH || st.mode == LEN)
    {
      hide Mid, Arrays, Held, Mirrors, Led, Cleared, Written, CopyBack, Copied, Near, Pow2;
      MatchRun(abs, all, n, hist, wbits);
      MatchMirrors(st, abs, n);
      ghost var s' := Copied(abs, n);
      WrittenOut(abs.out, hist, p0, window, wnext, whave, wbits, s'.out, put);
      left := left - n;
      st := st.(length := st.length - n);
      if st.length == 0 {
        st := st.(mode := LEN);
      }
      Jump(s');
    }

    /** Lines 1151-1156: the distance reaches back before the window. Where the bytes have merely left
        the window the abstract machine would go on. */
    method TooFar()
      requires Mid() && st.mode == MATCH && abs.offset > |put| + whave && left > 0
      modifies this`st, this`abs, this`exact
      ensures if exact then Mid() && st.mode == BAD else Lost()
    {
      hide Mid, Arrays, Held, Mirrors, Led, Cleared, Written, After, IW.Holds;
      MidParts();
      WrittenSizes(abs.out, hist, put, window, wnext, whave, wbits);
      WrittenWindow(abs.out, hist, put, window, wnext, whave, wbits);
      ghost var far := abs.offset > |abs.out|;
      if far {
        MatchBad(st, abs, all);
      } else {
        NotNear(abs, hist, put, window, wnext, whave, wbits);
      }
      st := st.(mode := BAD);
      if far {
        Follow(abs.(mode := BAD));
      } else {
        exact := false;
      }
    }

    /** The decoder has given up on a match, at a point to which the abstract machine had come and
        from which it goes on. */
    ghost predicate Lost()
      reads this
    {
      && Arrays() && !exact && st.mode == BAD && Led(abs, all) && abs.mode == MATCH && abs.out == hist + put
      && !Near(abs, |hist|, Pow2(wbits)) && left > 0 && WindowOk(hist, window, wnext, whave, wbits)
    }

    /** Lines 1148-1188: as many bytes of a match as can be had from one place. */
    method MatchBytes(offset: nat, length: nat) returns (copy: nat)
      requires WindowOk(hist, window, wnext, whave, wbits) && 1 <= offset <= |put| + whave && length >= 1 && left >= 1
      modifies this`put
      ensures 1 <= copy <= length && copy <= left && |put| == |old(put)| + copy && offset <= |hist| + |old(put)|
      ensures hist + put == CopyBack(hist + old(put), copy, offset)
    {
      hide *;
      WindowSizes(hist, window, wnext, whave, wbits);
      if offset > |put| {
        copy := offset - |put|;
        ghost var c0 := copy;
        var from: nat;
        if copy > wnext {
          copy := copy - wnext;
          from := |window| - copy;
        } else {
          from := wnext - copy;
        }
        copy := if copy > length then length else copy;
        copy := if copy > left then left else copy;
        FromWindow(from, copy, offset, c0);
      } else {
        copy := if length > left then left else length;
        FromOutput(copy, offset);
      }
    }

    /** MATCH, lines 1146-1190. */
    method MatchState() returns (stop: bool)
      requires Sync() && st.mode == MATCH
      modifies this`st, this`put, this`left, this`abs, this`exact
      ensures Kept() && |put| + left == |old(put)| + old(left)
      ensures left <= old(left) && if stop then exact && left == 0 else left < old(left) || st.mode == BAD
    {
      hide *;
      SyncParts();
      MidParts();
      if left == 0 {
        SyncKept();
        return true;
      }
      stop := false;
      Few(0);
      MatchParts(st, abs, all);
      if st.offset > |put| + whave {
        TooFar();
        if exact {
          SyncFresh();
        } else {
          LostParts();
        }
        MakeKept();
        return;
      }
      IsNear(abs, hist, put, window, wnext, whave, wbits);
      WrittenWindow(abs.out, hist, put, window, wnext, whave, wbits);
      WrittenSizes(abs.out, hist, put, window, wnext, whave, wbits);
      ghost var p0 := put;
      var copy: nat := MatchBytes(st.offset, st.length);
      AfterCopy(copy, p0);
      SyncFresh();
      SyncKept();
    }

    lemma LostParts()
      requires Lost()
      ensures Arrays() && !exact && st.mode == BAD && Led(abs, all) && abs.mode == MATCH && abs.out == hist + put
      ensures left > 0
      ensures !Near(abs, |hist|, Pow2(wbits)) && WindowOk(hist, window, wnext, whave, wbits)
    {
      hide Arrays, Led, Near, WindowOk, Pow2;
    }

    /** What a turn of the loop of inflate() leaves. */
    ghost predicate Kept()
      reads this
    {
      if exact then Sync() else Lost()
    }

    /** CODELENS, lines 959-1043. */
    method LengthsState() returns (stop: bool)
      requires Sync() && st.mode == CODELENS
      modifies this`st, this`hold, this`bits, this`next, this`abs, codes, distCodes, work
      ensures Sync()
      ensures if stop then After(abs, all) == None
        else Progress(old(Bitcount()), left, CODELENS, Bitcount(), left, st.mode)
    {
      hide *;
      ghost var n := Bitcount();
      SyncParts();
      MidParts();
      CodeLenParts(st, abs, all);
      stop := false;
      Ranks();
      if st.have < st.nlen + st.ndist {
        stop := CodeLenState();
      } else {
        BitcountIs();
        Few(0);
        CodesState();
        SyncFresh();
        BitcountIs();
      }
      if !stop {
        ProgressIs(n, left, CODELENS, Bitcount(), left, st.mode);
      }
    }

    /** The states of a block's header. */
    method HeaderTurn() returns (stop: bool)
      requires Sync()
      requires (st.mode == TYPE || st.mode == STORED || st.mode == TABLE || st.mode == LENLENS || st.mode == CODELENS)
      modifies this`st, this`hold, this`bits, this`next, this`abs, codes, distCodes, work
      ensures Sync()
      ensures if stop then After(abs, all) == None
        else Progress(old(Bitcount()), left, old(st.mode), Bitcount(), left, st.mode)
    {
      hide *;
      if st.mode == CODELENS {
        stop := LengthsState();
        return;
      }
      SyncParts();
      MidParts();
      if st.mode == TYPE {
        stop := TypeState();
      } else if st.mode == STORED {
        stop := StoredState();
      } else if st.mode == TABLE {
        stop := TableState();
      } else {
        stop := LenLensState();
      }
    }

    /** The states of a symbol. */
    method SymbolTurn() returns (stop: bool)
      requires Sync() && (st.mode == LEN || st.mode == LENEXT || st.mode == DIST || st.mode == DISTEXT)
      modifies this`st, this`hold, this`bits, this`next, this`abs
      ensures Sync() && if stop then After(abs, all) == None
        else Progress(old(Bitcount()), left, old(st.mode), Bitcount(), left, st.mode)
    {
      hide *;
      ghost var n, m := Bitcount(), st.mode;
      Ranks();
      if st.mode == LEN {
        stop := LenState();
      } else if st.mode == LENEXT {
        stop := LenExtState();
      } else if st.mode == DIST {
        stop := DistState();
      } else {
        stop := DistExtState();
      }
      if !stop {
        ProgressIs(n, left, m, Bitcount(), left, st.mode);
      }
    }

    /** The states that put out. */
    method OutputTurn() returns (stop: bool)
      requires Sync() && (st.mode == COPY || st.mode == MATCH || st.mode == LIT)
      modifies this`st, this`next, this`put, this`left, this`abs, this`exact
      ensures Kept() && |put| + left == |old(put)| + old(left)
      ensures if stop then exact && (After(abs, all) == None || left == 0)
        else Progress(old(Bitcount()), old(left), old(st.mode), Bitcount(), left, st.mode)
    {
      hide *;
      ghost var n, l, m := Bitcount(), left, st.mode;
      Ranks();
      BitcountIs();
      SyncParts();
      MidParts();
      if st.mode == COPY {
        stop := CopyState();
        SyncKept();
      } else if st.mode == MATCH {
        stop := MatchState();
        BitcountIs();
        if !stop {
          ProgressIs(n, l, m, Bitcount(), left, st.mode);
        }
      } else {
        stop := LitState();
        BitcountIs();
        SyncKept();
        if !stop {
          ProgressIs(n, l, m, Bitcount(), left, st.mode);
        }
      }
    }

    lemma BitcountIs()
      ensures Bitcount() == 8 * |next| + bits
    {
    }

    lemma SyncKept()
      requires Sync()
      ensures Kept() && exact
    {
      hide Arrays, Led, Cleared, Mirrors, Held, Written;
    }

    lemma MakeKept()
      requires if exact then Sync() else Lost()
      ensures Kept()
    {
      hide Sync, Lost;
    }

    lemma KeptParts()
      requires Kept()
      ensures if exact then Sync() else Lost()
    {
      hide Sync, Lost;
    }

    /** One turn of the loop of inflate(). */
    method Turn() returns (stop: bool)
      requires Sync() && st.mode != DONE && st.mode != BAD
      modifies this`st, this`hold, this`bits, this`next, this`put, this`left, this`abs, this`exact, codes, distCodes
      modifies work
      ensures Kept() && |put| + left == |old(put)| + old(left)
      ensures if stop then exact && (After(abs, all) == None || left == 0)
        else Progress(old(Bitcount()), old(left), old(st.mode), Bitcount(), left, st.mode)
    {
      hide *;
      if st.mode == LEN && |next| >= 6 && left >= 258 {
        ghost var n, l := Bitcount(), left;
        InflateFast();
        ProgressIs(n, l, LEN, Bitcount(), left, st.mode);
        stop := false;
      } else if st.mode == COPY || st.mode == MATCH || st.mode == LIT {
        stop := OutputTurn();
      } else if st.mode == LEN || st.mode == LENEXT || st.mode == DIST || st.mode == DISTEXT {
        stop := SymbolTurn();
        SyncKept();
      } else {
        stop := HeaderTurn();
        SyncKept();
      }
    }

    /** The accumulator and the output stand at the state s, mirrored by c: inside inflate_fast, which
        leaves the state's own fields alone. */
    ghost predicate Along(s: State, c: Conc)
      reads this
    {
      && Arrays() && exact && Led(s, all) && Cleared(s, all, hist, wbits) && Mirrors(c, s)
      && Held(all, next, hold, bits, s.pos) && bits <= 32
      && Written(s.out, hist, put, window, wnext, whave, wbits)
    }

    lemma AlongParts(s: State, c: Conc)
      requires Along(s, c)
      ensures Arrays() && exact && Led(s, all) && Cleared(s, all, hist, wbits) && Mirrors(c, s)
      ensures Held(all, next, hold, bits, s.pos) && bits <= 32
      ensures Written(s.out, hist, put, window, wnext, whave, wbits)
    {
      hide Arrays, Led, Cleared, Mirrors, Held, Written;
    }

    lemma MakeAlong(s: State, c: Conc)
      requires Arrays() && exact && Led(s, all) && Cleared(s, all, hist, wbits) && Mirrors(c, s)
      requires Held(all, next, hold, bits, s.pos) && bits <= 32
      requires Written(s.out, hist, put, window, wnext, whave, wbits)
      ensures Along(s, c)
    {
      hide Arrays, Led, Cleared, Mirrors, Held, Written;
    }

    /** Pulls n bytes that are there. */
    method PullSome(n: nat, ghost pos: nat)
      requires Held(all, next, hold, bits, pos) && n <= |next|
      modifies this`hold, this`bits, this`next
      ensures Held(all, next, hold, bits, pos) && bits == old(bits) + 8 * n && next == old(next)[n..]
    {
      hide Held, Pow2;
      var k: nat := 0;
      assert next[0..] == next;
      while k < n
        invariant k <= n && Held(all, next, hold, bits, pos) && bits == old(bits) + 8 * k && next == old(next)[k..]
      {
        PullHeld(all, next, hold, bits, pos);
        hold := hold + next[0] * Pow2(bits);
        next := next[1..];
        bits := bits + 8;
        k := k + 1;
      }
    }

    /** Lines 110-115 and 141-146 of inffast.c: with 15 bits in sight every symbol is there. The bits
        are dropped table by table. */
    method FastFetch(table: seq<Entry>, root: nat, ghost t: CodeType, ghost code: seq<nat>, ghost pos: nat)
      returns (op: nat, val: nat, ghost d: Symbol)
      requires Serves(t, code, table, root) && Held(all, next, hold, bits, pos) && bits >= MAXBITS
      modifies this`hold, this`bits
      ensures |code| <= MaxCodes(t) && d == Decode(code, old(hold)) && d.sym <= |code| && 1 <= d.bits <= MAXBITS
      ensures Hit(op, val, d.bits) == HitOf(t, code, d) && pos <= |BytesBits(all)|
      ensures d == Decode(code, Rest(BytesBits(all), pos)) && Fits(pos, d.bits, BytesBits(all))
      ensures Held(all, next, hold, bits, pos + d.bits) && bits == old(bits) - d.bits
    {
      hide Serves, Held, Low, High, Decode, Lookup, Pow2, HitOf, RootCovers, Rest, BytesBits, Fits, Accepted;
      d := Decode(code, hold);
      LookupIs(t, code, table, root, hold);
      HitBits(t, code, d);
      RootIs(t, code, table, root, hold);
      ServesAccepted(t, code, table, root);
      SeenSymbol(t, code, all, next, hold, bits, pos);
      var here: Entry := table[Low(hold, root)];
      DropBits(here.bits, pos);
      if here.op != 0 && here.op < 16 {
        var more: Entry := table[here.val + Low(hold, here.op)];
        DropBits(more.bits, pos + here.bits);
        here := more;
      }
      op, val := here.op, here.val;
    }

    /** Lines 122-133 of inffast.c: the length and its extra bits. */
    method FastLength(op: nat, val: nat, ghost s: State, ghost c: Conc) returns (len: nat, ghost s': State)
      requires Along(s, c) && s.mode == LENEXT && c.extra == op % 16 <= 5 && c.length == val && |next| >= 1
      modifies this`hold, this`bits, this`next
      ensures Along(s', c.(mode := DIST, length := len)) && s'.mode == DIST && s'.length == len >= 3 && SameCodes(s, s')
      ensures s'.out == s.out && Bitcount() == old(Bitcount()) - op % 16 && (bits <= old(bits) || bits <= 12)
      ensures |old(next)| - 1 <= |next| <= |old(next)|
    {
      hide Along, Arrays, Led, Cleared, Mirrors, Held, Written, After, BytesBits, Peek, Low, High, Fits;
      AlongParts(s, c);
      ExtraParts(c, s, all);
      var extra: nat := op % 16;
      if bits < extra {
        PullSome(1, s.pos);
      }
      HeldPeek(all, next, hold, bits, s.pos, extra);
      var v: nat := Low(hold, extra);
      LenExtNext(c, s, all, v);
      ClearedStep(s, all, hist, wbits);
      len := val + v;
      DropBits(extra, s.pos);
      s' := s.(mode := DIST, length := s.length + v, pos := s.pos + s.extra);
      LenExtParts(c, s, all);
      MakeAlong(s', c.(mode := DIST, length := len));
    }

    /** Lines 135-149 of inffast.c: the distance code. */
    method FastDistCode(ghost s: State, ghost c: Conc) returns (op: nat, val: nat, ghost s': State)
      requires Along(s, c) && s.mode == DIST && c.distcode == st.distcode && c.distbits == st.distbits
      requires Bitcount() >= 28
      modifies this`hold, this`bits, this`next
      ensures Along(s', DistOutcome(c, op, val)) && s'.length == s.length && SameCodes(s, s') && s'.out == s.out
      ensures (Bit16(op) <==> !Bit64(op)) && s'.mode == (if Bit16(op) then DISTEXT else BAD)
      ensures old(Bitcount()) - MAXBITS <= Bitcount() < old(Bitcount())
      ensures |old(next)| - 2 <= |next| <= |old(next)|
    {
      hide Along, Arrays, Led, Cleared, Mirrors, Held, Written, After, BytesBits, Peek, Low, High, Fits, Rest, Decode,
        Serves, Accepted, HitOf,
        Bit16, Bit64;
      AlongParts(s, c);
      LenParts(c, s, all);
      if bits < MAXBITS {
        PullSome(2, s.pos);
      }
      ghost var d;
      op, val, d := FastFetch(st.distcode, st.distbits, DISTS, s.dcode, s.pos);
      s' := DistNext(c, s, all, d, op, val);
      DistBit16(s.dcode, d, op, val);
      MirrorsMode(DistOutcome(c, op, val), s');
      ClearedStep(s, all, hist, wbits);
      MakeAlong(s', DistOutcome(c, op, val));
    }

    /** Lines 149-167 of inffast.c: the distance's extra bits. */
    method FastDistExtra(op: nat, val: nat, ghost s: State, ghost c: Conc) returns (dist: nat, ghost s': State)
      requires Along(s, c) && s.mode == DISTEXT && c.extra == op % 16 && c.offset == val && Bitcount() >= 13
      modifies this`hold, this`bits, this`next
      ensures s'.mode == MATCH && s'.offset == dist && Along(s', c.(mode := MATCH, offset := dist))
      ensures s'.length == s.length && SameCodes(s, s') && s'.out == s.out
      ensures old(Bitcount()) - 13 <= Bitcount() <= old(Bitcount()) && |next| <= |old(next)|
      ensures |next| == |old(next)| || bits < 8
    {
      hide Along, Arrays, Led, Cleared, Mirrors, Held, Written, After, BytesBits, Peek, Low, High, Fits;
      AlongParts(s, c);
      ExtraParts(c, s, all);
      DistExtParts(c, s, all);
      var extra: nat := op % 16;
      if bits < extra {
        PullSome(1, s.pos);
        if bits < extra {
          PullSome(1, s.pos);
        }
      }
      HeldPeek(all, next, hold, bits, s.pos, extra);
      var v: nat := Low(hold, extra);
      DistExtNext(c, s, all, v);
      ClearedStep(s, all, hist, wbits);
      dist := val + v;
      DropBits(extra, s.pos);
      s' := s.(mode := MATCH, offset := s.offset + v, pos := s.pos + s.extra);
      MakeAlong(s', c.(mode := MATCH, offset := dist));
    }

    /** Then n more bytes from the output: the rest of a match that began in the window. */
    method RestFromOutput(n: nat, dist: nat, ghost p0: seq<byte>, ghost a: nat)
      requires 1 <= dist <= |put| && dist <= |hist| + |p0| && hist + put == CopyBack(hist + p0, a, dist)
      modifies this`put
      ensures |put| == |old(put)| + n && hist + put == CopyBack(hist + p0, a + n, dist)
    {
      hide CopyBack;
      CopyBackParts(hist + p0, a, n, dist);
      FromOutput(n, dist);
    }

    /** Lines 210-228 of inffast.c: a match that begins in the upper part of a window that has wrapped
        round goes on at its start, and then in the output. */
    method FastWrapped(len: nat, dist: nat)
      requires WindowOk(hist, window, wnext, whave, wbits) && 1 <= len && wnext > 0
      requires |put| + wnext < dist <= |put| + whave
      modifies this`put
      ensures |put| == |old(put)| + len && dist <= |hist| + |old(put)|
      ensures hist + put == CopyBack(hist + old(put), len, dist)
    {
      hide WindowOk, CopyBack;
      ghost var p0 := put;
      WindowSizes(hist, window, wnext, whave, wbits);
      var op: nat := dist - |put|;
      var from: nat := |window| + wnext - op;
      var first: nat := op - wnext;
      if first >= len {
        FromWindow(from, len, dist, op);
        return;
      }
      FromWindow(from, first, dist, op);
      var rest: nat := len - first;
      ghost var p1 := put;
      var second: nat := if wnext < rest then wnext else rest;
      FromWindow(0, second, dist, wnext);
      CopyBackParts(hist + p0, first, second, dist);
      if wnext < rest {
        RestFromOutput(rest - wnext, dist, p0, first + second);
      }
    }

    /** Lines 169-264 of inffast.c: the whole match at once. */
    method FastCopy(len: nat, dist: nat)
      requires WindowOk(hist, window, wnext, whave, wbits) && 1 <= len && 1 <= dist <= |put| + whave
      modifies this`put
      ensures |put| == |old(put)| + len && dist <= |hist| + |old(put)|
      ensures hist + put == CopyBack(hist + old(put), len, dist)
    {
      hide WindowOk, CopyBack;
      ghost var p0 := put;
      WindowSizes(hist, window, wnext, whave, wbits);
      if dist <= |put| {
        FromOutput(len, dist);
        return;
      }
      var op: nat := dist - |put|;
      if wnext != 0 && wnext < op {
        FastWrapped(len, dist);
        return;
      }
      var from: nat := if wnext == 0 then |window| - op else wnext - op;
      var n: nat := if op < len then op else len;
      FromWindow(from, n, dist, op);
      if op < len {
        RestFromOutput(len - op, dist, p0, n);
      }
    }

    /** Lines 169-264 of inffast.c: the match is copied, or its distance is too far back. */
    method FastEnd(len: nat, dist: nat, ghost s: State, ghost c: Conc)
      requires Along(s, c) && s.mode == MATCH && s.offset == dist && s.length == len && SameCodes(abs, s)
      requires Mirrors(st, abs) && abs.mode == LEN && left >= 258
      modifies this`st, this`put, this`left, this`abs, this`exact
      ensures if exact then Mid() && (st.mode == LEN || st.mode == BAD) else Lost()
      ensures |put| + left == |old(put)| + old(left) && left + 258 >= old(left)
    {
      hide *;
      AlongParts(s, c);
      MatchLimits(s, all);
      WrittenSizes(s.out, hist, put, window, wnext, whave, wbits);
      WrittenWindow(s.out, hist, put, window, wnext, whave, wbits);
      if dist > |put| + whave {
        FastFar(s, c);
        return;
      }
      ghost var p0 := put;
      IsNear(s, hist, put, window, wnext, whave, wbits);
      FastCopy(len, dist);
      MatchRun(s, all, len, hist, wbits);
      MatchMirrors(c, s, len);
      ghost var s' := Copied(s, len);
      SameCodesTrans(abs, s, s');
      MirrorsLen(st, abs, s');
      WrittenOut(s.out, hist, p0, window, wnext, whave, wbits, s'.out, put);
      left := left - len;
      MirrorsMode(st, s');
      Jump(s');
    }

    /** Lines 172-178 of inffast.c. */
    method FastFar(ghost s: State, ghost c: Conc)
      requires Along(s, c) && s.mode == MATCH && s.offset > |put| + whave && SameCodes(abs, s) && Mirrors(st, abs)
      requires left > 0
      modifies this`st, this`abs, this`exact
      ensures if exact then Mid() && st.mode == BAD else Lost()
    {
      hide *;
      AlongParts(s, c);
      WrittenWindow(s.out, hist, put, window, wnext, whave, wbits);
      WrittenSizes(s.out, hist, put, window, wnext, whave, wbits);
      ghost var far := s.offset > |s.out|;
      st := st.(mode := BAD);
      if far {
        MatchBad(c, s, all);
        NearFar(s, |hist|, Pow2(wbits));
        ClearedStep(s, all, hist, wbits);
        MirrorsBad(old(st), abs, s);
        Jump(s.(mode := BAD));
      } else {
        NotNear(s, hist, put, window, wnext, whave, wbits);
        abs, exact := s, false;
        MakeLost();
      }
    }

    lemma MakeLost()
      requires Arrays() && !exact && st.mode == BAD && Led(abs, all) && abs.mode == MATCH && abs.out == hist + put
      requires left > 0
      requires !Near(abs, |hist|, Pow2(wbits)) && WindowOk(hist, window, wnext, whave, wbits)
      ensures Lost()
    {
      hide Arrays, Led, Near, WindowOk, Pow2;
    }

    /** Lines 122-275 of inffast.c: a match. */
    method FastMatch(op: nat, val: nat, ghost s: State, ghost c: Conc)
      requires Along(s, c) && s.mode == LENEXT && c.extra == op % 16 <= 5 && c.length == val && SameCodes(abs, s)
      requires c.distcode == st.distcode && c.distbits == st.distbits && Mirrors(st, abs) && abs.mode == LEN
      requires |next| >= 1 && Bitcount() >= 33 && left >= 258
      modifies this`st, this`hold, this`bits, this`next, this`put, this`left, this`abs, this`exact
      ensures if exact then Mid() && (st.mode == LEN || st.mode == BAD) else Lost()
      ensures |put| + left == |old(put)| + old(left) && Bitcount() < old(Bitcount()) && |next| <= |old(next)|
      ensures left + 258 >= old(left) && Bitcount() + 33 >= old(Bitcount()) && (|next| + 3 >= |old(next)| || bits < 8)
    {
      hide *;
      BitcountIs();
      var len: nat, op1: nat, val1: nat;
      ghost var s1, s2;
      len, s1 := FastLength(op, val, s, c);
      ghost var c1 := c.(mode := DIST, length := len);
      op1, val1, s2 := FastDistCode(s1, c1);
      SameCodesTrans(abs, s, s1);
      SameCodesTrans(abs, s1, s2);
      MaxbitsIs();
      DistOutcomeIs(c1, op1, val1);
      if Bit16(op1) {
        ghost var c2 := DistOutcome(c1, op1, val1);
        var dist: nat;
        ghost var s3;
        dist, s3 := FastDistExtra(op1, val1, s2, c2);
        SameCodesTrans(abs, s2, s3);
        FastEnd(len, dist, s3, c2.(mode := MATCH, offset := dist));
      } else {
        AlongParts(s2, c1.(mode := BAD));
        MirrorsEnd(st, abs, s2, BAD);
        st := st.(mode := BAD);
        Jump(s2);
      }
    }

    /** Lines 104-115 of inffast.c: the next literal or length, of n bits. */
    method FastSymbol() returns (op: nat, val: nat, ghost s: State, ghost n: nat)
      requires Mid() && st.mode == LEN && |next| >= 6
      modifies this`hold, this`bits, this`next
      ensures Along(s, LenOutcome(st, op, val)) && SameCodes(abs, s) && s.mode == LenOutcome(st, op, val).mode
      ensures op != 0 ==> (Bit16(op) <==> !Bit32(op) && !Bit64(op)) && (Bit16(op) || Bit64(op))
      ensures Bit16(op) ==> op % 16 <= 5
      ensures Bitcount() + n == old(Bitcount()) && |old(next)| - 2 <= |next| <= |old(next)|
      ensures 1 <= n <= MAXBITS && n == SymbolBits()
    {
      hide *;
      MidParts();
      LenParts(st, abs, all);
      BitcountIs();
      SymbolBitsIs();
      if bits < MAXBITS {
        PullSome(2, abs.pos);
      }
      MaxbitsIs();
      ghost var d;
      op, val, d := FastFetch(st.lencode, st.lenbits, LENS, abs.lcode, abs.pos);
      n := d.bits;
      s := LenNext(st, abs, all, d, op, val);
      ClearedStep(abs, all, hist, wbits);
      LenBit16(abs.lcode, d, op, val);
      MirrorsMode(LenOutcome(st, op, val), s);
      BitcountIs();
      MakeAlong(s, LenOutcome(st, op, val));
    }

    /** Lines 103-290 of inffast.c: one turn of its loop. It reads at most 6 bytes and writes at most 258,
        so that it needs no further tests. n is the number of bits of the first symbol. */
    method FastTurn() returns (ghost n: nat)
      requires Mid() && st.mode == LEN && |next| >= 6 && left >= 258
      modifies this`st, this`hold, this`bits, this`next, this`put, this`left, this`abs, this`exact
      ensures if exact then Mid() && (st.mode == LEN || st.mode == TYPE || st.mode == BAD) else Lost()
      ensures |put| + left == |old(put)| + old(left) && Bitcount() + n <= old(Bitcount()) && |next| <= |old(next)|
      ensures n >= 1 && n == old(SymbolBits())
      ensures |old(next)| - |next| <= 6 && |put| - |old(put)| <= 258
    {
      hide *;
      MidParts();
      BitcountIs();
      MaxbitsIs();
      var op: nat, val: nat;
      ghost var s;
      op, val, s, n := FastSymbol();
      BitcountIs();
      LenOutcomeIs(st, op, val);
      AlongParts(s, LenOutcome(st, op, val));
      if op == 0 {
        FastLit(val, s, LenOutcome(st, op, val));
      } else if Bit16(op) {
        FastMatch(op, val, s, LenOutcome(st, op, val));
      } else {
        st := st.(mode := if Bit32(op) then TYPE else BAD);
        MirrorsEnd(old(st), abs, s, st.mode);
        Jump(s);
      }
      BitcountIs();
    }

    /** Lines 116-121 of inffast.c. */
    method FastLit(val: nat, ghost s: State, ghost c: Conc)
      requires Arrays() && exact && Led(s, all) && Cleared(s, all, hist, wbits) && Mirrors(c, s)
      requires Held(all, next, hold, bits, s.pos) && bits <= 32
      requires Written(s.out, hist, put, window, wnext, whave, wbits)
      requires s.mode == LIT && c.length == val && SameCodes(abs, s) && Mirrors(st, abs) && abs.mode == LEN && left >= 1
      modifies this`put, this`left, this`abs
      ensures Mid() && |put| + left == |old(put)| + old(left) && left == old(left) - 1
    {
      hide *;
      LitNext(c, s, all);
      ClearedStep(s, all, hist, wbits);
      WrittenMore(s.out, hist, put, window, wnext, whave, wbits, [val]);
      ghost var s' := s.(mode := LEN, out := s.out + [s.length]);
      SameCodesMode(abs, s, s');
      MirrorsLen(st, abs, s');
      put := put + [val];
      left := left - 1;
      Jump(s');
    }

    /** Lines 292-296 of inffast.c: the bytes that were pulled for nothing go back, and none that this
        call did not pull. */
    method GiveBack(next0: seq<byte>)
      requires if exact then Mid() && st.mode != COPY else Lost()
      requires Bitcount() <= 8 * |next0| + 7 && |next| <= |next0|
      requires exact ==> |next0| <= |all| && next0 == all[|all| - |next0|..]
      modifies this`next, this`hold, this`bits
      ensures (if exact then Mid() else Lost()) && bits < 8 && Bitcount() == old(Bitcount())
    {
      hide Mid, Arrays, Led, Cleared, Mirrors, Held, Written, Low;
      var k: nat := bits / 8;
      ghost var nx := next;
      if exact {
        MidParts();
        GiveBackHeld(all, next, hold, bits, abs.pos, k);
        BackSlice(all, next0, |next| + k);
      }
      next := next0[|next0| - |next| - k..];
      hold := Low(hold, bits - 8 * k);
      bits := bits - 8 * k;
      if exact {
        MidAgain();
      }
    }

    /** inflate_fast, lines 50-307 of inffast.c. */
    method InflateFast()
      requires Sync() && st.mode == LEN && |next| >= 6 && left >= 258
      modifies this`st, this`hold, this`bits, this`next, this`put, this`left, this`abs, this`exact
      ensures Kept() && |put| + left == |old(put)| + old(left) && Bitcount() < old(Bitcount())
    {
      hide *;
      SyncParts();
      MidParts();
      BitcountIs();
      FirstSymbol();
      HeldSuffix(all, next, hold, bits, abs.pos);
      var next0: seq<byte> := next;
      ghost var n := FastTurn();
      while st.mode == LEN && |next| >= 6 && left >= 258
        invariant if exact then Mid() && (st.mode == LEN || st.mode == TYPE || st.mode == BAD) else Lost()
        invariant |put| + left == |old(put)| + old(left) && Bitcount() < old(Bitcount())
        invariant Bitcount() <= 8 * |next0| + 7
        invariant |next| <= |next0|
        decreases Bitcount()
      {
        if !exact {
          LostParts();
        }
        n := FastTurn();
      }
      GiveBack(next0);
      if exact {
        SyncFresh();
      }
      MakeKept();
    }

    /** Either less than a byte is in sight, or the next symbol takes more bits than are. */
    lemma FirstSymbol()
      requires Sync() && st.mode == LEN
      ensures bits < 8 || SymbolBits() > bits
    {
      hide *;
      SyncParts();
      MidParts();
      LenParts(st, abs, all);
      FewSymbol(Decode(abs.lcode, hold).bits);
      if bits >= 8 {
        StalledSymbol(LENS, abs.lcode, all, next, hold, bits, abs.pos);
        SymbolBitsIs();
      }
    }

    /** The number of bits of the next literal or length symbol. */
    ghost function SymbolBits(): nat
      reads this`abs, this`all
    {
      if abs.pos <= |BytesBits(all)| then Decode(abs.lcode, Rest(BytesBits(all), abs.pos)).bits else 0
    }

    lemma SymbolBitsIs()
      ensures abs.pos <= |BytesBits(all)| ==> SymbolBits() == Decode(abs.lcode, Rest(BytesBits(all), abs.pos)).bits
    {
      hide Decode, Rest, BytesBits;
    }

    /** What holds between two calls of inflate(). A stream that has ended may have left its last
        output out of the window. */
    ghost predicate Valid()
      reads this
    {
      && Arrays() && put == [] && Led(abs, all) && abs.out == hist && (exact ==> abs.mode == st.mode)
      && (if st.mode == BAD || st.mode == DONE
          then window != [] ==> WindowOk(hist, window, wnext, whave, wbits)
          else Sync())
      && (!exact ==> st.mode == BAD && abs.mode == MATCH && Pow2(wbits) < abs.offset <= |abs.out|)
    }

    /** The rest of inflate() after its loop, lines 1253-1260: what was put out goes into the window. */
    method Leave(finish: bool)
      requires window != [] || put != [] ==> WindowOk(hist, window, wnext, whave, wbits)
      modifies this`window, this`wnext, this`whave, this`put, this`hist
      ensures hist == old(hist) + old(put) && put == []
      ensures window != [] ==> WindowOk(hist, window, wnext, whave, wbits)
      ensures window == [] ==> old(put) == [] || st.mode == BAD || (st.mode == DONE && finish)
      ensures window == [] ==> old(window) == [] && whave == old(whave)
    {
      hide IW.Holds, Pow2;
      if window != [] || (put != [] && st.mode != BAD && (st.mode != DONE || !finish)) {
        if window == [] {
          window, wnext, whave := seq(Pow2(wbits), _ => 0), 0, 0;
          NewWindow(window);
        }
        window, wnext, whave := IW.UpdateWindow(window, wnext, whave, put, hist);
      }
      hist := hist + put;
      put := [];
    }

    /** More input and fresh output space: lines 475-484. */
    method Enter(more: seq<byte>, space: nat)
      requires Valid()
      modifies this`all, this`next, this`put, this`left
      ensures all == old(all) + more && put == [] && left == space
      ensures Led(abs, all) && (st.mode == BAD || st.mode == DONE || Sync())
    {
      hide *;
      ValidParts();
      LedMore(abs, all, more);
      ClearedFresh(abs, all + more, hist, wbits);
      if st.mode != BAD && st.mode != DONE {
        SyncParts();
        MidParts();
        SupplyHeld(all, next, hold, bits, abs.pos, more);
        PulledHeld(all, next, hold, bits, abs.pos);
        LeanMore(abs, all, next, bits, more);
      }
      all := all + more;
      next := next + more;
      put, left := [], space;
      if st.mode != BAD && st.mode != DONE {
        MidAgain();
        MakeSync();
      }
    }

    /** The loop of inflate(), lines 649-1245. It fails to follow the abstract machine exactly if the space
        lets it come to a match whose bytes have left the window. */
    method Run()
      requires Sync() && put == []
      modifies this`st, this`hold, this`bits, this`next, this`put, this`left, this`abs, this`exact, codes, distCodes
      modifies work
      ensures Kept() && WindowOk(hist, window, wnext, whave, wbits) && |put| + left == old(left)
      ensures exact ==> left == 0 || After(abs, all) == None
      ensures exact <==> Served(all, |hist|, old(left), Pow2(wbits))
    {
      hide *;
      SyncParts();
      MidParts();
      SyncKept();
      WrittenWindow(abs.out, hist, put, window, wnext, whave, wbits);
      while st.mode != BAD && st.mode != DONE
        invariant Kept() && WindowOk(hist, window, wnext, whave, wbits) && |put| + left == old(left)
        decreases Bitcount(), left, Rank(st.mode)
      {
        ghost var n, l, m := Bitcount(), left, st.mode;
        KeptParts();
        if !exact {
          LostParts();
        }
        var stop := Turn();
        if stop {
          KeptServed(old(left));
          return;
        }
        ProgressParts(n, l, m, Bitcount(), left, st.mode);
      }
      KeptParts();
      if exact {
        SyncParts();
        MidParts();
        EndAfter(abs, all);
      }
      KeptServed(old(left));
    }

    lemma KeptServed(space: nat)
      requires Kept() && |put| + left == space && (exact ==> left == 0 || After(abs, all) == None)
      ensures exact <==> Served(all, |hist|, space, Pow2(wbits))
      ensures !exact ==> Pow2(wbits) < abs.offset <= |abs.out|
    {
      hide *;
      KeptParts();
      if exact {
        SyncParts();
        MidParts();
        WrittenSizes(abs.out, hist, put, window, wnext, whave, wbits);
        if left == 0 {
          ClearedFull(abs, all, hist, space, wbits);
        } else {
          ClearedEnd(abs, all, hist, space, wbits);
        }
      } else {
        LostParts();
        Unserved(abs, all, |hist|, space, Pow2(wbits));
      }
    }

    /** The loop and what comes after it. */
    method Resume(finish: bool) returns (out: seq<byte>)
      requires Sync() && put == []
      modifies this, codes, distCodes, work
      ensures Valid() && all == old(all) && hist == old(hist) + out && |out| <= old(left)
      ensures exact ==> |out| == old(left) || After(abs, all) == None
      ensures exact <==> Served(all, |old(hist)|, old(left), Pow2(wbits))
    {
      hide *;
      SyncParts();
      MidParts();
      ghost var space := left;
      Run();
      KeptParts();
      KeptServed(space);
      out := put;
      if exact {
        SyncParts();
        MidParts();
        WrittenSizes(abs.out, hist, put, window, wnext, whave, wbits);
        WrittenNone(abs.out, hist, put, window, wnext, whave, wbits);
      } else {
        LostParts();
      }
      Leave(finish);
      if st.mode != BAD && st.mode != DONE {
        WrittenAgain(abs.out, hist, window, wnext, whave, wbits);
        ClearedFresh(abs, all, hist, wbits);
        MidAgain();
        MakeSync();
      }
      MakeValid();
    }

    /** inflate(), lines 622-1275, on the next piece of input and with the given output space. The
        output so far is always what the abstract machine puts out for the input so far. Unless the
        space is used up the machine can go no further, or it has come to a match whose bytes have
        left the window. */
    method Call(more: seq<byte>, space: nat, finish: bool) returns (out: seq<byte>)
      requires Valid()
      modifies this, codes, distCodes, work
      ensures Valid() && all == old(all) + more && hist == old(hist) + out && |out| <= space
      ensures exact ==> |out| == space || After(abs, all) == None
      ensures exact <==> old(exact) && Served(all, |old(hist)|, space, Pow2(wbits))
    {
      hide *;
      ValidParts();
      Enter(more, space);
      if st.mode != BAD && st.mode != DONE {
        out := Resume(finish);
      } else {
        out := [];
        if exact {
          EndAfter(abs, all);
          ClearedFresh(abs, all, hist, wbits);
          ClearedEnd(abs, all, hist, space, wbits);
        }
        Leave(finish);
        MakeValid();
      }
    }

    /** Nothing is lost where no match reaches back further than the window. */
    lemma WithinExact()
      requires Valid() && Within(all, Pow2(wbits))
      ensures exact
    {
      hide *;
      ValidParts();
      if !exact {
        TooFarBack(abs, all, Pow2(wbits));
      }
    }

    lemma ValidParts()
      requires Valid()
      ensures Arrays() && put == [] && Led(abs, all) && abs.out == hist && (exact ==> abs.mode == st.mode)
      ensures st.mode == BAD || st.mode == DONE ==> window != [] ==> WindowOk(hist, window, wnext, whave, wbits)
      ensures st.mode != BAD && st.mode != DONE ==> Sync()
      ensures !exact ==> st.mode == BAD && abs.mode == MATCH && Pow2(wbits) < abs.offset <= |abs.out|
    {
      hide Arrays, Led, Cleared, Mid, WindowOk;
    }

    lemma MakeValid()
      requires Arrays() && put == [] && Led(abs, all) && abs.out == hist && (exact ==> abs.mode == st.mode)
      requires st.mode == BAD || st.mode == DONE ==> window != [] ==> WindowOk(hist, window, wnext, whave, wbits)
      requires st.mode != BAD && st.mode != DONE ==> Sync()
      requires !exact ==> st.mode == BAD && abs.mode == MATCH && Pow2(wbits) < abs.offset <= |abs.out|
      ensures Valid()
    {
      hide Arrays, Led, Cleared, Mid, WindowOk;
    }
  }

  /** Lines 1017-1038. */
  method BothTables(llens: seq<nat>, dlens: seq<nat>, codes: array<Entry>, distCodes: array<Entry>, work: array<nat>)
    returns (ok: bool, lroot: nat, droot: nat)
    requires LengthsOk(llens) && |llens| <= 286 && |llens| <= work.Length && SpaceFor(LENS, llens, 9, codes.Length)
    requires LengthsOk(dlens) && |dlens| <= 30 && |dlens| <= work.Length
    requires SpaceFor(DISTS, dlens, 6, distCodes.Length) && codes != distCodes
    modifies codes, distCodes, work
    ensures ok ==> Serves(LENS, llens, codes[..], lroot) && Serves(DISTS, dlens, distCodes[..], droot)
    ensures ok <==> Accepted(LENS, llens) && Accepted(DISTS, dlens)
  {
    hide *;
    droot := 0;
    MeantSizes(|llens|, |dlens|);
    ok, lroot := TableFor(LENS, llens, codes, 9, work);
    if ok {
      ok, droot := TableFor(DISTS, dlens, distCodes, 6, work);
    }
  }

  lemma MeantSizes(nlen: nat, ndist: nat)
    requires nlen <= 286 && ndist <= 30
    ensures TableRoom.Meant(LENS, nlen, 9) && TableRoom.Meant(DISTS, ndist, 6) && nlen <= MaxCodes(LENS)
    ensures ndist <= MaxCodes(DISTS)
  {
  }

  /** inflate_table as inflate() sees it: ENOUGH is always enough. */
  method TableFor(t: CodeType, lens: seq<nat>, table: array<Entry>, bits: nat, work: array<nat>)
    returns (ok: bool, root: nat)
    requires LengthsOk(lens) && |lens| <= MaxCodes(t) && |lens| <= work.Length && SpaceFor(t, lens, bits, table.Length)
    requires TableRoom.Meant(t, |lens|, bits) || (Pow2(bits) <= Limit(t) && RootCovers(lens, bits))
    modifies table, work
    ensures ok ==> Serves(t, lens, table[..], root)
    ensures ok <==> Accepted(t, lens)
  {
    hide *;
    var ret, used;
    ret, root, used := BuildTable(t, lens, table, bits, work);
    TableOutcome(t, lens, ret, root, table[..], bits);
    ok := ret == 0;
  }

  /** Lines 1002-1003. */
  method FillLens(lens0: seq<nat>, have: nat, copy: nat, len: nat) returns (lens: seq<nat>)
    requires have + copy <= |lens0|
    ensures lens == Repeat(lens0, have, copy, len)
  {
    lens := lens0;
    for k := 0 to copy
      invariant |lens| == |lens0| && lens == Repeat(lens0, have, k, len)
    {
      lens := lens[have + k := len];
    }
  }

  /** Lines 944-945. */
  method ClearRest(lens0: seq<nat>, have0: nat) returns (lens: seq<nat>)
    requires |lens0| == 320 && have0 <= 19
    ensures lens == ClearFrom(lens0, have0) && |lens| == 320
  {
    lens := lens0;
    var have: nat := have0;
    while have < 19
      invariant have <= 19 && |lens| == 320 && ClearFrom(lens, have) == ClearFrom(lens0, have0)
    {
      lens := lens[ORDER[have] := 0];
      have := have + 1;
    }
  }

  method NewCodes() returns (a: array<Entry>)
    ensures fresh(a) && a.Length == ENOUGH
  {
    a := new Entry[ENOUGH](_ => INVALID);
  }

  method NewWork() returns (a: array<nat>)
    ensures fresh(a) && a.Length == 320
  {
    a := new nat[320](_ => 0);
  }
}
