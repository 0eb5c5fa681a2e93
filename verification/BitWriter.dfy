/** The bit buffer of trees.c: send_bits, bi_flush, bi_windup and put_short. */
module BitWriter {
  import opened Powers
  import opened Bits
  import opened BitStreams

  const BUF_SIZE: nat := 16

  /** The or of buf with value << valid, where buf has no bits from valid up. */
  function Or(buf: nat, valid: nat, value: nat): nat
  {
    buf + value * Pow2(valid)
  }

  class Writer {
    /** pending_buf[0 .. pending] */
    var pending: seq<byte>
    var biBuf: nat
    var biValid: nat

    ghost predicate Valid()
      reads this
    {
      biValid <= BUF_SIZE && biBuf < Pow2(biValid)
    }

    /** Everything sent so far. */
    ghost function Written(): seq<bool>
      reads this
    {
      BytesBits(pending) + BitsOf(biBuf, biValid)
    }

    constructor ()
      ensures Valid() && Written() == []
    {
      pending, biBuf, biValid := [], 0, 0;
    }

    method PutByte(b: byte)
      modifies this`pending
      ensures pending == old(pending) + [b]
      ensures BytesBits(pending) == BytesBits(old(pending)) + BitsOf(b, 8)
    {
      pending := pending + [b];
      BytesConcat(old(pending), [b]);
      BytesOne(b);
    }

    /** Lines 174-177. */
    method PutShort(w: nat)
      requires w < 0x10000
      modifies this`pending
      ensures pending == old(pending) + [w % 256, w / 256]
      ensures BytesBits(pending) == BytesBits(old(pending)) + BitsOf(w, 16)
    {
      hide BytesBits, BitsOf;
      ShortBits(w);
      PutByte(w % 256);
      PutByte(w / 256);
    }

    /** Lines 186-208. Of the or, the 16 low bits are kept. */
    method SendBits(value: nat, length: nat)
      requires Valid() && length <= 16 && value < Pow2(length)
      modifies this
      ensures Valid() && Written() == old(Written()) + BitsOf(value, length)
      ensures old(pending) <= pending
    {
      hide BytesBits, BitsOf, Pow2, Or, Low, High;
      var sum: nat := Or(biBuf, biValid, value);
      SumBound(biBuf, biValid, value, length);
      ghost var all := BitsOf(sum, biValid + length);
      if biValid > BUF_SIZE - length {
        Overflow(biBuf, biValid, value, length);
        ghost var p := pending;
        PutShort(Low(sum, 16));
        biBuf := High(value, BUF_SIZE - biValid);
        biValid := biValid + length - BUF_SIZE;
        assert Written() == BytesBits(p) + all;
      } else {
        biBuf := sum;
        biValid := biValid + length;
      }
    }

    /** Lines 1173-1185: at most 7 bits stay behind. */
    method BiFlush()
      requires Valid()
      modifies this
      ensures Valid() && Written() == old(Written()) && biValid <= 7 && old(pending) <= pending
    {
      hide BytesBits, BitsOf, Pow2;
      PowAt16();
      if biValid == 16 {
        ghost var p, b := pending, BitsOf(biBuf, 16);
        PutShort(biBuf);
        biBuf, biValid := 0, 0;
        NoBits(0);
        assert Written() == BytesBits(p) + b;
      } else if biValid >= 8 {
        ghost var p, b := pending, BitsOf(biBuf, biValid);
        ByteOff(biBuf, biValid);
        PutByte(Low(biBuf, 8));
        biBuf := High(biBuf, 8);
        biValid := biValid - 8;
        assert Written() == BytesBits(p) + b;
      }
    }

    /** Lines 1190-1203: zero bits fill up the last byte. */
    method BiWindup()
      requires Valid()
      modifies this
      ensures Valid() && biValid == 0 && old(pending) <= pending && Written() == BytesBits(pending)
      ensures exists pad: nat :: pad <= 7 && Written() == old(Written()) + BitsOf(0, pad)
    {
      hide BytesBits, BitsOf, Pow2;
      PowAt16();
      ghost var p, b, n := pending, biBuf, biValid;
      ghost var pad: nat := if n > 8 then 16 - n else if n > 0 then 8 - n else 0;
      PadBits(b, n, n + pad);
      if biValid > 8 {
        Pow2Mono(n, 16);
        PutShort(biBuf);
      } else if biValid > 0 {
        Pow2Mono(n, 8);
        PutByte(biBuf);
      }
      biBuf, biValid := 0, 0;
      NoBits(0);
      NoBits(b);
      assert Written() == (BytesBits(p) + BitsOf(b, n)) + BitsOf(0, pad);
    }

    /** The copy of whole bytes in _tr_stored_block, lines 871-874. */
    method PutStored(data: seq<byte>)
      requires Valid() && biValid == 0 && |data| < 0x10000
      modifies this
      ensures Valid() && old(pending) <= pending
      ensures Written() == old(Written()) + (BitsOf(|data|, 16) + (BitsOf(0xFFFF - |data|, 16) + BytesBits(data)))
    {
      hide BytesBits, BitsOf, Pow2;
      NoBits(biBuf);
      ghost var w := BytesBits(pending);
      PutShort(|data|);
      PutShort(0xFFFF - |data|);
      BytesConcat(pending, data);
      pending := pending + data;
      assert w + BitsOf(|data|, 16) + BitsOf(0xFFFF - |data|, 16) + BytesBits(data)
          == w + (BitsOf(|data|, 16) + (BitsOf(0xFFFF - |data|, 16) + BytesBits(data)));
    }
  }

  lemma NoBits(v: nat)
    ensures BitsOf(v, 0) == [] && Pow2(0) == 1
  {
  }

  lemma PowAt16()
    ensures Pow2(8) == 256 && Pow2(16) == 0x10000
  {
    EightBits();
    Pow2Add(8, 8);
  }

  lemma ShortBits(w: nat)
    requires w < 0x10000
    ensures BitsOf(w % 256, 8) + BitsOf(w / 256, 8) == BitsOf(w, 16)
  {
    hide BitsOf, Pow2;
    PowAt16();
    BitsPlus(w % 256, 8, w / 256, 8);
    assert w == w % 256 + w / 256 * 256;
  }

  lemma SumBound(b: nat, n: nat, v: nat, m: nat)
    requires b < Pow2(n) && v < Pow2(m)
    ensures Or(b, n, v) < Pow2(n + m) && BitsOf(Or(b, n, v), n + m) == BitsOf(b, n) + BitsOf(v, m)
  {
    hide Pow2, BitsOf;
    BitsPlus(b, n, v, m);
    Pow2Add(m, n);
    MulGap(Pow2(n), v, Pow2(m));
  }

  /** The buffer overflows: 16 bits go out and the rest of the value stays. */
  lemma Overflow(b: nat, n: nat, v: nat, m: nat)
    requires b < Pow2(n) && v < Pow2(m) && n <= 16 < n + m && m <= 16
    ensures var sum := Or(b, n, v);
      && Low(sum, 16) < 0x10000 && High(v, 16 - n) < Pow2(n + m - 16)
      && BitsOf(sum, n + m) == BitsOf(Low(sum, 16), 16) + BitsOf(High(v, 16 - n), n + m - 16)
  {
    hide BitsOf, Pow2, Low, High;
    PowAt16();
    var sum := Or(b, n, v);
    BitsConcat(sum, 16, n + m - 16);
    BitsLow(sum, 16, 16);
    HighPlus(b, v, n);
    HighHigh(sum, n, 16 - n);
    HighBound(v, n + m - 16, 16 - n);
  }

  lemma ByteOff(b: nat, n: nat)
    requires b < Pow2(n) && 8 <= n
    ensures Low(b, 8) < 256 && High(b, 8) < Pow2(n - 8)
    ensures BitsOf(b, n) == BitsOf(Low(b, 8), 8) + BitsOf(High(b, 8), n - 8)
  {
    hide BitsOf, Pow2, Low, High;
    PowAt16();
    BitsConcat(b, 8, n - 8);
    BitsLow(b, 8, 8);
    HighBound(b, n - 8, 8);
  }

  lemma PadBits(b: nat, n: nat, m: nat)
    requires b < Pow2(n) && n <= m
    ensures BitsOf(b, m) == BitsOf(b, n) + BitsOf(0, m - n)
  {
    hide BitsOf, Pow2;
    BitsPlus(b, n, 0, m - n);
  }
}
