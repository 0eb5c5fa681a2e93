/** The bit accumulator of inflate.c: PULLBYTE, BITS and DROPBITS against the input as one bit
    string. */
module InflateInput {
  import opened Powers
  import opened Bits
  import opened BitStreams
  import opened InflateSpec

  /** Of the input all, the bytes next are still to be pulled, and hold has the bits from pos up
      to them. */
  ghost predicate Held(all: seq<byte>, next: seq<byte>, hold: nat, bits: nat, pos: nat)
  {
    && |next| <= |all| && all[|all| - |next|..] == next && pos + bits == 8 * (|all| - |next|)
    && hold == ValueOf(BytesBits(all)[pos..pos + bits])
  }

  lemma HeldSmall(all: seq<byte>, next: seq<byte>, hold: nat, bits: nat, pos: nat)
    requires Held(all, next, hold, bits, pos)
    ensures hold < Pow2(bits) && pos <= 8 * |all| == |BytesBits(all)|
  {
  }

  /** PULLBYTE, lines 509-514. */
  lemma PullHeld(all: seq<byte>, next: seq<byte>, hold: nat, bits: nat, pos: nat)
    requires Held(all, next, hold, bits, pos) && next != []
    ensures Held(all, next[1..], hold + next[0] * Pow2(bits), bits + 8, pos)
  {
    hide BitsOf, Pow2, BytesBits, ValueOf;
    var n := |all| - |next|;
    ByteAt(all, n);
    var b := BytesBits(all);
    assert b[pos..pos + bits + 8] == b[pos..pos + bits] + b[8 * n..8 * n + 8];
    ValueConcat(b[pos..pos + bits], BitsOf(all[n], 8));
    ValueOfBits(all[n], 8);
    EightBits();
    LowSmall(all[n], 8);
    assert all[n..][0] == next[0] && all[n + 1..] == next[1..];
  }

  lemma {:induction false} ByteAt(all: seq<byte>, n: nat)
    requires n < |all|
    ensures BytesBits(all)[8 * n..8 * n + 8] == BitsOf(all[n], 8)
  {
    hide BitsOf, BytesBits;
    var a, b := all[..n], all[n + 1..];
    assert all == a + [all[n]] + b;
    BytesConcat(a + [all[n]], b);
    BytesConcat(a, [all[n]]);
    BytesOne(all[n]);
  }

  /** DROPBITS, lines 530-534. */
  lemma DropHeld(all: seq<byte>, next: seq<byte>, hold: nat, bits: nat, pos: nat, n: nat)
    requires Held(all, next, hold, bits, pos) && n <= bits
    ensures Held(all, next, High(hold, n), bits - n, pos + n)
  {
    hide Pow2, BytesBits, ValueOf;
    var b := BytesBits(all)[pos..pos + bits];
    ValuePrefix(b, n);
    assert b[n..] == BytesBits(all)[pos + n..pos + bits];
  }

  /** BITS, line 526: what the accumulator shows is what the input has. */
  lemma HeldPeek(all: seq<byte>, next: seq<byte>, hold: nat, bits: nat, pos: nat, n: nat)
    requires Held(all, next, hold, bits, pos) && n <= bits
    ensures Fits(pos, n, BytesBits(all)) && Peek(BytesBits(all), pos, n) == Low(hold, n)
  {
    hide Pow2, BytesBits, ValueOf;
    var b := BytesBits(all)[pos..pos + bits];
    ValuePrefix(b, n);
    assert b[..n] == BytesBits(all)[pos..pos + n];
  }

  /** Further in, after dropping. */
  lemma HeldPeekAt(all: seq<byte>, next: seq<byte>, hold: nat, bits: nat, pos: nat, n: nat, m: nat)
    requires Held(all, next, hold, bits, pos) && n + m <= bits
    ensures Fits(pos + n, m, BytesBits(all)) && Peek(BytesBits(all), pos + n, m) == Low(High(hold, n), m)
  {
    hide Held;
    DropHeld(all, next, hold, bits, pos, n);
    HeldPeek(all, next, High(hold, n), bits - n, pos + n, m);
  }

  /** The accumulator shows the low bits of the rest of the input. */
  lemma HeldRest(all: seq<byte>, next: seq<byte>, hold: nat, bits: nat, pos: nat)
    requires Held(all, next, hold, bits, pos)
    ensures pos <= |BytesBits(all)| && Low(Rest(BytesBits(all), pos), bits) == Low(hold, bits) == hold
  {
    hide Pow2, BytesBits, ValueOf;
    var r := BytesBits(all)[pos..];
    ValuePrefix(r, bits);
    assert r[..bits] == BytesBits(all)[pos..pos + bits];
    LowSmall(hold, bits);
  }

  /** With no byte left, what does not fit into the accumulator is not there at all. */
  lemma HeldEnd(all: seq<byte>, hold: nat, bits: nat, pos: nat, n: nat)
    requires Held(all, [], hold, bits, pos)
    ensures Fits(pos, n, BytesBits(all)) <==> n <= bits
  {
    hide Pow2, BytesBits, ValueOf;
  }

  /** More input arrives. */
  lemma SupplyHeld(all: seq<byte>, next: seq<byte>, hold: nat, bits: nat, pos: nat, more: seq<byte>)
    requires Held(all, next, hold, bits, pos)
    ensures Held(all + more, next + more, hold, bits, pos) && BytesBits(all + more) == BytesBits(all) + BytesBits(more)
  {
    hide Pow2, BytesBits, ValueOf;
    BytesConcat(all, more);
    assert (BytesBits(all) + BytesBits(more))[pos..pos + bits] == BytesBits(all)[pos..pos + bits];
  }

  /** With an empty accumulator the next byte of the input is the next eight bits: stored blocks. */
  lemma HeldByte(all: seq<byte>, next: seq<byte>, pos: nat)
    requires Held(all, next, 0, 0, pos) && next != []
    ensures Fits(pos, 8, BytesBits(all)) && Peek(BytesBits(all), pos, 8) == next[0]
    ensures Held(all, next[1..], 0, 0, pos + 8)
  {
    hide Pow2, BytesBits, ValueOf, BitsOf, Held;
    PullHeld(all, next, 0, 0, pos);
    PowNone();
    HeldPeek(all, next[1..], next[0], 8, pos, 8);
    EightBits();
    LowSmall(next[0], 8);
    DropHeld(all, next[1..], next[0], 8, pos, 8);
    HighAll(next[0], 8);
  }

  lemma HighAll(x: nat, n: nat)
    requires x < Pow2(n)
    ensures High(x, n) == 0
  {
    HighPlus(x, 0, n);
  }

  /** Lines 301-304 of inffast.c: whole bytes in the accumulator go back to the input. */
  lemma GiveBackHeld(all: seq<byte>, next: seq<byte>, hold: nat, bits: nat, pos: nat, k: nat)
    requires Held(all, next, hold, bits, pos) && 8 * k <= bits
    ensures |next| + k <= |all|
    ensures Held(all, all[|all| - |next| - k..], Low(hold, bits - 8 * k), bits - 8 * k, pos)
  {
    hide Pow2, BytesBits, ValueOf;
    var b := BytesBits(all)[pos..pos + bits];
    var m := bits - 8 * k;
    ValuePrefix(b, m);
    assert b[..m] == BytesBits(all)[pos..pos + m];
  }
}
