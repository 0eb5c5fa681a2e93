/** Literals and matches, what they stand for, and the length and distance codes of section
    3.2.5 of RFC 1951 as trees.c tabulates them. */
module Tokens {
  import opened Powers
  import opened BitStreams

  datatype Token = Lit(b: byte) | Match(len: nat, dist: nat)

  const MIN_MATCH: nat := 3
  const MAX_MATCH: nat := 258

  predicate GoodToken(t: Token)
  {
    t.Match? ==> MIN_MATCH <= t.len <= MAX_MATCH && 1 <= t.dist <= 32768
  }

  predicate GoodTokens(ts: seq<Token>)
  {
    forall i :: 0 <= i < |ts| ==> GoodToken(ts[i])
  }

  /** No distance is above n. */
  predicate Reach(ts: seq<Token>, n: nat)
  {
    forall i :: 0 <= i < |ts| && ts[i].Match? ==> ts[i].dist <= n
  }

  /** Copies n bytes from dist back, one at a time, so that they may overlap. */
  function CopyBack(out: seq<byte>, n: nat, dist: nat): (r: seq<byte>)
    requires 1 <= dist <= |out|
    ensures |r| == |out| + n && r[..|out|] == out
    decreases n
  {
    if n == 0 then out else CopyBack(out + [out[|out| - dist]], n - 1, dist)
  }

  /** A match never reaches back before the beginning. */
  predicate Expandable(out: seq<byte>, ts: seq<Token>)
    decreases |ts|
  {
    ts == [] || ((ts[0].Match? ==> 1 <= ts[0].dist <= |out|) && Expandable(ExpandOne(out, ts[0]), ts[1..]))
  }

  function ExpandOne(out: seq<byte>, t: Token): seq<byte>
    requires t.Match? ==> 1 <= t.dist <= |out|
  {
    match t
    case Lit(b) => out + [b]
    case Match(len, dist) => CopyBack(out, len, dist)
  }

  /** The output after the tokens. */
  function Expand(out: seq<byte>, ts: seq<Token>): seq<byte>
    requires Expandable(out, ts)
    decreases |ts|
  {
    if ts == [] then out else Expand(ExpandOne(out, ts[0]), ts[1..])
  }

  /** Tokens expand one after another. */
  lemma {:induction false} ExpandConcat(out: seq<byte>, a: seq<Token>, b: seq<Token>)
    requires Expandable(out, a) && Expandable(Expand(out, a), b)
    ensures Expandable(out, a + b) && Expand(out, a + b) == Expand(Expand(out, a), b)
    decreases |a|
  {
    if a == [] {
      assert a + b == b;
    } else {
      ExpandConcat(ExpandOne(out, a[0]), a[1..], b);
      assert (a + b)[0] == a[0] && (a + b)[1..] == a[1..] + b;
    }
  }

  const EXTRA_LBITS: seq<nat> := [0, 0, 0, 0, 0, 0, 0, 0, 1, 1, 1, 1, 2, 2, 2, 2, 3, 3, 3, 3, 4, 4, 4, 4, 5, 5, 5, 5, 0]
  const EXTRA_DBITS: seq<nat> := [
    0, 0, 0, 0, 1, 1, 2, 2, 3, 3, 4, 4, 5, 5, 6, 6, 7, 7, 8, 8, 9, 9, 10, 10, 11, 11, 12, 12, 13, 13]
  const BASE_LENGTH: seq<nat> := [
    0, 1, 2, 3, 4, 5, 6, 7, 8, 10, 12, 14, 16, 20, 24, 28, 32, 40, 48, 56, 64, 80, 96, 112, 128, 160, 192, 224, 0]
  const BASE_DIST: seq<nat> := [
    0, 1, 2, 3, 4, 6, 8, 12, 16, 24, 32, 48, 64, 96, 128, 192, 256, 384, 512, 768, 1024, 1536, 2048, 3072,
    4096, 6144, 8192, 12288, 16384, 24576]

  /** The last code up to c whose base is not above v. */
  function CodeFor(base: seq<nat>, v: nat, c: nat): (r: nat)
    requires c < |base| && base[0] == 0
    ensures r <= c && base[r] <= v
    ensures r < c ==> v < base[r + 1]
  {
    if base[c] <= v then c else CodeFor(base, v, c - 1)
  }

  /** _length_code: the code of a match of lc + 3 bytes. */
  function LengthCode(lc: nat): nat
    requires lc < 256
  {
    if lc == 255 then 28 else CodeFor(BASE_LENGTH, lc, 27)
  }

  /** _dist_code: small distances first, then the others by their bits from 7 up. */
  function DistTable(i: nat): nat
    requires i < 512
  {
    if i < 256 then CodeFor(BASE_DIST, i, 15) else CodeFor(BASE_DIST, (i - 256) * 128, 29)
  }

  /** d_code of deflate.h, of a distance less one. */
  function DistCode(dist: nat): nat
    requires dist < 32768
  {
    if dist < 256 then DistTable(dist) else DistTable(256 + dist / 128)
  }

  lemma LengthBaseStep(c: nat)
    requires c < 27
    ensures BASE_LENGTH[c + 1] == BASE_LENGTH[c] + Pow2(EXTRA_LBITS[c])
  {
    hide Pow2;
    SmallPowers();
  }

  lemma DistBaseStep(c: nat)
    requires c < 29
    ensures BASE_DIST[c + 1] == BASE_DIST[c] + Pow2(EXTRA_DBITS[c])
  {
    hide Pow2;
    SmallPowers();
  }

  lemma SmallPowers()
    ensures Pow2(0) == 1 && Pow2(1) == 2 && Pow2(2) == 4 && Pow2(3) == 8 && Pow2(4) == 16 && Pow2(5) == 32
    ensures Pow2(6) == 64 && Pow2(7) == 128 && Pow2(8) == 256 && Pow2(9) == 512 && Pow2(10) == 1024
    ensures Pow2(11) == 2048 && Pow2(12) == 4096 && Pow2(13) == 8192
  {
  }

  /** A length's code and extra bits determine it. */
  lemma LengthCodeRange(lc: nat)
    requires lc < 256
    ensures var c := LengthCode(lc);
      && c <= 28 && (if c == 28 then lc == 255 else BASE_LENGTH[c] <= lc < BASE_LENGTH[c] + Pow2(EXTRA_LBITS[c]))
  {
    hide Pow2;
    SmallPowers();
    var c := LengthCode(lc);
    if c < 27 {
      LengthBaseStep(c);
    }
  }

  /** A distance's code and extra bits determine it; the table by steps of 128 is exact
      because from code 16 on every base is a multiple of 128. */
  lemma DistCodeRange(dist: nat)
    requires dist < 32768
    ensures var c := DistCode(dist); c <= 29 && BASE_DIST[c] <= dist < BASE_DIST[c] + Pow2(EXTRA_DBITS[c])
  {
    hide Pow2;
    var c := DistCode(dist);
    if dist < 256 {
      SmallDist(dist);
    } else {
      LargeDist(dist);
    }
  }

  lemma SmallDist(dist: nat)
    requires dist < 256
    ensures var c := DistTable(dist); c <= 29 && BASE_DIST[c] <= dist < BASE_DIST[c] + Pow2(EXTRA_DBITS[c])
  {
    hide Pow2;
    DistBaseStep(DistTable(dist));
  }

  lemma LargeDist(dist: nat)
    requires 256 <= dist < 32768
    ensures var c := DistTable(256 + dist / 128); c <= 29 && BASE_DIST[c] <= dist < BASE_DIST[c] + Pow2(EXTRA_DBITS[c])
  {
    hide Pow2;
    var c, v := DistTable(256 + dist / 128), dist / 128 * 128;
    if c < 29 {
      DistBaseStep(c);
      DistGap(c, v, dist);
    } else {
      SmallPowers();
    }
  }

  lemma DistGap(c: nat, v: nat, dist: nat)
    requires c < 29 && v == dist / 128 * 128 && v >= 256 && BASE_DIST[c] <= v < BASE_DIST[c + 1]
    ensures dist < BASE_DIST[c + 1]
  {
  }
}
