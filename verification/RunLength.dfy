/** The chunk codec of core/OctTile.cpp: RleEncode and RleDecode. */
module RunLength {
  import opened BitStreams

  const MAX_RUN: nat := 0x7FFF

  /** A count and its byte value, lines 86-97: one byte below 0x80, otherwise two with the top bit set. */
  function RunBytes(cnt: nat, v: byte): seq<byte>
    requires cnt <= MAX_RUN
  {
    if cnt < 0x80 then [cnt, v] else [cnt / 256 + 0x80, cnt % 256, v]
  }

  function Copies(cnt: nat, v: byte): seq<byte>
  {
    seq(cnt, _ => v)
  }

  /** The encoded runs make sense: counts are followed by what they need. */
  predicate WellFormed(rle: seq<byte>)
    decreases |rle|
  {
    rle == [] || (|rle| >= Width(rle[0]) && WellFormed(rle[Width(rle[0])..]))
  }

  function Width(first: byte): nat
  {
    if first < 0x80 then 2 else 3
  }

  function Count(rle: seq<byte>): nat
    requires rle != [] && |rle| >= Width(rle[0])
  {
    var cnt0: nat, cnt1: nat := rle[0], rle[1];
    if cnt0 < 0x80 then cnt0 else cnt0 % 0x80 * 256 + cnt1
  }

  /** What they stand for. */
  function Expanded(rle: seq<byte>): seq<byte>
    requires WellFormed(rle)
    decreases |rle|
  {
    if rle == [] then []
    else
      var w := Width(rle[0]);
      Copies(Count(rle), rle[w - 1]) + Expanded(rle[w..])
  }

  /** One more run at the end. */
  lemma {:induction false} ExpandedSnoc(rle: seq<byte>, cnt: nat, v: byte)
    requires WellFormed(rle) && cnt <= MAX_RUN
    ensures WellFormed(rle + RunBytes(cnt, v)) && Expanded(rle + RunBytes(cnt, v)) == Expanded(rle) + Copies(cnt, v)
    decreases |rle|
  {
    var r := RunBytes(cnt, v);
    if rle == [] {
      assert rle + r == r;
      RunAlone(cnt, v);
    } else {
      var w := Width(rle[0]);
      ExpandedSnoc(rle[w..], cnt, v);
      var all := rle + r;
      assert all[0] == rle[0] && all[w..] == rle[w..] + r && all[..w] == rle[..w];
      assert all[w - 1] == rle[w - 1] && Count(all) == Count(rle);
      assert Copies(Count(rle), rle[w - 1]) + (Expanded(rle[w..]) + Copies(cnt, v))
          == Copies(Count(rle), rle[w - 1]) + Expanded(rle[w..]) + Copies(cnt, v);
    }
  }

  lemma RunAlone(cnt: nat, v: byte)
    requires cnt <= MAX_RUN
    ensures WellFormed(RunBytes(cnt, v)) && Expanded(RunBytes(cnt, v)) == Copies(cnt, v)
  {
    var r := RunBytes(cnt, v);
    var w := Width(r[0]);
    assert r[w..] == [];
    assert WellFormed(r[w..]) && Expanded(r[w..]) == [];
    assert Count(r) == cnt;
  }

  lemma CopiesMore(cnt: nat, v: byte)
    ensures Copies(cnt, v) + [v] == Copies(cnt + 1, v)
  {
  }

  /** No run is empty, a count has no more bytes than it needs, and a run ends only where the value changes or
      the count is as large as it can be. */
  predicate Canonical(rle: seq<byte>)
    requires WellFormed(rle)
    decreases |rle|
  {
    rle == [] ||
    (var w := Width(rle[0]);
     && Count(rle) >= 1 && (Count(rle) < 0x80 <==> w == 2) && Canonical(rle[w..])
     && (rle[w..] == [] || Count(rle) == 0x7FFF || rle[w - 1] != FirstValue(rle[w..])))
  }

  function FirstValue(rle: seq<byte>): byte
    requires rle != [] && WellFormed(rle)
  {
    rle[Width(rle[0]) - 1]
  }

  /** A run of the value v can come next. */
  predicate Followed(rle: seq<byte>, v: byte)
    requires WellFormed(rle)
    decreases |rle|
  {
    rle == [] ||
    (var w := Width(rle[0]);
     if rle[w..] == [] then Count(rle) == 0x7FFF || rle[w - 1] != v else Followed(rle[w..], v))
  }

  lemma {:induction false} CanonicalSnoc(rle: seq<byte>, cnt: nat, v: byte, v': byte)
    requires WellFormed(rle) && Canonical(rle) && Followed(rle, v) && 1 <= cnt <= MAX_RUN
    requires WellFormed(rle + RunBytes(cnt, v))
    ensures Canonical(rle + RunBytes(cnt, v))
    ensures v != v' || cnt == 0x7FFF ==> Followed(rle + RunBytes(cnt, v), v')
    decreases |rle|
  {
    var r := RunBytes(cnt, v);
    if rle == [] {
      assert rle + r == r;
      assert r[Width(r[0])..] == [];
    } else {
      var w := Width(rle[0]);
      var all := rle + r;
      assert all[0] == rle[0] && all[w..] == rle[w..] + r && all[..w] == rle[..w];
      assert all[w - 1] == rle[w - 1] && Count(all) == Count(rle);
      CanonicalSnoc(rle[w..], cnt, v, v');
      if rle[w..] == [] {
        assert all[w..] == r;
      } else {
        FirstStays(rle[w..], r);
      }
    }
  }

  lemma FirstStays(rle: seq<byte>, more: seq<byte>)
    requires rle != [] && WellFormed(rle) && WellFormed(rle + more)
    ensures FirstValue(rle + more) == FirstValue(rle)
  {
  }

  lemma ExpandedFirst(rle: seq<byte>)
    requires rle != [] && WellFormed(rle)
    ensures var w, n := Width(rle[0]), Count(rle);
      && |Expanded(rle)| == n + |Expanded(rle[w..])| && Expanded(rle)[n..] == Expanded(rle[w..])
      && forall i :: 0 <= i < n ==> Expanded(rle)[i] == FirstValue(rle)
  {
  }

  /** The first runs of two canonical encodings of the same data have the same count. */
  lemma SameCount(a: seq<byte>, b: seq<byte>)
    requires WellFormed(a) && WellFormed(b) && Canonical(a) && Canonical(b) && Expanded(a) == Expanded(b)
    requires a != [] && b != []
    ensures Count(a) >= Count(b) && FirstValue(a) == FirstValue(b)
  {
    hide Expanded;
    ExpandedFirst(a);
    ExpandedFirst(b);
    RunEnds(a);
    assert Expanded(a)[0] == Expanded(b)[0];
  }

  /** The run after it, if there is one, differs. */
  lemma RunEnds(a: seq<byte>)
    requires a != [] && WellFormed(a) && Canonical(a)
    ensures var n := Count(a);
      |Expanded(a)| == n || n == 0x7FFF || (|Expanded(a)| > n && Expanded(a)[n] != FirstValue(a))
  {
    hide Expanded;
    var n, rest := Count(a), a[Width(a[0])..];
    ExpandedFirst(a);
    NothingExpanded();
    if rest != [] {
      ExpandedFirst(rest);
      assert Expanded(a)[n..][0] == Expanded(rest)[0];
    }
  }

  lemma NothingExpanded()
    ensures WellFormed([]) && Expanded([]) == []
  {
  }

  /** The code is determined by the data. */
  lemma {:induction false} CanonicalUnique(a: seq<byte>, b: seq<byte>)
    requires WellFormed(a) && WellFormed(b) && Canonical(a) && Canonical(b) && Expanded(a) == Expanded(b)
    ensures a == b
    decreases |a|
  {
    hide Expanded;
    NothingExpanded();
    if a == [] && b != [] {
      ExpandedFirst(b);
    } else if a != [] && b == [] {
      ExpandedFirst(a);
    } else if a != [] {
      SameCount(a, b);
      SameCount(b, a);
      ExpandedFirst(a);
      ExpandedFirst(b);
      var w := Width(a[0]);
      CanonicalUnique(a[w..], b[w..]);
      SameHead(a, b);
      assert a == a[..w] + a[w..] && b == b[..w] + b[w..];
    }
  }

  lemma SameHead(a: seq<byte>, b: seq<byte>)
    requires a != [] && b != [] && WellFormed(a) && WellFormed(b) && Count(a) == Count(b)
    requires FirstValue(a) == FirstValue(b) && Width(a[0]) == Width(b[0])
    ensures a[..Width(a[0])] == b[..Width(b[0])]
  {
  }

  /** RleEncode, lines 79-121. The first byte is read before the loop, so there has to be one. */
  method RleEncode(data: seq<byte>) returns (outrle: seq<byte>)
    requires data != []
    ensures WellFormed(outrle) && Expanded(outrle) == data && Canonical(outrle)
  {
    hide Copies, RunBytes, Canonical, Followed, WellFormed, Expanded;
    NothingYet(data[0]);
    outrle := [];
    var curval: byte, cnt: nat := data[0], 0;
    NoCopies(curval);
    for i := 0 to |data|
      invariant cnt <= MAX_RUN && (i > 0 ==> cnt > 0)
      invariant WellFormed(outrle) && Expanded(outrle) + Copies(cnt, curval) == data[..i]
      invariant Canonical(outrle) && Followed(outrle, curval) && (i == 0 ==> curval == data[0])
    {
      var v := data[i];
      assert data[..i + 1] == data[..i] + [v];
      if v != curval || cnt == MAX_RUN {
        ExpandedSnoc(outrle, cnt, curval);
        CanonicalSnoc(outrle, cnt, curval, v);
        outrle := outrle + RunBytes(cnt, curval);
        NoCopies(v);
        CopiesMore(0, v);
        cnt, curval := 1, v;
      } else {
        CopiesMore(cnt, v);
        assert Expanded(outrle) + (Copies(cnt, v) + [v]) == Expanded(outrle) + Copies(cnt, v) + [v];
        cnt := cnt + 1;
      }
    }
    if cnt > 0 {
      ExpandedSnoc(outrle, cnt, curval);
      CanonicalSnoc(outrle, cnt, curval, curval);
      outrle := outrle + RunBytes(cnt, curval);
    }
    assert data[..|data|] == data;
  }

  lemma NothingYet(v: byte)
    ensures WellFormed([]) && Expanded([]) == [] && Canonical([]) && Followed([], v)
  {
  }

  lemma NoCopies(v: byte)
    ensures Copies(0, v) == []
  {
  }

  /** memset. */
  method Fill(buf: array<byte>, offset: nat, n: nat, v: byte)
    requires offset + n <= buf.Length
    modifies buf
    ensures buf[..] == old(buf[..offset]) + Copies(n, v) + old(buf[offset + n..])
  {
    for i := 0 to n
      invariant buf[..] == old(buf[..offset]) + Copies(i, v) + old(buf[offset + i..])
    {
      buf[offset + i] := v;
    }
  }

  /** The runs before `it` stand for `done`. */
  ghost predicate Decoded(data: seq<byte>, it: nat, done: seq<byte>)
  {
    it <= |data| && WellFormed(data) && WellFormed(data[it..]) && done + Expanded(data[it..]) == Expanded(data)
  }

  ghost predicate Filled(buf: seq<byte>, done: seq<byte>, size: nat)
  {
    |done| <= size && buf == done + Copies(size - |done|, 0)
  }

  lemma NextRun(data: seq<byte>, it: nat, done: seq<byte>)
    requires Decoded(data, it, done) && it < |data|
    ensures
      && var rest := data[it..];
      && var w := Width(data[it]);
      && it + w <= |data| && rest[0] == data[it] && rest[1] == data[it + 1] && |rest| >= Width(rest[0])
      && Decoded(data, it + w, done + Copies(Count(rest), data[it + w - 1]))
  {
    hide Copies;
    var rest := data[it..];
    var w := Width(rest[0]);
    var c := Copies(Count(rest), rest[w - 1]);
    assert rest[w..] == data[it + w..];
    assert done + c + Expanded(rest[w..]) == done + (c + Expanded(rest[w..]));
  }

  /** The next run fits the buffer. */
  lemma FillRoom(data: seq<byte>, it: nat, done: seq<byte>, size: nat)
    requires Decoded(data, it, done) && it < |data| && |Expanded(data)| <= size
    ensures |data[it..]| >= Width(data[it..][0]) && |done| + Count(data[it..]) <= size
  {
    hide Copies, Expanded, WellFormed, Count;
    NextRun(data, it, done);
    var w := Width(data[it]);
    CopiesSize(Count(data[it..]), data[it + w - 1]);
  }

  lemma FilledMore(before: seq<byte>, after: seq<byte>, done: seq<byte>, n: nat, v: byte, size: nat)
    requires Filled(before, done, size) && |done| + n <= size == |before|
    requires after == before[..|done|] + Copies(n, v) + before[|done| + n..]
    ensures Filled(after, done + Copies(n, v), size)
  {
    hide Copies;
    CopiesSize(n, v);
    CopiesRest(size - |done|, n);
    assert before[..|done|] == done && before[|done| + n..] == Copies(size - |done| - n, 0);
  }

  /** RleDecode, lines 123-150, with the size of the buffer as a parameter: what the runs stand for, then
      the zeros of the resize. */
  method RleDecode(data: seq<byte>, size: nat) returns (outdata: array<byte>)
    requires WellFormed(data) && |Expanded(data)| <= size
    ensures fresh(outdata) && outdata[..] == Expanded(data) + Copies(size - |Expanded(data)|, 0)
  {
    hide Copies, Expanded, WellFormed;
    NothingExpanded();
    outdata := new byte[size](_ => 0);
    ZeroBuffer(outdata[..], size);
    var offset: nat, it: nat := 0, 0;
    ghost var done: seq<byte> := [];
    assert data[0..] == data;
    assert done + Expanded(data) == Expanded(data) && done + Copies(size, 0) == Copies(size, 0);
    while it < |data|
      invariant it <= |data| && Decoded(data, it, done)
      invariant fresh(outdata) && outdata.Length == size && offset == |done| && Filled(outdata[..], done, size)
    {
      var cnt0: nat := data[it];
      var n: nat, v: byte, w: nat := 0, 0, 0;
      NextRun(data, it, done);
      if cnt0 < 0x80 {
        n, v, w := cnt0, data[it + 1], 2;
      } else {
        var cnt1: nat := data[it + 1];
        n, v, w := cnt0 % 0x80 * 256 + cnt1, data[it + 2], 3;
      }
      ghost var before := outdata[..];
      FillRoom(data, it, done, size);
      Fill(outdata, offset, n, v);
      FilledMore(before, outdata[..], done, n, v, size);
      done := done + Copies(n, v);
      CopiesSize(n, v);
      offset := offset + n;
      it := it + w;
    }
    assert data[|data|..] == [];
    assert done + [] == done;
  }

  lemma ZeroBuffer(buf: seq<byte>, n: nat)
    requires |buf| == n && forall i :: 0 <= i < n ==> buf[i] == 0
    ensures buf == Copies(n, 0)
  {
  }

  lemma CopiesSize(n: nat, v: byte)
    ensures |Copies(n, v)| == n
  {
  }

  lemma CopiesRest(n: nat, k: nat)
    requires k <= n
    ensures |Copies(n, 0)| == n && Copies(n, 0)[k..] == Copies(n - k, 0)
  {
  }

  /** A chunk of the full size comes back as it was. */
  method RoundTrip(chunk: seq<byte>) returns (back: array<byte>)
    requires chunk != []
    ensures back[..] == chunk
  {
    hide Copies;
    var rle := RleEncode(chunk);
    back := RleDecode(rle, |chunk|);
    NoCopies(0);
    assert chunk + [] == chunk;
  }
}
