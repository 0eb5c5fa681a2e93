/** updatewindow of inflate.c: the circular window always holds the last bytes of the output. */
module InflateWindow {
  import opened BitStreams

  /** The byte k back from the write position. */
  function Back(window: seq<byte>, wnext: nat, k: nat): byte
    requires wnext < |window| && 1 <= k <= |window|
  {
    if k <= wnext then window[wnext - k] else window[|window| + wnext - k]
  }

  function Min(a: nat, b: nat): nat
  {
    if a <= b then a else b
  }

  /** The window holds the last min(|hist|, wsize) bytes of hist. */
  ghost predicate Holds(window: seq<byte>, wnext: nat, whave: nat, hist: seq<byte>)
  {
    && wnext < |window| && whave == Min(|hist|, |window|) && (whave < |window| ==> wnext == whave)
    && forall k :: 1 <= k <= whave ==> Back(window, wnext, k) == hist[|hist| - k]
  }

  /** Lines 421-426: more output than the window can hold. */
  lemma ReplaceAll(window: seq<byte>, hist: seq<byte>, put: seq<byte>)
    requires 0 < |window| <= |put|
    ensures Holds(put[|put| - |window|..], 0, |window|, hist + put)
  {
  }

  /** Lines 427-430: output that fits before the end of the window. */
  lemma CopyBefore(window: seq<byte>, wnext: nat, whave: nat, hist: seq<byte>, put: seq<byte>)
    requires Holds(window, wnext, whave, hist) && |put| <= |window| - wnext && |put| < |window|
    ensures var w := window[..wnext] + put + window[wnext + |put|..];
      Holds(w, if wnext + |put| == |window| then 0 else wnext + |put|,
            if whave < |window| then whave + |put| else whave, hist + put)
  {
    var w := window[..wnext] + put + window[wnext + |put|..];
    var n := if wnext + |put| == |window| then 0 else wnext + |put|;
    var h := if whave < |window| then whave + |put| else whave;
    forall k | 1 <= k <= h ensures Back(w, n, k) == (hist + put)[|hist| + |put| - k] {
      if k > |put| {
        assert Back(window, wnext, k - |put|) == hist[|hist| - (k - |put|)];
      }
    }
  }

  /** Lines 431-435: output that wraps round. */
  lemma CopyRound(window: seq<byte>, wnext: nat, whave: nat, hist: seq<byte>, put: seq<byte>)
    requires Holds(window, wnext, whave, hist) && |window| - wnext < |put| < |window|
    ensures var d := |window| - wnext;
      var w := put[d..] + window[|put| - d..wnext] + put[..d];
      Holds(w, |put| - d, |window|, hist + put)
  {
    var d := |window| - wnext;
    var w := put[d..] + window[|put| - d..wnext] + put[..d];
    var n := |put| - d;
    forall k | 1 <= k <= |window| ensures Back(w, n, k) == (hist + put)[|hist| + |put| - k] {
      if k > |put| {
        assert Back(window, wnext, k - |put|) == hist[|hist| - (k - |put|)];
      }
    }
  }

  /** updatewindow, lines 396-444, once the window is allocated: put is the output of this call. */
  method UpdateWindow(window: seq<byte>, wnext: nat, whave: nat, put: seq<byte>, ghost hist: seq<byte>)
    returns (window': seq<byte>, wnext': nat, whave': nat)
    requires Holds(window, wnext, whave, hist)
    ensures |window'| == |window| && Holds(window', wnext', whave', hist + put)
  {
    hide Holds;
    HoldsSize(window, wnext, whave, hist);
    var wsize: nat := |window|;
    if |put| >= wsize {
      ReplaceAll(window, hist, put);
      return put[|put| - wsize..], 0, wsize;
    }
    var dist: nat := if wsize - wnext > |put| then |put| else wsize - wnext;
    if |put| > dist {
      CopyRound(window, wnext, whave, hist, put);
      window' := put[dist..] + window[|put| - dist..wnext] + put[..dist];
      wnext', whave' := |put| - dist, wsize;
    } else {
      CopyBefore(window, wnext, whave, hist, put);
      window' := window[..wnext] + put + window[wnext + |put|..];
      wnext', whave' := wnext + dist, whave;
      if wnext' == wsize {
        wnext' := 0;
      }
      if whave' < wsize {
        whave' := whave' + dist;
      }
    }
  }

  lemma HoldsSize(window: seq<byte>, wnext: nat, whave: nat, hist: seq<byte>)
    requires Holds(window, wnext, whave, hist)
    ensures wnext < |window| && whave <= |window|
  {
  }
}
